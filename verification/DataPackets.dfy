/** Data packets: over which route a node passes them on, and that using a route
    keeps it alive in both directions (section 6.2 of RFC 3561). */
module DataPackets {
  import opened Base
  import opened Messages
  import opened RouteTable
  import opened NodeState
  import opened LinkBreak
  import opened Routes
  import opened NodeEvents
  import opened Frames
  import opened NodeFrames
  import opened AnsweredRequests
  import opened ReverseNumbers
  import NeighborWatch
  import PacketQueue

  // ---------------------------------------------------------------------
  // Handing over

  /** The report of a packet that cannot go on: it lists exactly its destination,
      with the number known of it. */
  function NoRouteTo(p: Table, dst: Addr): Message {
    RERR(Rerr(0, 0, map[dst := if Numbered(p, dst) then p[dst].info.seqNo else 0]))
  }

  /** Where the report goes: towards the packet's origin, or everywhere. */
  function Report(s: Node, p: Table, header: PacketQueue.Header): seq<Sent> {
    if s.ctr.rerrCount == s.cfg.rerrRateLimit then []
    else if IsValid(p, header.src)
    then [Sent(NoRouteTo(p, header.dst), 1, p[header.src].info.iface, p[header.src].route.nextHop)]
    else OnEveryInterface(s.ifaces, NoRouteTo(p, header.dst), 1)
  }

  lemma UseRouteErrors(s: Node, origin: Addr, dst: Addr, now: Time)
    requires IsValid(s.Purged(now), dst)
    ensures OnlyErrors(s, UseRoute(s, origin, dst, now))
            && UseRoute(s, origin, dst, now).log.delivered == s.log.delivered
  {
    hide Purge, Refresh, UpdateNeighbor, OnlyErrors;
    var p, life, bad := s.Purged(now), s.cfg.activeRouteTimeout, s.cfg.badLinkLifetime;
    var gateway := p[dst].route.nextHop;
    var t1 := Refresh(Refresh(Refresh(p, origin, life, now, bad), dst, life, now, bad), gateway, life, now, bad);
    var back := GetOr(t1, origin, DefaultEntry(now)).route.nextHop;
    var s1 := s.(table := Refresh(t1, back, life, now, bad));
    UpdateErrors(s1, gateway, life, now);
    UpdateErrors(UpdateNeighbor(s1, gateway, life, now), back, life, now);
    ErrorsTrans(s, s1, UpdateNeighbor(s1, gateway, life, now));
    ErrorsTrans(s, UpdateNeighbor(s1, gateway, life, now),
                UpdateNeighbor(UpdateNeighbor(s1, gateway, life, now), back, life, now));
  }

  lemma UpdateErrors(s: Node, addr: Addr, expire: Time, now: Time)
    ensures OnlyErrors(s, UpdateNeighbor(s, addr, expire, now))
    ensures UpdateNeighbor(s, addr, expire, now).log.delivered == s.log.delivered
  {
    hide BreakAll, Filter, NeighborIndex;
    var s1 := s.(neighbors := s.neighbors + [Neighbor(addr, expire + now, false)]);
    BreakAllErrors(s1, Filter(IsClosed(now), s1.neighbors), now);
    BreakAllDelivers(s1, Filter(IsClosed(now), s1.neighbors), now);
  }

  lemma {:induction false} BreakAllDelivers(s: Node, lost: seq<Neighbor>, now: Time)
    ensures BreakAll(s, lost, now).log.delivered == s.log.delivered
    decreases |lost|
  {
    hide BreakLink;
    if lost != [] {
      BreakLinkDelivers(s, lost[0].addr, now);
      BreakAllDelivers(BreakLink(s, lost[0].addr, now), lost[1..], now);
    }
  }

  lemma BreakLinkDelivers(s: Node, nextHop: Addr, now: Time)
    ensures BreakLink(s, nextHop, now).log.delivered == s.log.delivered
  {
    hide Purge, LostDestinations, LostPrecursors, InvalidateAll, PrecursorIfaces;
  }

  lemma ErrorsTrans(a: Node, b: Node, c: Node)
    requires (b.log.sent == a.log.sent && b.ifaces == a.ifaces && b.cfg == a.cfg) || OnlyErrors(a, b)
    requires OnlyErrors(b, c)
    ensures OnlyErrors(a, c)
  {
    assert forall i :: |a.log.sent| <= i < |b.log.sent| ==> c.log.sent[i] == b.log.sent[i];
  }

  /** A packet that is to be forwarded goes on unchanged, once, over the route to
      its destination exactly when that is up; otherwise it goes nowhere, and
      below the rate limit the missing route is reported. */
  lemma ForwardsExactly(s: Node, uid: int, header: PacketQueue.Header, now: Time)
    ensures var p := s.Purged(now); var s' := Apply(s, Forward(uid, header), now);
            if IsValid(p, header.dst) then
              && s'.log.delivered == s.log.delivered + [Delivery(uid, header, p[header.dst].route)]
              && OnlyErrors(s, s')
            else
              && s'.log.delivered == s.log.delivered
              && (s.cfg.badLinkLifetime >= 0 ==> s'.log.sent == s.log.sent + Report(s, p, header))
  {
    hide Purge, UseRoute, OnlyErrors;
    var p := s.Purged(now);
    if IsValid(p, header.dst) {
      UseRouteErrors(s, header.src, header.dst, now);
      LaterDelivery(s, UseRoute(s, header.src, header.dst, now), Apply(s, Forward(uid, header), now));
    } else {
      NoRouteReports(s, header, now);
    }
  }

  lemma LaterDelivery(s: Node, s1: Node, s': Node)
    requires OnlyErrors(s, s1) && s'.log.sent == s1.log.sent && s'.ifaces == s1.ifaces && s'.cfg == s1.cfg
    ensures OnlyErrors(s, s')
  {
  }

  lemma NoRouteReports(s: Node, header: PacketQueue.Header, now: Time)
    requires !IsValid(s.Purged(now), header.dst)
    ensures var s' := UseRoute(s, header.src, header.dst, now);
            && s'.log.delivered == s.log.delivered
            && (s.cfg.badLinkLifetime >= 0 ==> s'.log.sent == s.log.sent + Report(s, s.Purged(now), header))
  {
    hide Purge, OnEveryInterface;
    if s.cfg.badLinkLifetime >= 0 { PurgeTwice(s.table, now, s.cfg.badLinkLifetime); }
  }

  // ---------------------------------------------------------------------
  // Lifetimes

  /** Where it is up, the route to `k` lives at least until `until`. */
  predicate Lives(t: Table, k: Addr, until: Time) { IsValid(t, k) ==> t[k].info.lifeTime >= until }

  /** Keeping one route alive shortens no other. */
  lemma RefreshLives(t: Table, addr: Addr, life: Time, k: Addr, until: Time, now: Time, bad: Time)
    ensures Lives(Refresh(t, addr, life, now, bad), addr, now + life)
    ensures Lives(t, k, until) ==> Lives(Refresh(t, addr, life, now, bad), k, until)
  {
  }

  lemma BreakLinkLives(s: Node, nextHop: Addr, k: Addr, until: Time, now: Time)
    requires Lives(s.table, k, until)
    ensures Lives(BreakLink(s, nextHop, now).table, k, until)
  {
    hide SendRerrMessage, LostDestinations, LostPrecursors;
  }

  lemma {:induction false} BreakAllLives(s: Node, lost: seq<Neighbor>, k: Addr, until: Time, now: Time)
    requires Lives(s.table, k, until)
    ensures Lives(BreakAll(s, lost, now).table, k, until)
    decreases |lost|
  {
    hide BreakLink, Lives;
    if lost != [] {
      BreakLinkLives(s, lost[0].addr, k, until, now);
      BreakAllLives(BreakLink(s, lost[0].addr, now), lost[1..], k, until, now);
    }
  }

  lemma UpdateNeighborLives(s: Node, addr: Addr, expire: Time, k: Addr, until: Time, now: Time)
    requires Lives(s.table, k, until)
    ensures Lives(UpdateNeighbor(s, addr, expire, now).table, k, until)
  {
    hide BreakAll, Filter, NeighborIndex, Lives;
    var s1 := s.(neighbors := s.neighbors + [Neighbor(addr, expire + now, false)]);
    BreakAllLives(s1, Filter(IsClosed(now), s1.neighbors), k, until, now);
  }

  /** The next hop of the route to `k`, if there is one. */
  function WayTo(t: Table, k: Addr): Addr { if k in t then t[k].route.nextHop else NO_ADDR }

  /** Routes to both ends and to the next hops in both directions. */
  predicate BothWaysLive(t: Table, t': Table, header: PacketQueue.Header, until: Time) {
    && Lives(t', header.dst, until) && Lives(t', WayTo(t, header.dst), until)
    && Lives(t', header.src, until) && Lives(t', WayTo(t, header.src), until)
  }

  lemma FourLive(t: Table, keys: seq<Addr>, life: Time, now: Time, bad: Time)
    requires |keys| == 4
    ensures var t' := Refresh(Refresh(Refresh(Refresh(t, keys[0], life, now, bad), keys[1], life, now, bad),
                                      keys[2], life, now, bad), keys[3], life, now, bad);
            forall i :: 0 <= i < 4 ==> Lives(t', keys[i], now + life)
  {
    hide Refresh, Lives;
    var t1 := Refresh(t, keys[0], life, now, bad);
    var t2 := Refresh(t1, keys[1], life, now, bad);
    var t3 := Refresh(t2, keys[2], life, now, bad);
    RefreshLives(t, keys[0], life, keys[0], now + life, now, bad);
    RefreshLives(t1, keys[1], life, keys[0], now + life, now, bad);
    forall i | 0 <= i < 2 ensures Lives(t3, keys[i], now + life) {
      RefreshLives(t2, keys[2], life, keys[i], now + life, now, bad);
    }
    forall i | 0 <= i < 3
      ensures Lives(Refresh(t3, keys[3], life, now, bad), keys[i], now + life)
      ensures Lives(Refresh(t3, keys[3], life, now, bad), keys[3], now + life)
    {
      RefreshLives(t2, keys[2], life, keys[i], now + life, now, bad);
      RefreshLives(t3, keys[3], life, keys[i], now + life, now, bad);
    }
  }

  /** A refresh of a table that has just been purged redirects nothing. */
  lemma RefreshRoutes(t: Table, addr: Addr, life: Time, now: Time, bad: Time, k: Addr)
    requires Purge(t, now, bad) == t && life >= 0
    ensures var t' := Refresh(t, addr, life, now, bad); Purge(t', now, bad) == t' && WayTo(t', k) == WayTo(t, k)
  {
  }

  lemma ThreeRoutes(t: Table, a: Addr, b: Addr, c: Addr, life: Time, now: Time, bad: Time, k: Addr)
    requires Purge(t, now, bad) == t && life >= 0
    ensures WayTo(Refresh(Refresh(Refresh(t, a, life, now, bad), b, life, now, bad), c, life, now, bad),
            k) == WayTo(t, k)
  {
    hide Refresh, Purge, WayTo;
    RefreshRoutes(t, a, life, now, bad, k);
    var t1 := Refresh(t, a, life, now, bad);
    RefreshRoutes(t1, b, life, now, bad, k);
    RefreshRoutes(Refresh(t1, b, life, now, bad), c, life, now, bad, k);
  }

  /** A packet that goes on keeps the routes in both directions alive. */
  lemma ForwardKeepsAlive(s: Node, uid: int, header: PacketQueue.Header, now: Time)
    requires s.cfg.badLinkLifetime >= 0 && s.cfg.activeRouteTimeout >= 0 && IsValid(s.Purged(now), header.dst)
    ensures BothWaysLive(s.Purged(now), Apply(s, Forward(uid, header), now).table, header,
            now + s.cfg.activeRouteTimeout)
  {
    hide Purge, Refresh, UpdateNeighbor, Lives;
    var p, life, bad := s.Purged(now), s.cfg.activeRouteTimeout, s.cfg.badLinkLifetime;
    var gateway, until := p[header.dst].route.nextHop, now + life;
    PurgeTwice(s.table, now, bad);
    ThreeRoutes(p, header.src, header.dst, gateway, life, now, bad, header.src);
    var back := WayTo(p, header.src);
    var keys := [header.src, header.dst, gateway, back];
    FourLive(p, keys, life, now, bad);
    var t := Refresh(Refresh(Refresh(Refresh(p, keys[0], life, now, bad), keys[1], life, now, bad), keys[2],
                             life, now, bad), keys[3], life, now, bad);
    var s1 := s.(table := t);
    forall i | 0 <= i < 4
      ensures Lives(UpdateNeighbor(UpdateNeighbor(s1, gateway, life, now), back, life, now).table, keys[i], until)
    {
      UpdateNeighborLives(s1, gateway, life, keys[i], until, now);
      UpdateNeighborLives(UpdateNeighbor(s1, gateway, life, now), back, life, keys[i], until, now);
    }
    UsesRoute(s, header, now);
  }

  lemma UsesRoute(s: Node, header: PacketQueue.Header, now: Time)
    requires IsValid(s.Purged(now), header.dst)
    ensures var p, life, bad := s.Purged(now), s.cfg.activeRouteTimeout, s.cfg.badLinkLifetime;
            var gateway := p[header.dst].route.nextHop;
            var t1 := Refresh(Refresh(Refresh(p, header.src, life, now, bad), header.dst, life, now, bad), gateway,
                              life, now, bad);
            var back := WayTo(t1, header.src);
            var s1 := s.(table := Refresh(t1, back, life, now, bad));
            UseRoute(s, header.src, header.dst, now)
            == UpdateNeighbor(UpdateNeighbor(s1, gateway, life, now), back, life, now)
  {
    hide Purge, Refresh, UpdateNeighbor;
  }

  /** So does one that is delivered here, towards its origin. */
  lemma DeliveryKeepsAlive(s: Node, origin: Addr, now: Time)
    ensures var t' := Apply(s, Delivered(origin), now).table;
            Lives(t', origin, now + s.cfg.activeRouteTimeout)
            && (s.cfg.badLinkLifetime >= 0 && s.cfg.activeRouteTimeout >= 0 && IsValid(s.Purged(now), origin) ==>
                  Lives(t', WayTo(s.Purged(now), origin), now + s.cfg.activeRouteTimeout))
  {
    hide Purge, Refresh, UpdateNeighbor, Lives;
    var life, bad := s.cfg.activeRouteTimeout, s.cfg.badLinkLifetime;
    var t := Refresh(s.table, origin, life, now, bad);
    var until := now + life;
    RefreshLives(s.table, origin, life, origin, until, now, bad);
    if IsValid(t, origin) {
      var back := t[origin].route.nextHop;
      RefreshLives(t, back, life, origin, until, now, bad);
      var s1 := s.(table := Refresh(t, back, life, now, bad));
      UpdateNeighborLives(s1, back, life, origin, until, now);
      UpdateNeighborLives(s1, back, life, back, until, now);
    }
    RefreshKeepsValid(s.table, origin, life, now, bad);
  }

  lemma RefreshKeepsValid(t: Table, addr: Addr, life: Time, now: Time, bad: Time)
    ensures IsValid(Purge(t, now, bad), addr) ==>
      IsValid(Refresh(t, addr, life, now, bad), addr)
      && WayTo(Refresh(t, addr, life, now, bad), addr) == WayTo(Purge(t, now, bad), addr)
  {
  }

  // ---------------------------------------------------------------------
  // The neighbours on the way

  lemma HearsAfter(s: Node, s1: Node, addr: Addr, expire: Time, now: Time)
    requires NeighborWatch.Watched(s) && NeighborWatch.Unwatched(s, s1) && expire >= 0
    ensures var s' := UpdateNeighbor(s1, addr, expire, now);
            && NeighborWatch.Watched(s1) && NeighborWatch.Watched(s')
            && NeighborWatch.OpenUntil(s', addr, now + expire)
            && forall a, until :: NeighborWatch.OpenUntil(s1, a, until) && until >= now ==>
                 NeighborWatch.OpenUntil(s', a, until)
  {
    hide UpdateNeighbor;
    NeighborWatch.UpdateGuards(s1, addr, expire, now);
  }

  /** Whoever is used in either direction counts as heard. */
  lemma ForwardHears(s: Node, uid: int, header: PacketQueue.Header, now: Time)
    requires s.cfg.badLinkLifetime >= 0 && s.cfg.activeRouteTimeout >= 0 && IsValid(s.Purged(now), header.dst)
    requires NeighborWatch.Watched(s)
    ensures var s' := Apply(s, Forward(uid, header), now); var until := now + s.cfg.activeRouteTimeout;
            && NeighborWatch.OpenUntil(s', WayTo(s.Purged(now), header.dst), until)
            && NeighborWatch.OpenUntil(s', WayTo(s.Purged(now), header.src), until)
  {
    hide Purge, Refresh, UpdateNeighbor, NeighborWatch.Watched, NeighborWatch.OpenUntil;
    var p, life, bad := s.Purged(now), s.cfg.activeRouteTimeout, s.cfg.badLinkLifetime;
    var gateway, back := p[header.dst].route.nextHop, WayTo(p, header.src);
    PurgeTwice(s.table, now, bad);
    ThreeRoutes(p, header.src, header.dst, gateway, life, now, bad, header.src);
    UsesRoute(s, header, now);
    var t1 := Refresh(Refresh(Refresh(p, header.src, life, now, bad), header.dst, life, now, bad), gateway, life,
                      now, bad);
    var s1 := s.(table := Refresh(t1, back, life, now, bad));
    HearsAfter(s, s1, gateway, life, now);
    var s2 := UpdateNeighbor(s1, gateway, life, now);
    HearsAfter(s2, s2, back, life, now);
    SameOpen(UpdateNeighbor(s2, back, life, now), Apply(s, Forward(uid, header), now));
  }

  lemma SameOpen(s: Node, s': Node)
    requires s'.neighbors == s.neighbors
    ensures forall a, until :: NeighborWatch.OpenUntil(s, a, until) ==> NeighborWatch.OpenUntil(s', a, until)
  {
  }

  lemma DeliveryHears(s: Node, origin: Addr, now: Time)
    requires s.cfg.activeRouteTimeout >= 0 && IsValid(s.Purged(now), origin) && NeighborWatch.Watched(s)
    ensures NeighborWatch.OpenUntil(Apply(s, Delivered(origin), now), WayTo(s.Purged(now), origin),
                                    now + s.cfg.activeRouteTimeout)
  {
    hide Purge, Refresh, UpdateNeighbor, NeighborWatch.Watched, NeighborWatch.OpenUntil;
    var life, bad := s.cfg.activeRouteTimeout, s.cfg.badLinkLifetime;
    RefreshKeepsValid(s.table, origin, life, now, bad);
    var t := Refresh(s.table, origin, life, now, bad);
    var back := t[origin].route.nextHop;
    HearsAfter(s, s.(table := Refresh(t, back, life, now, bad)), back, life, now);
  }

  // ---------------------------------------------------------------------
  // A packet that leaves here

  /** A route lives until then at least, if it is VALID. */
  function Prolonged(e: Entry, until: Time): Entry {
    if e.info.flag == VALID then e.(info := e.info.(lifeTime := Max(e.info.lifeTime, until))) else e
  }

  lemma RefreshExactly(t: Table, addr: Addr, life: Time, now: Time, bad: Time)
    requires TableOk(t) && Purge(t, now, bad) == t && life >= 0
    ensures var t' := Refresh(t, addr, life, now, bad);
            && t' == (if addr in t then t[addr := Prolonged(t[addr], now + life)] else t)
            && TableOk(t') && Purge(t', now, bad) == t'
  {
    if addr in t { EntryAt(t, addr); }
  }

  lemma RefreshTwice(t: Table, a: Addr, b: Addr, life: Time, now: Time, bad: Time)
    requires TableOk(t) && Purge(t, now, bad) == t && life >= 0 && a in t
    ensures var t' := Refresh(Refresh(t, a, life, now, bad), b, life, now, bad);
            && t'.Keys == t.Keys
            && forall k :: k in t ==> t'[k] == if k == a || k == b then Prolonged(t[k], now + life) else t[k]
  {
    hide Purge, Refresh, TableOk;
    RefreshExactly(t, a, life, now, bad);
    RefreshExactly(Refresh(t, a, life, now, bad), b, life, now, bad);
  }

  /** The packet goes over the route: it is VALID and over the right device. */
  predicate Goes(p: Table, dst: Addr, oif: int) { IsValid(p, dst) && (oif == -1 || p[dst].route.dev == oif) }

  /** Asking for a route prolongs it and the route to its next hop exactly when the
      packet may go over it, and changes nothing else. */
  lemma OutputExactly(s: Node, dst: Addr, oif: int, now: Time)
    requires TableOk(s.table) && s.cfg.badLinkLifetime >= 0 && s.cfg.activeRouteTimeout >= 0
    ensures var p := s.Purged(now); var s' := Apply(s, RouteRequest(dst, oif), now);
            && s' == s.(table := s'.table) && s'.table.Keys == p.Keys
            && forall k :: k in p ==>
                 s'.table[k] == if Goes(p, dst, oif) && (k == dst || k == p[dst].route.nextHop)
                                then Prolonged(p[k], now + s.cfg.activeRouteTimeout) else p[k]
  {
    hide Purge, Refresh, TableOk, Prolonged;
    var p, life, bad := s.Purged(now), s.cfg.activeRouteTimeout, s.cfg.badLinkLifetime;
    PurgedQuiet(s, now);
    QuietOk(s, s.(table := p), {}, now);
    PurgeTwice(s.table, now, bad);
    if Goes(p, dst, oif) {
      RefreshTwice(p, dst, p[dst].route.nextHop, life, now, bad);
    }
  }
}
