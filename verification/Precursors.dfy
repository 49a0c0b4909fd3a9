/** Who becomes a precursor of a route when a reply is passed on (section 6.7 of
    RFC 3561). */
module Precursors {
  import opened Base
  import opened Messages
  import opened RouteTable
  import opened NodeState
  import opened LinkBreak
  import opened Routes
  import opened NodeEvents
  import opened Frames
  import opened NodeFrames
  import opened LoopFreedom

  /** What the entry for `k` lists. */
  function ListedAt(t: Table, k: Addr): seq<Addr> { if k in t then t[k].info.precursors else [] }

  predicate SameButList(e: Entry, e': Entry) {
    e'.route == e.route && e'.info.flag == e.info.flag && e'.info.lifeTime == e.info.lifeTime
  }

  lemma AddsExactly(t: Table, a: Addr, id: Addr, k: Addr, now: Time)
    requires TableOk(t) && k != NO_ADDR
    ensures var t' := Update(t, AddPrecursor(GetOr(t, a, DefaultEntry(now)), id));
            && TableOk(t') && t'.Keys == t.Keys && (k in t ==> SameButList(t[k], t'[k]))
            && forall z :: z in ListedAt(t', k) <==> z in ListedAt(t, k) || (k in t && k == a && z == id)
  {
    PrecursorEvolves(t, a, id, now);
    UpdateKeys(t, AddPrecursor(GetOr(t, a, DefaultEntry(now)), id));
    if a in t { EntryAt(t, a); }
  }

  /** The new precursors of `k` when a reply from next hop `x` about `d` is passed
      on to `y`, the next hop towards `o`. */
  predicate Joins(d: Addr, o: Addr, x: Addr, y: Addr, k: Addr, z: Addr) {
    || (k == d && z == y)
    || (k == x && x != o && z == y)
    || (k == o && z == x)
    || (k == y && z == x)
  }

  /** The four writes: the routes to both ends and to both next hops learn of the
      other side.  The one to the originator is of a copy taken before, and so
      takes back what the route to the next hop learned when the two are one. */
  lemma ConnectExactly(t: Table, d: Addr, toOrigin: Entry, k: Addr, now: Time)
    requires TableOk(t) && d in t && k != NO_ADDR && k in t && Distinct(toOrigin.info.precursors)
    requires toOrigin.route.dst != d && toOrigin.route.dst in t
    requires forall z :: z in toOrigin.info.precursors <==> z in t[toOrigin.route.dst].info.precursors
    requires SameButList(t[toOrigin.route.dst], toOrigin)
    ensures var t' := ConnectPrecursors(t, d, toOrigin, now);
            && t'.Keys == t.Keys && SameButList(t[k], t'[k])
            && forall z :: z in ListedAt(t', k) <==>
                 z in ListedAt(t, k) || Joins(d, toOrigin.route.dst, t[d].route.nextHop, toOrigin.route.nextHop, k, z)
  {
    hide Update, TableOk;
    EntryAt(t, d);
    var o, x, y := toOrigin.route.dst, t[d].route.nextHop, toOrigin.route.nextHop;
    var t1 := Update(t, AddPrecursor(t[d], y));
    AddsExactly(t, d, y, k, now);
    var t2 := Update(t1, AddPrecursor(GetOr(t1, x, DefaultEntry(now)), y));
    AddsExactly(t1, x, y, k, now);
    var t3 := Update(t2, AddPrecursor(toOrigin, x));
    StaleExactly(t2, toOrigin, x, k);
    AddsExactly(t3, y, x, k, now);
  }

  lemma ConnectKeys(t: Table, d: Addr, toOrigin: Entry, now: Time)
    requires d in t
    ensures ConnectPrecursors(t, d, toOrigin, now).Keys == t.Keys
  {
  }

  lemma StaleExactly(t: Table, e: Entry, id: Addr, k: Addr)
    requires TableOk(t) && Distinct(e.info.precursors) && e.route.dst in t
    ensures var t' := Update(t, AddPrecursor(e, id));
            && TableOk(t') && t'.Keys == t.Keys && (k in t ==> SameButList(if k == e.route.dst then e else t[k], t'[k]))
            && forall z :: z in ListedAt(t', k) <==>
                 if k == e.route.dst then z in e.info.precursors || z == id else z in ListedAt(t, k)
  {
  }

  // ---------------------------------------------------------------------
  // The handler

  /** The table once the reply's own route is learned. */
  function Learned(s: Node, h: Rrep, sender: Addr, rcv: Iface, now: Time): Table {
    LearnFromReply(Met(s, sender, rcv, now), h, Wrap8(h.hopCount + 1), sender, rcv, now).Purged(now)
  }

  /** Keeping the reverse route alive changes no precursors. */
  lemma ExtendKeeps(cfg: Config, t: Table, o: Addr, now: Time)
    requires TableOk(t) && o in t && t[o].info.flag != IN_SEARCH && Purge(t, now, cfg.badLinkLifetime) == t
    requires cfg.activeRouteTimeout >= 0
    ensures var e := Extended(cfg, t[o], now); var t' := Purge(Update(t, e), now, cfg.badLinkLifetime);
            && t' == t[o := e] && TableOk(t') && e.route == t[o].route && e.info.precursors == t[o].info.precursors
            && e.info.flag == t[o].info.flag
            && e.info.lifeTime == Max(t[o].info.lifeTime, now + cfg.activeRouteTimeout)
  {
    EntryAt(t, o);
    var e := Extended(cfg, t[o], now);
    assert Update(t, e) == t[o := e];
  }

  /** The same route, which lives as long as before and at least as long as an active one. */
  predicate KeptAlive(cfg: Config, e: Entry, e': Entry, now: Time) {
    && e'.route == e.route && e'.info.flag == e.info.flag
    && e'.info.lifeTime == Max(e.info.lifeTime, now + cfg.activeRouteTimeout)
  }

  lemma ForwardConnects(s: Node, h: Rrep, hop: U8, ttl: U8, now: Time, k: Addr)
    requires TableOk(s.table) && s.cfg.badLinkLifetime >= 0 && s.cfg.activeRouteTimeout >= 0
    requires h.dst != h.origin && k != NO_ADDR
    requires var p := s.Purged(now); h.origin in p && p[h.origin].info.flag != IN_SEARCH && IsValid(p, h.dst)
    ensures var p := s.Purged(now); var t' := ForwardReply(s, h, hop, ttl, now).table;
            && t'.Keys == p.Keys && (k == h.origin ==> KeptAlive(s.cfg, p[k], t'[k], now))
            && forall z :: z in ListedAt(t', k) <==>
                 z in ListedAt(p, k)
                 || (k in p && Joins(h.dst, h.origin, p[h.dst].route.nextHop, p[h.origin].route.nextHop, k, z))
  {
    hide Purge, Update, ConnectPrecursors, Extended, TableOk, Joins;
    var p := s.Purged(now);
    PurgedQuiet(s, now);
    QuietOk(s, s.(table := p), {}, now);
    PurgeTwice(s.table, now, s.cfg.badLinkLifetime);
    ExtendKeeps(s.cfg, p, h.origin, now);
    EntryAt(p, h.origin);
    var e := Extended(s.cfg, p[h.origin], now);
    OkPrecursors(h.origin, p[h.origin]);
    if k in p { ConnectExactly(p[h.origin := e], h.dst, e, k, now); }
    ConnectKeys(p[h.origin := e], h.dst, e, now);
  }

  lemma OkPrecursors(k: Addr, e: Entry)
    requires EntryOk(k, e)
    ensures e.route.dst == k && Distinct(e.info.precursors)
  {
  }

  /** A reply that is passed on, seen from the whole message: on the route to its
      destination and on the one to the next hop there, the next hop towards the
      originator becomes a precursor, and the other way round.  Nobody else does
      and nobody is dropped, except that the entry of the next hop gains nothing
      when that next hop is the originator itself.  The route to the originator
      is kept alive. */
  lemma PassedPrecursors(s: Node, h: Rrep, ttl: U8, sender: Addr, rcv: Iface, now: Time, k: Addr)
    requires TableOk(s.table) && s.cfg.badLinkLifetime >= 0 && s.cfg.activeRouteTimeout >= 0
    requires h.dst != h.origin && k != NO_ADDR && !s.IsMyOwnAddress(h.origin)
    requires var p := Learned(s, h, sender, rcv, now);
             h.origin in p && p[h.origin].info.flag != IN_SEARCH && IsValid(p, h.dst)
    ensures var p := Learned(s, h, sender, rcv, now);
            var t' := Receive(s, Some(RREP(h)), ttl, sender, rcv, now).table;
            && t'.Keys == p.Keys && (k == h.origin ==> KeptAlive(s.cfg, p[k], t'[k], now))
            && forall z :: z in ListedAt(t', k) <==>
                 z in ListedAt(p, k)
                 || (k in p && Joins(h.dst, h.origin, p[h.dst].route.nextHop, p[h.origin].route.nextHop, k, z))
  {
    hide Purge, RouteToNeighbor, LearnFromReply, ForwardReply, TableOk, Joins, Evolves;
    var s1 := Met(s, sender, rcv, now);
    NeighborEvolves(s.cfg, s.table, sender, rcv, now);
    EvolvesOk(s.table, s1.table, {});
    var hop := Wrap8(h.hopCount + 1);
    var s2 := LearnFromReply(s1, h, hop, sender, rcv, now);
    LearnFromReplyQuiet(s1, h, hop, sender, rcv, now);
    QuietOk(s1, s2, {h.dst}, now);
    assert s1.IsMyOwnAddress(h.origin) <==> s.IsMyOwnAddress(h.origin);
    ForwardConnects(s2, h, hop, ttl, now, k);
  }

  /** The lists that these come on top of: those from before the reply, but a
      route that the reply replaces starts with none. */
  lemma LearnedPrecursors(s: Node, h: Rrep, sender: Addr, rcv: Iface, now: Time, k: Addr)
    requires s.cfg.badLinkLifetime >= 0
    ensures var p, p' := Met(s, sender, rcv, now).Purged(now), Learned(s, h, sender, rcv, now);
            ListedAt(p', k) == if k == h.dst && (k !in p || Fresher(h, Wrap8(h.hopCount + 1), p[k].info)) then []
                               else ListedAt(p, k)
  {
    hide RouteToNeighbor, Fresher;
    PurgeTwice(Met(s, sender, rcv, now).table, now, s.cfg.badLinkLifetime);
    var p := Met(s, sender, rcv, now).Purged(now);
    var t := ForwardRoute(p, h, Wrap8(h.hopCount + 1), sender, rcv, now);
    LiveForward(p, t, h, sender, rcv, now, s.cfg.badLinkLifetime);
  }

  lemma LiveForward(p: Table, t: Table, h: Rrep, sender: Addr, rcv: Iface, now: Time, bad: Time)
    requires Purge(p, now, bad) == p && t == ForwardRoute(p, h, Wrap8(h.hopCount + 1), sender, rcv, now)
    ensures Purge(t, now, bad) == t
  {
    hide Fresher;
  }
}
