/** The ring search within whole runs of a node: which events leave a search
    alone, and what the search amounts to in any run made of these. */
module SearchRuns {
  import opened Base
  import opened Messages
  import opened RouteTable
  import opened NodeState
  import opened Discovery
  import opened LinkBreak
  import opened Routes
  import opened NodeEvents
  import opened Frames
  import opened NodeFrames
  import opened NodeRuns
  import opened RingSearch
  import PacketQueue
  import IdCaches
  import Freshness

  // ---------------------------------------------------------------------
  // Tables

  /** `k` is under search as `i` says. */
  ghost predicate Hunted(t: Table, k: Addr, i: Info) { k in t && i.flag == IN_SEARCH && SameSearch(i, t[k].info) }

  lemma PurgeHunted(t: Table, k: Addr, i: Info, now: Time, bad: Time)
    requires Hunted(t, k, i)
    ensures Hunted(Purge(t, now, bad), k, i)
  {
  }

  lemma InvalidateHunted(t: Table, dsts: set<Addr>, k: Addr, i: Info, now: Time, bad: Time)
    requires Hunted(t, k, i)
    ensures Hunted(InvalidateAll(t, dsts, now, bad), k, i)
  {
  }

  lemma UpdateHunted(t: Table, e: Entry, k: Addr, i: Info)
    requires Hunted(t, k, i) && (e.route.dst == k ==> SameSearch(i, e.info))
    ensures Hunted(Update(t, e), k, i)
  {
  }

  /** Neither a stored entry's precursors nor a default entry's matter. */
  lemma PrecursorHunted(t: Table, a: Addr, id: Addr, k: Addr, i: Info, now: Time)
    requires Hunted(t, k, i) && TableOk(t) && k != NO_ADDR
    ensures var e := AddPrecursor(GetOr(t, a, DefaultEntry(now)), id);
            Hunted(Update(t, e), k, i) && TableOk(Update(t, e))
  {
    hide TableOk, Update, Hunted;
    PrecursorEvolves(t, a, id, now);
    if a in t { EntryAt(t, a); }
    SameHunt(t, k, i);
    UpdateHunted(t, AddPrecursor(GetOr(t, a, DefaultEntry(now)), id), k, i);
  }

  lemma SameHunt(t: Table, k: Addr, i: Info)
    requires Hunted(t, k, i)
    ensures k in t && SameSearch(i, t[k].info)
  {
  }

  lemma RefreshHunted(t: Table, addr: Addr, lifetime: Time, k: Addr, i: Info, now: Time, bad: Time)
    requires Hunted(t, k, i)
    ensures Hunted(Refresh(t, addr, lifetime, now, bad), k, i)
  {
    PurgeHunted(t, k, i, now, bad);
  }

  lemma NeighborHunted(cfg: Config, t: Table, sender: Addr, rcv: Iface, k: Addr, i: Info, now: Time)
    requires Hunted(t, k, i) && sender != k
    ensures Hunted(RouteToNeighbor(cfg, t, sender, rcv, now), k, i)
  {
    PurgeHunted(t, k, i, now, cfg.badLinkLifetime);
  }

  // ---------------------------------------------------------------------
  // Broken links

  lemma BreakLinkHunted(s: Node, nextHop: Addr, k: Addr, i: Info, now: Time)
    requires Hunted(s.table, k, i)
    ensures Hunted(BreakLink(s, nextHop, now).table, k, i)
  {
    hide SendRerrMessage, Hunted, Purge, InvalidateAll, LostDestinations, LostPrecursors;
    PurgeHunted(s.table, k, i, now, s.cfg.badLinkLifetime);
    if nextHop in s.Purged(now) {
      InvalidateHunted(s.Purged(now), LostDestinations(s.Purged(now), nextHop).Keys, k, i, now, s.cfg.badLinkLifetime);
    }
  }

  lemma {:induction false} BreakAllHunted(s: Node, lost: seq<Neighbor>, k: Addr, i: Info, now: Time)
    requires Hunted(s.table, k, i)
    ensures Hunted(BreakAll(s, lost, now).table, k, i)
    decreases |lost|
  {
    hide BreakLink, Hunted;
    if lost != [] {
      BreakLinkHunted(s, lost[0].addr, k, i, now);
      BreakAllHunted(BreakLink(s, lost[0].addr, now), lost[1..], k, i, now);
    }
  }

  lemma PurgeNeighborsHunted(s: Node, k: Addr, i: Info, now: Time)
    requires Hunted(s.table, k, i)
    ensures Hunted(PurgeNeighbors(s, now).table, k, i)
  {
    hide BreakAll, Hunted, Filter;
    BreakAllHunted(s, Filter(IsClosed(now), s.neighbors), k, i, now);
  }

  lemma UpdateNeighborHunted(s: Node, addr: Addr, expire: Time, k: Addr, i: Info, now: Time)
    requires Hunted(s.table, k, i)
    ensures Hunted(UpdateNeighbor(s, addr, expire, now).table, k, i)
  {
    hide PurgeNeighbors, Hunted, NeighborIndex;
    PurgeNeighborsHunted(s.(neighbors := s.neighbors + [Neighbor(addr, expire + now, false)]), k, i, now);
  }

  // ---------------------------------------------------------------------
  // Requests and replies about other nodes

  lemma LearnHunted(s: Node, h: Rreq, hop: U8, src: Addr, rcv: Iface, k: Addr, i: Info, now: Time)
    requires Hunted(s.table, k, i) && h.origin != k && src != k
    ensures Hunted(LearnFromRequest(s, h, hop, src, rcv, now).table, k, i)
  {
    hide Purge, UpdateNeighbor;
    var reverse := ReverseRoute(s.cfg, s.Purged(now), h, hop, src, rcv, now);
    PurgeHunted(s.table, k, i, now, s.cfg.badLinkLifetime);
    PurgeHunted(reverse, k, i, now, s.cfg.badLinkLifetime);
    var relay := RelayRoute(s.cfg, Purge(reverse, now, s.cfg.badLinkLifetime), h, src, rcv, now);
    UpdateNeighborHunted(s.(table := relay), src, s.cfg.HelloLifetime(), k, i, now);
  }

  lemma AnswerHunted(s: Node, h: Rreq, hop: U8, ttl: U8, src: Addr, stale: Entry, k: Addr, i: Info, now: Time)
    requires Hunted(s.table, k, i) && TableOk(s.table) && h.origin != k && k != NO_ADDR
    requires stale.route.dst in {h.origin, NO_ADDR}
    ensures Hunted(AnswerRequest(s, h, hop, ttl, src, stale, now).table, k, i)
  {
    hide Purge, TableOk, Relayed, KnowsDestination, Update;
    var s1 := s.(table := s.Purged(now));
    PurgeHunted(s.table, k, i, now, s.cfg.badLinkLifetime);
    PurgedQuiet(s, now);
    QuietOk(s, s1, {}, now);
    if IsValid(s1.table, h.dst) {
      EntryAt(s1.table, h.dst);
      if h.origin in s1.table { EntryAt(s1.table, h.origin); }
      var d := AddPrecursor(s1.table[h.dst], GetOr(s1.table, h.origin, stale).route.nextHop);
      UpdateHunted(s1.table, d, k, i);
      UpdateHunted(Update(s1.table, d), AddPrecursor(GetOr(s1.table, h.origin, stale), s1.table[h.dst].route.nextHop),
                   k, i);
    }
  }

  lemma StaleAbout(s: Node, h: Rreq, hop: U8, src: Addr, rcv: Iface, now: Time)
    requires TableOk(s.table)
    ensures StaleEntry(s, h, hop, src, rcv, now).route.dst in {h.origin, NO_ADDR}
  {
    StaleEntryOk(s, h, hop, src, rcv, now);
  }

  lemma RequestHunted(s: Node, h: Rreq, ttl: U8, src: Addr, rcv: Iface, k: Addr, i: Info, now: Time)
    requires Hunted(s.table, k, i) && TableOk(s.table) && h.origin != k && src != k && k != NO_ADDR
    ensures Hunted(RecvRequest(s, h, ttl, src, rcv, now).table, k, i)
  {
    hide ProcessRequest, Purge, Hunted, TableOk, IdCaches.Record, IdCaches.Duplicate;
    var p := s.Purged(now);
    PurgeHunted(s.table, k, i, now, s.cfg.badLinkLifetime);
    PurgedQuiet(s, now);
    QuietOk(s, s.(table := p), {}, now);
    var ids := IdCaches.Record(s.ids, IdCaches.Key(h.origin, h.id), s.cfg.idLifetime, now);
    ProcessHunted(s.(table := p, ids := ids), h, ttl, src, rcv, k, i, now);
  }

  lemma ProcessHunted(s: Node, h: Rreq, ttl: U8, src: Addr, rcv: Iface, k: Addr, i: Info, now: Time)
    requires Hunted(s.table, k, i) && TableOk(s.table) && h.origin != k && src != k && k != NO_ADDR
    ensures Hunted(ProcessRequest(s, h, ttl, src, rcv, now).table, k, i)
  {
    hide LearnFromRequest, AnswerRequest, Hunted, TableOk, StaleEntry;
    var hop := Wrap8(h.hopCount + 1);
    var s2 := LearnFromRequest(s, h, hop, src, rcv, now);
    LearnHunted(s, h, hop, src, rcv, k, i, now);
    LearnQuiet(s, h, hop, src, rcv, now);
    QuietOk(s, s2, {h.origin}, now);
    StaleAbout(s, h, hop, src, rcv, now);
    AnswerHunted(s2, h, hop, ttl, src, StaleEntry(s, h, hop, src, rcv, now), k, i, now);
  }

  lemma ForwardHunted(s: Node, h: Rrep, hop: U8, sender: Addr, rcv: Iface, k: Addr, i: Info, now: Time)
    requires Hunted(s.table, k, i) && h.dst != k
    ensures Hunted(LearnFromReply(s, h, hop, sender, rcv, now).table, k, i)
  {
    hide Purge, Fresher;
    PurgeHunted(s.table, k, i, now, s.cfg.badLinkLifetime);
    var t := ForwardRoute(s.Purged(now), h, hop, sender, rcv, now);
    PurgeHunted(t, k, i, now, s.cfg.badLinkLifetime);
  }

  lemma AcceptHunted(s: Node, h: Rrep, hop: U8, sender: Addr, rcv: Iface, before: Entry, k: Addr, i: Info, now: Time)
    requires Hunted(s.table, k, i) && h.dst != k
    ensures var s' := AcceptReply(s, h, hop, sender, rcv, before, now);
            Hunted(s'.table, k, i) && SameTimer(s, s', k)
  {
    hide Purge, SendPacketFromQueue, Hunted, Update;
    var e := ForwardEntry(h, hop, sender, rcv, now);
    UpdateHunted(s.table, e, k, i);
    PurgeHunted(s.table, k, i, now, s.cfg.badLinkLifetime);
    PurgeHunted(Update(s.table, e), k, i, now, s.cfg.badLinkLifetime);
    var s1 := EndSearch(s, h, hop, sender, rcv, before.info.flag == IN_SEARCH, now);
    Freshness.FlushTable(s1, h.dst, now);
    FlushSearch(s1, h.dst, GetOr(s1.table, h.dst, before).route, now);
  }

  lemma FlushSearch(s: Node, dst: Addr, route: Route, now: Time)
    ensures SendPacketFromQueue(s, dst, route, now).search == s.search
  {
    hide Filter, WithoutFirst, ForwardedAll, Matching;
  }

  /** The timer of `k` is as it was. */
  predicate SameTimer(s: Node, s': Node, k: Addr) {
    && (k in s'.search.timers <==> k in s.search.timers)
    && (k in s.search.timers && k in s'.search.timers ==> s'.search.timers[k] == s.search.timers[k])
  }

  lemma ConnectHunted(t: Table, dst: Addr, toOrigin: Entry, k: Addr, i: Info, now: Time)
    requires Hunted(t, k, i) && TableOk(t) && dst in t && k != NO_ADDR
    requires toOrigin.route.dst != k && Distinct(toOrigin.info.precursors)
    ensures Hunted(ConnectPrecursors(t, dst, toOrigin, now), k, i)
  {
    hide Update, TableOk, Hunted;
    var toDst := AddPrecursor(t[dst], toOrigin.route.nextHop);
    PrecursorHunted(t, dst, toOrigin.route.nextHop, k, i, now);
    var t1 := Update(t, toDst);
    PrecursorHunted(t1, toDst.route.nextHop, toOrigin.route.nextHop, k, i, now);
    var t2 := Update(t1, AddPrecursor(GetOr(t1, toDst.route.nextHop, DefaultEntry(now)), toOrigin.route.nextHop));
    var o := AddPrecursor(toOrigin, toDst.route.nextHop);
    UpdateHunted(t2, o, k, i);
    Freshness.UpdateOk(t2, o);
    PrecursorHunted(Update(t2, o), o.route.nextHop, toDst.route.nextHop, k, i, now);
  }

  lemma PassedHunted(s: Node, h: Rrep, hop: U8, ttl: U8, k: Addr, i: Info, now: Time)
    requires Hunted(s.table, k, i) && TableOk(s.table) && k != NO_ADDR
    ensures Hunted(ForwardReply(s, h, hop, ttl, now).table, k, i)
  {
    hide Purge, Update, ConnectPrecursors, TableOk;
    var p, bad := s.Purged(now), s.cfg.badLinkLifetime;
    PurgeHunted(s.table, k, i, now, bad);
    PurgedQuiet(s, now);
    QuietOk(s, s.(table := p), {}, now);
    if h.origin in p && p[h.origin].info.flag != IN_SEARCH {
      EntryAt(p, h.origin);
      var toOrigin := Extended(s.cfg, p[h.origin], now);
      UpdateHunted(p, toOrigin, k, i);
      PurgeHunted(Update(p, toOrigin), k, i, now, bad);
      var t := Purge(Update(p, toOrigin), now, bad);
      ExtendEvolves(s.cfg, p, h.origin, now);
      EvolvesOk(p, t, {});
      if IsValid(t, h.dst) {
        ConnectHunted(t, h.dst, toOrigin, k, i, now);
      }
    }
  }

  lemma HelloHunted(s: Node, h: Rrep, rcv: Iface, k: Addr, i: Info, now: Time)
    requires Hunted(s.table, k, i) && h.dst != k
    ensures Hunted(ProcessHello(s, h, rcv, now).table, k, i)
  {
    hide Purge, UpdateNeighbor;
    PurgeHunted(s.table, k, i, now, s.cfg.badLinkLifetime);
    UpdateNeighborHunted(s.(table := HelloTable(s, h, rcv, now)), h.dst, s.cfg.HelloLifetime(), k, i, now);
  }

  lemma ReplyHunted(s: Node, h: Rrep, ttl: U8, sender: Addr, rcv: Iface, k: Addr, i: Info, now: Time)
    requires Hunted(s.table, k, i) && TableOk(s.table) && h.dst != k && k != NO_ADDR
    ensures Hunted(RecvReply(s, h, ttl, sender, rcv, now).table, k, i)
  {
    hide LearnFromReply, AcceptReply, ForwardReply, ProcessHello, Hunted, TableOk, SameTimer;
    if h.dst == h.origin {
      HelloHunted(s, h, rcv, k, i, now);
    } else {
      var hop := Wrap8(h.hopCount + 1);
      var s2 := LearnFromReply(s, h, hop, sender, rcv, now);
      ForwardHunted(s, h, hop, sender, rcv, k, i, now);
      LearnFromReplyQuiet(s, h, hop, sender, rcv, now);
      QuietOk(s, s2, {h.dst}, now);
      if s.IsMyOwnAddress(h.origin) {
        AcceptHunted(s2, h, hop, sender, rcv, GetOr(s.Purged(now), h.dst, DefaultEntry(now)), k, i, now);
      } else {
        PassedHunted(s2, h, hop, ttl, k, i, now);
      }
    }
  }

  lemma RecvErrorHunted(s: Node, rerr: Rerr, src: Addr, k: Addr, i: Info, now: Time)
    requires Hunted(s.table, k, i)
    ensures Hunted(RecvError(s, rerr, src, now).table, k, i)
  {
    hide SendRerrMessage, Hunted, Purge, InvalidateAll, Affected;
    PurgeHunted(s.table, k, i, now, s.cfg.badLinkLifetime);
    InvalidateHunted(s.Purged(now), Affected(s.Purged(now), rerr.unreachable, src).Keys, k, i, now,
                     s.cfg.badLinkLifetime);
  }

  lemma AckHunted(s: Node, neighbor: Addr, k: Addr, i: Info, now: Time)
    requires Hunted(s.table, k, i) && neighbor != k
    ensures Hunted(RecvReplyAck(s, neighbor, now).table, k, i)
  {
    hide Purge;
    PurgeHunted(s.table, k, i, now, s.cfg.badLinkLifetime);
  }

  /** A message neither from `k` nor about it. */
  predicate Foreign(msg: Option<Message>, sender: Addr, k: Addr) {
    && sender != k
    && match msg
       case Some(RREQ(h)) => h.origin != k
       case Some(RREP(h)) => h.dst != k
       case _ => true
  }

  lemma ReceiveHunted(s: Node, msg: Option<Message>, ttl: U8, sender: Addr, rcv: Iface, k: Addr, i: Info, now: Time)
    requires Hunted(s.table, k, i) && TableOk(s.table) && Foreign(msg, sender, k) && k != NO_ADDR
    ensures Hunted(Receive(s, msg, ttl, sender, rcv, now).table, k, i)
  {
    hide RouteToNeighbor, RecvRequest, RecvReply, RecvError, RecvReplyAck, TableOk, Hunted, Evolves;
    var s1 := s.(table := RouteToNeighbor(s.cfg, s.table, sender, rcv, now));
    NeighborHunted(s.cfg, s.table, sender, rcv, k, i, now);
    NeighborEvolves(s.cfg, s.table, sender, rcv, now);
    EvolvesOk(s.table, s1.table, {});
    match msg
    case None =>
    case Some(RREQ(h)) => RequestHunted(s1, h, ttl, sender, rcv, k, i, now);
    case Some(RREP(h)) => ReplyHunted(s1, h, ttl, sender, rcv, k, i, now);
    case Some(RERR(h)) => RecvErrorHunted(s1, h, sender, k, i, now);
    case Some(RREP_ACK) => AckHunted(s1, sender, k, i, now);
  }

  // ---------------------------------------------------------------------
  // Data packets

  lemma RouteOutputHunted(s: Node, dst: Addr, oif: int, k: Addr, i: Info, now: Time)
    requires Hunted(s.table, k, i)
    ensures Hunted(RouteOutput(s, dst, oif, now).table, k, i)
  {
    hide Refresh, Purge, Hunted;
    var p := s.Purged(now);
    var life, bad := s.cfg.activeRouteTimeout, s.cfg.badLinkLifetime;
    PurgeHunted(s.table, k, i, now, bad);
    if IsValid(p, dst) {
      RefreshHunted(p, dst, life, k, i, now, bad);
      RefreshHunted(Refresh(p, dst, life, now, bad), p[dst].route.nextHop, life, k, i, now, bad);
    }
  }

  lemma UseRouteHunted(s: Node, origin: Addr, dst: Addr, k: Addr, i: Info, now: Time)
    requires Hunted(s.table, k, i)
    ensures Hunted(UseRoute(s, origin, dst, now).table, k, i)
  {
    hide Refresh, Purge, UpdateNeighbor, Hunted;
    var p := s.Purged(now);
    var life, bad := s.cfg.activeRouteTimeout, s.cfg.badLinkLifetime;
    PurgeHunted(s.table, k, i, now, bad);
    PurgeHunted(p, k, i, now, bad);
    if IsValid(p, dst) {
      var gateway := p[dst].route.nextHop;
      var t0 := Refresh(p, origin, life, now, bad);
      RefreshHunted(p, origin, life, k, i, now, bad);
      RefreshHunted(t0, dst, life, k, i, now, bad);
      var t1 := Refresh(Refresh(t0, dst, life, now, bad), gateway, life, now, bad);
      RefreshHunted(Refresh(t0, dst, life, now, bad), gateway, life, k, i, now, bad);
      var back := GetOr(t1, origin, DefaultEntry(now)).route.nextHop;
      RefreshHunted(t1, back, life, k, i, now, bad);
      var s1 := s.(table := Refresh(t1, back, life, now, bad));
      UpdateNeighborHunted(s1, gateway, life, k, i, now);
      UpdateNeighborHunted(UpdateNeighbor(s1, gateway, life, now), back, life, k, i, now);
    }
  }

  lemma DeliverHunted(s: Node, origin: Addr, k: Addr, i: Info, now: Time)
    requires Hunted(s.table, k, i)
    ensures Hunted(DeliverLocally(s, origin, now).table, k, i)
  {
    hide Refresh, UpdateNeighbor, Hunted;
    var life, bad := s.cfg.activeRouteTimeout, s.cfg.badLinkLifetime;
    var t := Refresh(s.table, origin, life, now, bad);
    RefreshHunted(s.table, origin, life, k, i, now, bad);
    if IsValid(t, origin) {
      var back := t[origin].route.nextHop;
      RefreshHunted(t, back, life, k, i, now, bad);
      UpdateNeighborHunted(s.(table := Refresh(t, back, life, now, bad)), back, life, k, i, now);
    }
  }

  // ---------------------------------------------------------------------
  // Other searches

  lemma SendRequestHunted(s: Node, dst: Addr, k: Addr, i: Info, now: Time)
    requires Hunted(s.table, k, i) && dst != k
    ensures var s' := SendRequest(s, dst, now); Hunted(s'.table, k, i) && SameTimer(s, s', k)
  {
    hide SearchEntry, Requests, RecordOwn, Purge, RetryDelay;
    PurgeHunted(s.table, k, i, now, s.cfg.badLinkLifetime);
  }

  lemma RetryHunted(s: Node, dst: Addr, k: Addr, i: Info, now: Time)
    requires Hunted(s.table, k, i) && dst != k
    ensures var s' := RouteRequestTimerExpire(s, dst, now); Hunted(s'.table, k, i) && SameTimer(s, s', k)
  {
    hide SendRequest, Purge, SendPacketFromQueue, Hunted;
    PurgeHunted(s.table, k, i, now, s.cfg.badLinkLifetime);
    var s1 := s.(table := s.Purged(now));
    SendRequestHunted(s1, dst, k, i, now);
    Freshness.FlushTable(s1, dst, now);
    if dst in s1.table { FlushSearch(s1, dst, s1.table[dst].route, now); }
    GiveUpHunted(s, dst, k, i, now);
  }

  lemma GiveUpHunted(s: Node, dst: Addr, k: Addr, i: Info, now: Time)
    requires Hunted(s.table, k, i) && dst != k
    ensures var s' := GiveUp(s, dst, now); Hunted(s'.table, k, i) && SameTimer(s, s', k)
  {
    hide Purge, Filter;
    PurgeHunted(s.table, k, i, now, s.cfg.badLinkLifetime);
  }

  /** Packets for `k` only wait while its search runs. */
  lemma OutputHunted(s: Node, packet: PacketQueue.QueueEntry, k: Addr, i: Info, now: Time)
    requires Hunted(s.table, k, i)
    ensures var s' := DeferredRouteOutput(s, packet, now); Hunted(s'.table, k, i) && SameTimer(s, s', k)
  {
    hide SendRequest, Purge, PacketQueue.Enqueue, PacketQueue.Accepts;
    PurgeHunted(s.table, k, i, now, s.cfg.badLinkLifetime);
    var queued := s.WithQueue(PacketQueue.Enqueue(s.queue, packet, s.cfg.maxQueueLen, s.cfg.queueTimeout, now));
    if packet.header.dst != k {
      SendRequestHunted(queued.(table := s.Purged(now)), packet.header.dst, k, i, now);
    }
  }

  // ---------------------------------------------------------------------
  // Any event

  /** An event that leaves the search for `k` alone: no message from `k` or about
      it, no postponed call for it that goes out, not its own timer, and no
      packet that starts a search. */
  predicate Bystander(s: Node, e: Event, k: Addr) {
    match e
    case Receipt(msg, _, sender, _) => Foreign(msg, sender, k)
    case RetryTimer(dst) => dst != k
    case Postponed(dst, _) => dst != k || RateLimited(s)
    case Output(packet) => packet.header.dst == k ==> k in s.table && s.table[k].info.flag == IN_SEARCH
    case _ => true
  }

  lemma EventHunted(s: Node, e: Event, k: Addr, i: Info, now: Time)
    requires Hunted(s.table, k, i) && TableOk(s.table) && k != NO_ADDR && Bystander(s, e, k)
    ensures Hunted(Apply(s, e, now).table, k, i)
  {
    hide Hunted, TableOk, Receive, RouteRequestTimerExpire, PurgeNeighbors, RouteOutput, UseRoute, DeliverLocally,
         DeferredRouteOutput, Originate, CloseNeighbors, Hellos, SameTimer;
    match e
    case Receipt(msg, ttl, sender, rcv) => ReceiveHunted(s, msg, ttl, sender, rcv, k, i, now);
    case Output(packet) => OutputHunted(s, packet, k, i, now);
    case RetryTimer(dst) =>
      RetryHunted(s.(search := s.search.(timers := s.search.timers[dst := None])), dst, k, i, now);
    case Postponed(dst, at) =>
      if dst != k {
        var s1 := s.(search := s.search.(postponed := s.search.postponed - multiset{(dst, at)}));
        SendRequestHunted(s1, dst, k, i, now);
      }
    case RreqReset =>
    case RerrReset =>
    case HelloTimer =>
    case NeighborTimer => PurgeNeighborsHunted(s.(neighborTimer := None), k, i, now);
    case TxError(hit) => PurgeNeighborsHunted(s.(neighbors := CloseNeighbors(s.neighbors, hit)), k, i, now);
    case RouteRequest(dst, oif) => RouteOutputHunted(s, dst, oif, k, i, now);
    case Forward(uid, header) => UseRouteHunted(s, header.src, header.dst, k, i, now);
    case Delivered(origin) => DeliverHunted(s, origin, k, i, now);
  }

  lemma SendRequestTimer(s: Node, dst: Addr, k: Addr, now: Time)
    requires dst != k
    ensures SameTimer(s, SendRequest(s, dst, now), k)
  {
    hide SearchEntry, Requests, RecordOwn, Purge, RetryDelay;
  }

  lemma RetryTimerKeeps(s: Node, dst: Addr, k: Addr, now: Time)
    requires dst != k
    ensures SameTimer(s, RouteRequestTimerExpire(s, dst, now), k)
  {
    hide SendRequest, Purge, SendPacketFromQueue;
    var s1 := s.(table := s.Purged(now));
    SendRequestTimer(s1, dst, k, now);
    if dst in s1.table { FlushSearch(s1, dst, s1.table[dst].route, now); }
  }

  lemma OutputTimer(s: Node, packet: PacketQueue.QueueEntry, k: Addr, now: Time)
    requires packet.header.dst == k ==> UnderSearch(s.table, k)
    ensures SameTimer(s, DeferredRouteOutput(s, packet, now), k)
  {
    hide SendRequest, PacketQueue.Enqueue, PacketQueue.Accepts;
    var queued := s.WithQueue(PacketQueue.Enqueue(s.queue, packet, s.cfg.maxQueueLen, s.cfg.queueTimeout, now));
    if packet.header.dst != k {
      SendRequestTimer(queued.(table := s.Purged(now)), packet.header.dst, k, now);
    }
  }

  lemma ReceiveTimer(s: Node, msg: Option<Message>, ttl: U8, sender: Addr, rcv: Iface, k: Addr, now: Time)
    requires TableOk(s.table) && Foreign(msg, sender, k)
    ensures SameTimer(s, Receive(s, msg, ttl, sender, rcv, now), k)
  {
    hide RouteToNeighbor, RecvRequest, RecvReply, RecvError, RecvReplyAck, TableOk, Evolves;
    var s1 := s.(table := RouteToNeighbor(s.cfg, s.table, sender, rcv, now));
    NeighborEvolves(s.cfg, s.table, sender, rcv, now);
    EvolvesOk(s.table, s1.table, {});
    match msg
    case None =>
    case Some(RREQ(h)) => RecvRequestQuiet(s1, h, ttl, sender, rcv, now);
    case Some(RREP(h)) => ReplyTimer(s1, h, ttl, sender, rcv, k, now);
    case Some(RERR(h)) => RecvErrorQuiet(s1, h, sender, now);
    case Some(RREP_ACK) => RecvReplyAckQuiet(s1, sender, now);
  }

  lemma ReplyTimer(s: Node, h: Rrep, ttl: U8, sender: Addr, rcv: Iface, k: Addr, now: Time)
    requires TableOk(s.table) && h.dst != k
    ensures SameTimer(s, RecvReply(s, h, ttl, sender, rcv, now), k)
  {
    hide LearnFromReply, ForwardReply, ProcessHello, SendPacketFromQueue, TableOk, Evolves, Purge, Update;
    if h.dst == h.origin {
      ProcessHelloQuiet(s, h, rcv, now);
    } else if !s.IsMyOwnAddress(h.origin) {
      PassedReplyQuiet(s, h, ttl, sender, rcv, now);
    } else {
      var hop := Wrap8(h.hopCount + 1);
      var before := GetOr(s.Purged(now), h.dst, DefaultEntry(now));
      var s2 := LearnFromReply(s, h, hop, sender, rcv, now);
      LearnFromReplyQuiet(s, h, hop, sender, rcv, now);
      var s3 := EndSearch(s2, h, hop, sender, rcv, before.info.flag == IN_SEARCH, now);
      FlushSearch(s3, h.dst, GetOr(s3.table, h.dst, before).route, now);
    }
  }

  lemma EventTimer(s: Node, e: Event, k: Addr, now: Time)
    requires TableOk(s.table) && Bystander(s, e, k)
    ensures SameTimer(s, Apply(s, e, now), k)
  {
    hide TableOk, Receive, RouteRequestTimerExpire, PurgeNeighbors, RouteOutput, Forwarding, DeliverLocally,
         DeferredRouteOutput, SendRequest, CloseNeighbors, Hellos, Evolves;
    match e
    case Receipt(msg, ttl, sender, rcv) => ReceiveTimer(s, msg, ttl, sender, rcv, k, now);
    case Output(packet) => OutputTimer(s, packet, k, now);
    case RetryTimer(dst) =>
      RetryTimerKeeps(s.(search := s.search.(timers := s.search.timers[dst := None])), dst, k, now);
    case Postponed(dst, at) => PostponedTimer(s, dst, at, k, now);
    case RreqReset =>
    case RerrReset =>
    case HelloTimer =>
    case NeighborTimer => PurgeNeighborsQuiet(s.(neighborTimer := None), now);
    case TxError(hit) => PurgeNeighborsQuiet(s.(neighbors := CloseNeighbors(s.neighbors, hit)), now);
    case RouteRequest(dst, oif) => RouteOutputQuiet(s, dst, oif, now);
    case Forward(uid, header) => ForwardingQuiet(s, uid, header, now);
    case Delivered(origin) => DeliverLocallyQuiet(s, origin, now);
  }

  lemma PostponedTimer(s: Node, dst: Addr, at: Time, k: Addr, now: Time)
    requires dst != k || RateLimited(s)
    ensures SameTimer(s, PostponedRequest(s, dst, at, now), k)
  {
    hide Originate;
    if dst != k {
      SendRequestTimer(s.(search := s.search.(postponed := s.search.postponed - multiset{(dst, at)})), dst, k, now);
    }
  }

  /** Such an event leaves the search undisturbed, unless another one aborts. */
  lemma BystanderLeaves(s0: Node, s: Node, e: Event, k: Addr, now: Time)
    requires Undisturbed(s0, s, k) && s0.table[k].info.flag == IN_SEARCH && TableOk(s.table) && k != NO_ADDR
    requires Bystander(s, e, k)
    ensures var s' := Apply(s, e, now); TableOk(s'.table) && (Undisturbed(s0, s', k) || s'.search.aborted)
  {
    hide TableOk, Apply, Bystander;
    StepTableOk(s, e, now);
    EventHunted(s, e, k, s0.table[k].info, now);
    EventTimer(s, e, k, now);
    SameNode(s, e, now);
  }

  lemma SameNode(s: Node, e: Event, now: Time)
    requires TableOk(s.table)
    ensures Apply(s, e, now).cfg == s.cfg && Apply(s, e, now).ifaces == s.ifaces
  {
    hide Receive, RouteRequestTimerExpire, PurgeNeighbors, RouteOutput, Forwarding, DeliverLocally,
         DeferredRouteOutput, PostponedRequest, CloseNeighbors, ProcessTxError, TableOk, Hellos;
    if e.Postponed? {
      PostponedSteps(s, e.dst, e.at, now);
    } else if !e.RreqReset? && !e.HelloTimer? {
      EventSteps(s, e, now);
    }
  }

  // ---------------------------------------------------------------------
  // Whole runs

  /** Every event leaves the search for `k` alone or is the expiry of its timer,
      which sends at once. */
  predicate Undisturbing(s: Node, run: seq<(Event, Time)>, k: Addr)
    decreases |run|
  {
    run != [] ==>
      && (Bystander(s, run[0].0, k) || (run[0].0 == RetryTimer(k) && !RateLimited(s)))
      && Undisturbing(Apply(s, run[0].0, run[0].1), run[1..], k)
  }

  /** The expiries of the timer of `k`: the node just before each, and when. */
  function Expiries(s: Node, run: seq<(Event, Time)>, k: Addr): seq<(Node, Time)>
    decreases |run|
  {
    if run == [] then []
    else
      (if run[0].0 == RetryTimer(k) then [(s, run[0].1)] else [])
        + Expiries(Apply(s, run[0].0, run[0].1), run[1..], k)
  }

  predicate Idle(s: Node, k: Addr) { s.search.aborted || k !in s.search.timers }

  /** Without a timer nothing expires. */
  lemma {:induction false} NoExpiries(s: Node, run: seq<(Event, Time)>, k: Addr, start: Time)
    requires Idle(s, k) && TableOk(s.table) && ValidRun(s, run, start) && Undisturbing(s, run, k)
    ensures Expiries(s, run, k) == []
    decreases |run|
  {
    hide TableOk, Apply, Bystander;
    if run != [] {
      StepTableOk(s, run[0].0, run[0].1);
      EventTimer(s, run[0].0, k, run[0].1);
      NoExpiries(Apply(s, run[0].0, run[0].1), run[1..], k, run[0].1);
    }
  }

  /** After an expiry the search goes on or there is no timer. */
  lemma ExpiryGoesOn(s: Node, k: Addr, now: Time)
    requires k in s.table && s.table[k].info.flag == IN_SEARCH && !RateLimited(s) && s.ifaces != []
    requires TableOk(s.table)
    ensures var s' := Apply(s, RetryTimer(k), now);
            Idle(s', k) || (Undisturbed(s', s', k) && s'.table[k].info.flag == IN_SEARCH)
  {
    hide Originate, Discovery.Searching, Filter, TableOk;
    SameNode(s, RetryTimer(k), now);
    var p := s.Purged(now);
    assert k in p && p[k] == s.table[k];
    if s.table[k].info.reqCnt != s.cfg.rreqRetries {
      ExpiryResends(s, k, now);
      StillSearching(s.cfg, s.table[k].info, now);
    }
  }

  lemma StillSearching(cfg: Config, e: Info, now: Time)
    ensures Discovery.Searching(cfg, e, now).flag == IN_SEARCH
  {
    hide NextTtl;
  }

  lemma OwnTimer(s: Node, k: Addr)
    ensures !Bystander(s, RetryTimer(k), k)
  {
  }

  /** The expiries of such a run are a trace of the search. */
  lemma {:induction false} ExpiriesTrace(s0: Node, s: Node, run: seq<(Event, Time)>, k: Addr, start: Time)
    requires ValidRun(s, run, start) && Undisturbing(s, run, k) && TableOk(s.table) && k != NO_ADDR
    requires Undisturbed(s0, s, k) && s0.table[k].info.flag == IN_SEARCH
    ensures SearchTrace(s0, k, Expiries(s, run, k))
    decreases |run|
  {
    hide TableOk, Apply, Bystander, RateLimited;
    if run != [] {
      var e, now := run[0].0, run[0].1;
      var s' := Apply(s, e, now);
      StepTableOk(s, e, now);
      if e == RetryTimer(k) {
        OwnTimer(s, k);
        ExpiryGoesOn(s, k, now);
        if Idle(s', k) {
          NoExpiries(s', run[1..], k, now);
        } else {
          ExpiriesTrace(s', s', run[1..], k, now);
        }
        assert Expiries(s, run, k)[1..] == Expiries(s', run[1..], k);
      } else {
        BystanderLeaves(s0, s, e, k, now);
        if s'.search.aborted {
          NoExpiries(s', run[1..], k, now);
        } else {
          ExpiriesTrace(s0, s', run[1..], k, now);
        }
        assert Expiries(s, run, k) == Expiries(s', run[1..], k);
      }
    }
  }

  /** A packet for a destination that is not in the table starts a search.
      Whatever else the node does in a run, as long as no event disturbs the
      search and it is not rate limited when its timer expires, the search makes
      exactly the regular number of requests, takes exactly the regular time,
      does not abort, and leaves nothing behind. */
  lemma SearchRunExactly(s: Node, packet: PacketQueue.QueueEntry, t0: Time, run: seq<(Event, Time)>)
    requires Sensible(s.cfg) && NoWrap(s.cfg) && TableOk(s.table) && s.ifaces != [] && !RateLimited(s)
    requires packet.header.dst !in s.table && packet.header.dst != NO_ADDR && PacketQueue.Accepts(s.queue, packet, t0)
    requires ValidRun(s, [(Output(packet), t0)] + run, t0)
    requires Undisturbing(Apply(s, Output(packet), t0), run, packet.header.dst)
    ensures var d, s1 := packet.header.dst, Apply(s, Output(packet), t0);
            var steps := Expiries(s1, run, d);
            && |steps| <= Attempts(s.cfg) && !SearchEnd(s1, d, steps).search.aborted
            && (|steps| == Attempts(s.cfg) ==>
                  && 1 + Resent(d, steps)
                     == (s.cfg.ttlThreshold - s.cfg.ttlStart) / s.cfg.ttlIncrement + 1 + s.cfg.rreqRetries
                  && LastAt(t0, steps) - t0
                     == RingWait(s.cfg, Rings(s.cfg)) + s.cfg.netTraversalTime * (Pow2(s.cfg.rreqRetries) - 1)
                  && Over(SearchEnd(s1, d, steps), d))
  {
    hide Apply, SendRequest, TableOk, RateLimited, Over, NoWrap, RingWait, Sensible, Undisturbing, Undisturbed, Waiting,
         PacketQueue.Accepts, PacketQueue.Enqueue, Rings, Attempts, Expiries, SearchTrace, SearchEnd, Resent, Purge;
    var all, d := [(Output(packet), t0)] + run, packet.header.dst;
    assert all[1..] == run;
    var queued := s.WithQueue(PacketQueue.Enqueue(s.queue, packet, s.cfg.maxQueueLen, s.cfg.queueTimeout, t0));
    var s0 := queued.(table := s.Purged(t0));
    var s1 := Apply(s, Output(packet), t0);
    OutputSearches(s, packet, t0);
    StepTableOk(s, Output(packet), t0);
    FirstRequest(s0, d, t0);
    SendRequestConfig(s0, d, t0);
    SameNode(s, Output(packet), t0);
    WaitingSearches(s1, d, t0);
    ExpiriesTrace(s1, s1, run, d, t0);
    SearchExactly(s0, d, t0, Expiries(s1, run, d));
  }

  lemma OutputSearches(s: Node, packet: PacketQueue.QueueEntry, now: Time)
    requires packet.header.dst !in s.table && PacketQueue.Accepts(s.queue, packet, now)
    ensures var queued := s.WithQueue(PacketQueue.Enqueue(s.queue, packet, s.cfg.maxQueueLen, s.cfg.queueTimeout, now));
            var s0 := queued.(table := s.Purged(now));
            && Apply(s, Output(packet), now) == SendRequest(s0, packet.header.dst, now)
            && packet.header.dst !in s0.table && (RateLimited(s0) <==> RateLimited(s)) && s0.cfg == s.cfg
            && s0.search == s.search
  {
    hide SendRequest, PacketQueue.Accepts, PacketQueue.Enqueue;
  }

  lemma WaitingSearches(s: Node, d: Addr, t: Time)
    requires Sensible(s.cfg) && Waiting(s, d, 0, t) && s.ifaces != []
    ensures Undisturbed(s, s, d) && s.table[d].info.flag == IN_SEARCH
  {
    hide TtlAt, CountAt, WaitAt;
  }
}
