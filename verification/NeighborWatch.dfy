/** The neighbour list over runs: who is heard in time stays a neighbour, and a
    silent one is gone soon after its time ran out. */
module NeighborWatch {
  import opened Base
  import opened Messages
  import opened RouteTable
  import opened NodeState
  import opened Discovery
  import opened LinkBreak
  import opened Routes
  import opened NodeEvents
  import PacketQueue
  import IdCaches

  /** `a` is an open neighbour whose time runs at least until `until`. */
  ghost predicate OpenUntil(s: Node, a: Addr, until: Time) {
    exists n :: n in s.neighbors && n.addr == a && !n.close && n.expire >= until
  }

  /** Somebody is looking: with neighbours the timer is set, and when it was set
      none of them was closed or out of time. */
  ghost predicate Watched(s: Node) {
    s.neighbors != [] ==>
      && s.neighborTimer.Some?
      && forall n :: n in s.neighbors ==> !n.close && n.expire >= s.neighborTimer.value - s.cfg.neighborDelay
  }

  /** Going from `s` to `s'`: still watched, and no neighbour outside `hit` lost
      whose time had not run out. */
  ghost predicate Guards(s: Node, s': Node, now: Time, hit: set<Addr>) {
    && s'.cfg == s.cfg && (Watched(s) ==> Watched(s'))
    && forall a, until :: OpenUntil(s, a, until) && until >= now && a !in hit ==> OpenUntil(s', a, until)
  }

  lemma GuardsTrans(a: Node, b: Node, c: Node, now: Time)
    requires Guards(a, b, now, {}) && Guards(b, c, now, {})
    ensures Guards(a, c, now, {})
  {
    hide OpenUntil, Watched;
  }

  /** Nothing about the neighbours changes. */
  predicate Unwatched(s: Node, s': Node) {
    s'.cfg == s.cfg && s'.neighbors == s.neighbors && s'.neighborTimer == s.neighborTimer
  }

  lemma UnwatchedGuards(s: Node, s': Node, now: Time)
    requires Unwatched(s, s')
    ensures Guards(s, s', now, {})
  {
  }

  // ---------------------------------------------------------------------
  // The list itself

  lemma BreakLinkUnwatched(s: Node, nextHop: Addr, now: Time)
    ensures Unwatched(s, BreakLink(s, nextHop, now))
  {
    hide Purge, LostDestinations, LostPrecursors, InvalidateAll, PrecursorIfaces;
  }

  lemma {:induction false} BreakAllUnwatched(s: Node, lost: seq<Neighbor>, now: Time)
    ensures Unwatched(s, BreakAll(s, lost, now))
    decreases |lost|
  {
    hide BreakLink;
    if lost != [] {
      BreakLinkUnwatched(s, lost[0].addr, now);
      BreakAllUnwatched(BreakLink(s, lost[0].addr, now), lost[1..], now);
    }
  }

  /** A look at the list makes it watched, whatever it was before. */
  lemma PurgeWatches(s: Node, now: Time)
    ensures var s' := PurgeNeighbors(s, now);
            && s'.cfg == s.cfg && Watched(s')
            && forall a, until :: OpenUntil(s, a, until) && until >= now ==> OpenUntil(s', a, until)
  {
    hide BreakAll, Filter;
    BreakAllUnwatched(s, Filter(IsClosed(now), s.neighbors), now);
    FilterMembers(IsOpen(now), s.neighbors);
    var s' := PurgeNeighbors(s, now);
    forall a, until | OpenUntil(s, a, until) && until >= now ensures OpenUntil(s', a, until) {
      var n :| n in s.neighbors && n.addr == a && !n.close && n.expire >= until;
      assert n in s'.neighbors;
    }
  }

  lemma UpdateGuards(s: Node, addr: Addr, expire: Time, now: Time)
    ensures var s' := UpdateNeighbor(s, addr, expire, now);
            Guards(s, s', now, {}) && (Watched(s) && expire >= 0 ==> OpenUntil(s', addr, now + expire))
  {
    hide PurgeNeighbors;
    var i := NeighborIndex(s.neighbors, addr);
    var s' := UpdateNeighbor(s, addr, expire, now);
    if i < |s.neighbors| {
      ExtendGuards(s, i, expire, now);
    } else {
      var n := Neighbor(addr, expire + now, false);
      var s1 := s.(neighbors := s.neighbors + [n]);
      PurgeWatches(s1, now);
      assert n in s1.neighbors;
      forall a, until | OpenUntil(s, a, until) ensures OpenUntil(s1, a, until) {
        var m :| m in s.neighbors && m.addr == a && !m.close && m.expire >= until;
        assert m in s1.neighbors;
      }
    }
  }

  lemma ExtendGuards(s: Node, i: nat, expire: Time, now: Time)
    requires i < |s.neighbors|
    ensures var s' := s.(neighbors := s.neighbors[i := s.neighbors[i].(expire := Max(expire + now,
            s.neighbors[i].expire))]);
            && Guards(s, s', now, {}) && (Watched(s) ==> OpenUntil(s', s.neighbors[i].addr, now + expire))
  {
    var s' := s.(neighbors := s.neighbors[i := s.neighbors[i].(expire := Max(expire + now, s.neighbors[i].expire))]);
    assert s'.neighbors[i] in s'.neighbors;
    forall a, until | OpenUntil(s, a, until) ensures OpenUntil(s', a, until) {
      var n :| n in s.neighbors && n.addr == a && !n.close && n.expire >= until;
      var j :| 0 <= j < |s.neighbors| && s.neighbors[j] == n;
      assert s'.neighbors[j] in s'.neighbors;
    }
  }

  lemma TxErrorGuards(s: Node, hit: set<Addr>, now: Time)
    ensures Guards(s, ProcessTxError(s, hit, now), now, hit)
  {
    hide PurgeNeighbors;
    var s1 := s.(neighbors := CloseNeighbors(s.neighbors, hit));
    PurgeWatches(s1, now);
    forall a, until | OpenUntil(s, a, until) && a !in hit ensures OpenUntil(s1, a, until) {
      var n :| n in s.neighbors && n.addr == a && !n.close && n.expire >= until;
      var j :| 0 <= j < |s.neighbors| && s.neighbors[j] == n;
      assert s1.neighbors[j] == n && n in s1.neighbors;
    }
  }

  // ---------------------------------------------------------------------
  // The events

  lemma RecvErrorUnwatched(s: Node, rerr: Rerr, src: Addr, now: Time)
    ensures Unwatched(s, RecvError(s, rerr, src, now))
  {
    hide Purge, Affected, CollectPrecursors, InvalidateAll, PrecursorIfaces, SortedKeys;
  }

  lemma LearnGuards(s: Node, h: Rreq, hop: U8, src: Addr, rcv: Iface, now: Time)
    ensures var s' := LearnFromRequest(s, h, hop, src, rcv, now);
            Guards(s, s', now, {}) && (Watched(s) && s.cfg.HelloLifetime() >= 0 ==>
                                         OpenUntil(s', src, now + s.cfg.HelloLifetime()))
  {
    hide Purge, ReverseRoute, RelayRoute, UpdateNeighbor, Watched, OpenUntil;
    var s1 := s.(table := RelayRoute(s.cfg, Purge(ReverseRoute(s.cfg, s.Purged(now), h, hop, src, rcv, now), now,
                                                  s.cfg.badLinkLifetime), h, src, rcv, now));
    TableUnwatched(s, s1, now);
    UpdateGuards(s1, src, s.cfg.HelloLifetime(), now);
    GuardsTrans(s, s1, UpdateNeighbor(s1, src, s.cfg.HelloLifetime(), now), now);
  }

  lemma TableUnwatched(s: Node, s1: Node, now: Time)
    requires s1 == s.(table := s1.table)
    ensures Guards(s, s1, now, {}) && (Watched(s) <==> Watched(s1))
  {
    UnwatchedGuards(s, s1, now);
  }

  lemma AnswerUnwatched(s: Node, h: Rreq, hop: U8, ttl: U8, src: Addr, stale: Entry, now: Time)
    ensures Unwatched(s, AnswerRequest(s, h, hop, ttl, src, stale, now))
  {
    hide Purge, Update, KnowsDestination, Relayed, OnEveryInterface, ToMilliseconds;
  }

  lemma RequestGuards(s: Node, h: Rreq, ttl: U8, src: Addr, rcv: Iface, now: Time)
    ensures Guards(s, RecvRequest(s, h, ttl, src, rcv, now), now, {})
  {
    hide Purge, LearnFromRequest, AnswerRequest, StaleEntry, Watched, OpenUntil, IdCaches.Record, IdCaches.Duplicate;
    var p := s.Purged(now);
    var s1 := s.(table := p, ids := IdCaches.Record(s.ids, IdCaches.Key(h.origin, h.id), s.cfg.idLifetime, now));
    UnwatchedGuards(s, s1, now);
    UnwatchedGuards(s, s.(table := p), now);
    var hop := Wrap8(h.hopCount + 1);
    var s2 := LearnFromRequest(s1, h, hop, src, rcv, now);
    LearnGuards(s1, h, hop, src, rcv, now);
    GuardsTrans(s, s1, s2, now);
    var stale := StaleEntry(s1, h, hop, src, rcv, now);
    AnswerUnwatched(s2, h, hop, ttl, src, stale, now);
    var s3 := AnswerRequest(s2, h, hop, ttl, src, stale, now);
    UnwatchedGuards(s2, s3, now);
    GuardsTrans(s, s2, s3, now);
  }

  lemma ReplyGuards(s: Node, h: Rrep, ttl: U8, sender: Addr, rcv: Iface, now: Time)
    ensures Guards(s, RecvReply(s, h, ttl, sender, rcv, now), now, {})
  {
    hide HelloTable, UpdateNeighbor, Purge, ForwardRoute, ForwardEntry, ConnectPrecursors, Extended, Filter, Matching,
         WithoutFirst, ForwardedAll, PacketQueue.Purge, Update, Watched, OpenUntil;
    var s' := RecvReply(s, h, ttl, sender, rcv, now);
    if h.dst == h.origin {
      var s1 := s.(table := HelloTable(s, h, rcv, now));
      TableUnwatched(s, s1, now);
      UpdateGuards(s1, h.dst, s.cfg.HelloLifetime(), now);
      GuardsTrans(s, s1, UpdateNeighbor(s1, h.dst, s.cfg.HelloLifetime(), now), now);
    } else {
      UnwatchedGuards(s, s', now);
    }
  }

  lemma UseRouteGuards(s: Node, origin: Addr, dst: Addr, now: Time)
    ensures Guards(s, UseRoute(s, origin, dst, now), now, {})
  {
    hide Purge, Refresh, UpdateNeighbor, Watched, OpenUntil, OnEveryInterface, DefaultEntry;
    var p := s.Purged(now);
    if IsValid(p, dst) {
      var life, bad := s.cfg.activeRouteTimeout, s.cfg.badLinkLifetime;
      var gateway := p[dst].route.nextHop;
      var t1 := Refresh(Refresh(Refresh(p, origin, life, now, bad), dst, life, now, bad), gateway, life, now, bad);
      var back := GetOr(t1, origin, DefaultEntry(now)).route.nextHop;
      var s1 := s.(table := Refresh(t1, back, life, now, bad));
      TableUnwatched(s, s1, now);
      UpdateGuards(s1, gateway, life, now);
      var s2 := UpdateNeighbor(s1, gateway, life, now);
      GuardsTrans(s, s1, s2, now);
      UpdateGuards(s2, back, life, now);
      GuardsTrans(s, s2, UpdateNeighbor(s2, back, life, now), now);
    } else {
      UnwatchedGuards(s, UseRoute(s, origin, dst, now), now);
    }
  }

  lemma DeliverGuards(s: Node, origin: Addr, now: Time)
    ensures Guards(s, DeliverLocally(s, origin, now), now, {})
  {
    hide Refresh, UpdateNeighbor, Watched, OpenUntil;
    var life, bad := s.cfg.activeRouteTimeout, s.cfg.badLinkLifetime;
    var t := Refresh(s.table, origin, life, now, bad);
    if IsValid(t, origin) {
      var back := t[origin].route.nextHop;
      var s1 := s.(table := Refresh(t, back, life, now, bad));
      TableUnwatched(s, s1, now);
      UpdateGuards(s1, back, life, now);
      GuardsTrans(s, s1, UpdateNeighbor(s1, back, life, now), now);
    } else {
      TableUnwatched(s, s.(table := t), now);
    }
  }

  lemma ReceiveGuards(s: Node, msg: Option<Message>, ttl: U8, sender: Addr, rcv: Iface, now: Time)
    ensures Guards(s, Receive(s, msg, ttl, sender, rcv, now), now, {})
  {
    hide RouteToNeighbor, RecvRequest, RecvReply, RecvError, Purge, Watched, OpenUntil;
    var s1 := s.(table := RouteToNeighbor(s.cfg, s.table, sender, rcv, now));
    var s' := Receive(s, msg, ttl, sender, rcv, now);
    TableUnwatched(s, s1, now);
    match msg {
      case Some(RREQ(h)) => RequestGuards(s1, h, ttl, sender, rcv, now);
      case Some(RREP(h)) => ReplyGuards(s1, h, ttl, sender, rcv, now);
      case Some(RERR(h)) => RecvErrorUnwatched(s1, h, sender, now); UnwatchedGuards(s1, s', now);
      case _ => UnwatchedGuards(s1, s', now);
    }
    GuardsTrans(s, s1, s', now);
  }

  lemma SearchUnwatched(s: Node, dst: Addr, now: Time)
    ensures Unwatched(s, RouteRequestTimerExpire(s, dst, now)) && Unwatched(s, SendRequest(s, dst, now))
  {
    hide Purge, SearchEntry, RecordOwn, Requests, ScheduleRreqRetry, Filter, Matching, WithoutFirst, ForwardedAll,
         PacketQueue.Purge, PacketQueue.DropPacketWithDst;
  }

  /** Whom the event reports as unreachable by itself. */
  function HitBy(e: Event): set<Addr> { if e.TxError? then e.hit else {} }

  lemma EventGuards(s: Node, e: Event, now: Time)
    ensures Guards(s, Apply(s, e, now), now, HitBy(e))
  {
    hide Receive, RouteRequestTimerExpire, PurgeNeighbors, UseRoute, DeliverLocally, SendRequest, CloseNeighbors,
         Hellos,
         ProcessTxError, Watched, OpenUntil, Purge, Refresh, PacketQueue.Enqueue, PacketQueue.Accepts;
    var s' := Apply(s, e, now);
    match e {
      case Receipt(msg, ttl, sender, rcv) => ReceiveGuards(s, msg, ttl, sender, rcv, now);
      case NeighborTimer => TimerGuards(s, now);
      case TxError(hit) => TxErrorGuards(s, hit, now);
      case Forward(uid, header) => ForwardGuards(s, uid, header, now);
      case Delivered(origin) => DeliverGuards(s, origin, now);
      case _ => OtherUnwatched(s, e, now); UnwatchedGuards(s, s', now);
    }
  }

  lemma TimerGuards(s: Node, now: Time)
    ensures Guards(s, PurgeNeighbors(s.(neighborTimer := None), now), now, {})
  {
    hide PurgeNeighbors;
    PurgeWatches(s.(neighborTimer := None), now);
    forall a, until | OpenUntil(s, a, until) ensures OpenUntil(s.(neighborTimer := None), a, until) {
    }
  }

  lemma ForwardGuards(s: Node, uid: int, header: PacketQueue.Header, now: Time)
    ensures Guards(s, Forwarding(s, uid, header, now), now, {})
  {
    hide UseRoute, Purge;
    var s1 := UseRoute(s, header.src, header.dst, now);
    UseRouteGuards(s, header.src, header.dst, now);
    UnwatchedGuards(s1, Forwarding(s, uid, header, now), now);
    GuardsTrans(s, s1, Forwarding(s, uid, header, now), now);
  }

  lemma OtherUnwatched(s: Node, e: Event, now: Time)
    requires !e.Receipt? && !e.NeighborTimer? && !e.TxError? && !e.Forward? && !e.Delivered?
    ensures Unwatched(s, Apply(s, e, now))
  {
    hide Receive, RouteRequestTimerExpire, PurgeNeighbors, Forwarding, DeliverLocally, SendRequest, Hellos,
         ProcessTxError, Purge, Refresh, PacketQueue.Enqueue, PacketQueue.Accepts;
    match e {
      case RetryTimer(dst) =>
        SearchUnwatched(s.(search := s.search.(timers := s.search.timers[dst := None])), dst, now);
      case Output(packet) =>
        var queued := s.WithQueue(PacketQueue.Enqueue(s.queue, packet, s.cfg.maxQueueLen, s.cfg.queueTimeout, now));
        SearchUnwatched(queued.(table := s.Purged(now)), packet.header.dst, now);
      case Postponed(dst, at) =>
        SearchUnwatched(s.(search := s.search.(postponed := s.search.postponed - multiset{(dst, at)})), dst, now);
      case _ =>
    }
  }

  // ---------------------------------------------------------------------
  // Whole runs

  lemma {:induction false} RunWatched(s: Node, run: seq<(Event, Time)>)
    requires Watched(s)
    ensures Watched(RunAll(s, run)) && RunAll(s, run).cfg == s.cfg
    decreases |run|
  {
    hide Apply, Watched, OpenUntil;
    if run != [] {
      EventGuards(s, run[0].0, run[0].1);
      RunWatched(Apply(s, run[0].0, run[0].1), run[1..]);
    }
  }

  /** Whatever happened before: as long as the neighbour timer fires at its
      deadline, nobody is a neighbour for longer than the timer's delay after its
      time ran out, and nobody whom a transmission error hit is one. */
  lemma SilentNeighborGone(s: Node, run: seq<(Event, Time)>, now: Time)
    requires Watched(s)
    requires var end := RunAll(s, run); end.neighborTimer.Some? ==> now <= end.neighborTimer.value
    ensures forall n :: n in RunAll(s, run).neighbors ==> !n.close && now <= n.expire + s.cfg.neighborDelay
  {
    hide RunAll;
    RunWatched(s, run);
  }

  /** Nothing in the run comes after `until` or hits `a`. */
  ghost predicate Spares(run: seq<(Event, Time)>, a: Addr, until: Time) {
    forall i :: 0 <= i < |run| ==> run[i].1 <= until && a !in HitBy(run[i].0)
  }

  /** A neighbour stays one until its time runs out, unless a transmission error hits it. */
  lemma {:induction false} HeardNeighborStays(s: Node, run: seq<(Event, Time)>, a: Addr, until: Time)
    requires OpenUntil(s, a, until) && Spares(run, a, until)
    ensures OpenUntil(RunAll(s, run), a, until)
    decreases |run|
  {
    hide Apply, Watched, OpenUntil, HitBy;
    if run != [] {
      EventGuards(s, run[0].0, run[0].1);
      assert run[0].1 <= until;
      HeardNeighborStays(Apply(s, run[0].0, run[0].1), run[1..], a, until);
    }
  }

  lemma StartWatched(cfg: Config, ifaces: seq<Iface>, lo: Device, jitter: Time, now: Time)
    ensures Watched(Started(cfg, ifaces, lo, jitter, now))
  {
    hide AddBroadcastRoutes, Add;
  }
}
