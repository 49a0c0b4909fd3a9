/** Loop freedom while duplicate records live: it is enough that no node
    processes an older request of the originator after a newer one, since the
    duplicate cache keeps it from processing the same one twice. */
module InOrder {
  import opened Base
  import opened Messages
  import opened RouteTable
  import opened NodeState
  import opened Discovery
  import opened LinkBreak
  import opened Routes
  import opened NodeEvents
  import opened Emissions
  import opened LoopFreedom
  import opened Flood
  import opened NodeRuns
  import IdCaches
  import PacketQueue

  // ---------------------------------------------------------------------
  // What a node remembers

  lemma {:induction false} RecordOwnKeeps(s: Node, ids: seq<IdCaches.UniqueId>, ifaces: seq<Iface>, id: U32,
                                          lifetime: Time, now: Time, key: IdCaches.Key, h: Time)
    requires Knows(s.(ids := ids), key, h) && now <= h
    ensures Knows(s.(ids := RecordOwn(ids, ifaces, id, lifetime, now)), key, h)
    decreases |ifaces|
  {
    hide IdCaches.Record, Knows;
    if ifaces != [] {
      var k := IdCaches.Key(ifaces[0].local, id);
      var ids1 := IdCaches.Record(ids, k, lifetime, now);
      RecordKeeps(s, ids, k, lifetime, now, key, h);
      RecordOwnKeeps(s, ids1, ifaces[1..], id, lifetime, now, key, h);
    }
  }

  lemma RecordKeeps(s: Node, ids: seq<IdCaches.UniqueId>, k: IdCaches.Key, lifetime: Time, now: Time,
                    key: IdCaches.Key, h: Time)
    requires Knows(s.(ids := ids), key, h) && now <= h
    ensures Knows(s.(ids := IdCaches.Record(ids, k, lifetime, now)), key, h)
  {
    hide IdCaches.Record, IdCaches.Duplicate;
    RecordMembers(ids, k, lifetime, now);
  }

  lemma SameIds(s: Node, s': Node, key: IdCaches.Key, h: Time)
    requires s'.ids == s.ids
    ensures Knows(s, key, h) ==> Knows(s', key, h)
  {
  }

  lemma SendRequestKnows(s: Node, s1: Node, dst: Addr, now: Time, key: IdCaches.Key, h: Time)
    requires Knows(s, key, h) && now <= h && s1.ids == s.ids
    ensures Knows(SendRequest(s1, dst, now), key, h)
  {
    hide SearchEntry, ScheduleRreqRetry, Requests, RecordOwn, Purge, Knows;
    var s' := SendRequest(s1, dst, now);
    SameIds(s, s.(ids := s.ids), key, h);
    if RateLimited(s1) {
      SameIds(s, s', key, h);
    } else {
      RecordOwnKeeps(s, s.ids, s1.ifaces, Wrap32(s1.ctr.requestId + 1), s1.cfg.idLifetime, now, key, h);
      SameIds(s.(ids := s'.ids), s', key, h);
    }
  }

  lemma RetryKnows(s: Node, dst: Addr, now: Time, key: IdCaches.Key, h: Time)
    requires Knows(s, key, h) && now <= h
    ensures Knows(RouteRequestTimerExpire(s, dst, now), key, h)
  {
    hide SendRequest, Purge, WithoutFirst, Filter, Matching, ForwardedAll, Knows;
    SameIds(s, RouteRequestTimerExpire(s, dst, now).(ids := s.ids), key, h);
    SendRequestKnows(s, s.(table := s.Purged(now)), dst, now, key, h);
    SameIdsAfter(s, RouteRequestTimerExpire(s, dst, now), key, h);
  }

  lemma SameIdsAfter(s: Node, s': Node, key: IdCaches.Key, h: Time)
    requires Knows(s, key, h)
    ensures s'.ids == s.ids ==> Knows(s', key, h)
  {
  }

  lemma OutputKnows(s: Node, packet: PacketQueue.QueueEntry, now: Time, key: IdCaches.Key, h: Time)
    requires Knows(s, key, h) && now <= h
    ensures Knows(DeferredRouteOutput(s, packet, now), key, h)
  {
    hide SendRequest, Purge, PacketQueue.Enqueue, PacketQueue.Accepts, Knows;
    var queued := s.WithQueue(PacketQueue.Enqueue(s.queue, packet, s.cfg.maxQueueLen, s.cfg.queueTimeout, now));
    SendRequestKnows(s, queued.(table := s.Purged(now)), packet.header.dst, now, key, h);
    SameIdsAfter(s, DeferredRouteOutput(s, packet, now), key, h);
  }

  lemma MuteKnows(s: Node, s': Node, key: IdCaches.Key, h: Time)
    requires Mute(s, s') && Knows(s, key, h)
    ensures Knows(s', key, h) && s'.cfg == s.cfg
  {
  }

  /** No event makes a node forget a request before its record runs out. */
  lemma EventKnows(s: Node, e: Event, now: Time, key: IdCaches.Key, h: Time)
    requires Knows(s, key, h) && now <= h <= now + s.cfg.idLifetime
    ensures Knows(Apply(s, e, now), key, h)
  {
    hide Mute, Receive, RouteRequestTimerExpire, PurgeNeighbors, RouteOutput, Forwarding, DeliverLocally,
         DeferredRouteOutput, SendRequest, CloseNeighbors, HelloTimerExpire, Knows, RouteToNeighbor;
    var s' := Apply(s, e, now);
    match e
    case Receipt(msg, ttl, sender, rcv) =>
      if msg.Some? {
        AwarenessStep(s, msg.value, ttl, sender, rcv, key, h, now);
      } else {
        ReceiveMute(s, msg, ttl, sender, rcv, now);
        MuteKnows(s, s', key, h);
      }
    case Output(packet) => OutputKnows(s, packet, now, key, h);
    case RetryTimer(dst) =>
      var s1 := s.(search := s.search.(timers := s.search.timers[dst := None]));
      SameIds(s, s1, key, h);
      RetryKnows(s1, dst, now, key, h);
    case Postponed(dst, at) =>
      var s1 := s.(search := s.search.(postponed := s.search.postponed - multiset{(dst, at)}));
      SendRequestKnows(s, s1, dst, now, key, h);
    case RreqReset => SameIds(s, s', key, h);
    case RerrReset => SameIds(s, s', key, h);
    case HelloTimer =>
      var s1 := s.(hello := s.hello.(timer := None));
      SameIds(s, s1, key, h);
      HelloMute(s1, now);
      MuteKnows(s1, s', key, h);
    case NeighborTimer =>
      var s1 := s.(neighborTimer := None);
      SameIds(s, s1, key, h);
      PurgeNeighborsMute(s1, now);
      MuteKnows(s1, s', key, h);
    case TxError(hit) =>
      var s1 := s.(neighbors := CloseNeighbors(s.neighbors, hit));
      SameIds(s, s1, key, h);
      PurgeNeighborsMute(s1, now);
      MuteKnows(s1, s', key, h);
    case RouteRequest(dst, oif) => RouteOutputMute(s, dst, oif, now); MuteKnows(s, s', key, h);
    case Forward(uid, header) => ForwardingMute(s, uid, header, now); MuteKnows(s, s', key, h);
    case Delivered(origin) => DeliverLocallyMute(s, origin, now); MuteKnows(s, s', key, h);
  }

  // ---------------------------------------------------------------------
  // Runs in order

  /** As `Legal`, but nobody processes a request of `o` after a later one. */
  ghost predicate Ordered(w: World, m: Move, o: Addr) {
    && m.at in w.nodes && w.rank.Keys == w.nodes.Keys
    && (m.Other? ==> Legal(w, m, o))
    && (m.Hear? ==> m.airing in w.aired && (m.at != o && Processes(w, m) ==> m.airing.num >= w.rank[m.at].num))
  }

  /** Floods are numbered in the order in which they start, each with one request number. */
  ghost predicate Numbered(w: World) {
    && w.rank.Keys == w.nodes.Keys
    && (forall a :: a in w.nodes ==> w.rank[a].num <= w.floods)
    && (forall x :: x in w.aired ==> 1 <= x.num <= w.floods)
    && (forall x, y :: x in w.aired && y in w.aired && x.num == y.num ==> x.req.id == y.req.id)
  }

  /** A node remembers the flood it processed last. */
  ghost predicate RemembersAt(w: World, a: Addr, x: Airing, until: Time)
    requires a in w.nodes && w.rank.Keys == w.nodes.Keys
  {
    x.num == w.rank[a].num ==> Knows(w.nodes[a], KeyOf(x.req), until)
  }

  ghost predicate Remembers(w: World, o: Addr, until: Time)
    requires w.rank.Keys == w.nodes.Keys
  {
    forall a, x :: a in w.nodes && a != o && x in w.aired ==> RemembersAt(w, a, x, until)
  }

  /** From `from` to `until` no record runs out. */
  ghost predicate Window(w: World, from: Time, until: Time) {
    forall a :: a in w.nodes ==> until <= from + w.nodes[a].cfg.idLifetime
  }

  ghost predicate OrderInv(w: World, o: Addr, from: Time, until: Time) {
    Inv(w, o) && Numbered(w) && Remembers(w, o, until) && Window(w, from, until)
  }

  /** The same request is not processed twice, so not older means newer. */
  lemma OrderedIsLegal(w: World, m: Move, o: Addr, from: Time, until: Time)
    requires OrderInv(w, o, from, until) && Ordered(w, m, o) && m.now <= until
    ensures Legal(w, m, o)
  {
    hide NodeOk, HopOk, AiringOk, Knows, IdCaches.Duplicate, Numbered, Window, RouteToNeighbor, Purge;
    if m.Hear? && m.at != o && Processes(w, m) && m.airing.num == w.rank[m.at].num {
      var s, x := w.nodes[m.at], m.airing;
      assert RemembersAt(w, m.at, x, until);
      SameIds(s, Met(s, x.from, m.rcv, m.now), KeyOf(x.req), until);
      KnownIsDuplicate(Met(s, x.from, m.rcv, m.now), KeyOf(x.req), until, m.now);
    }
  }

  /** A node that processes a request remembers it. */
  lemma ProcessedKnown(s: Node, x: Airing, rcv: Iface, now: Time, until: Time)
    requires Accepts(Met(s, x.from, rcv, now), x.req, x.from, now) && until <= now + s.cfg.idLifetime
    ensures Knows(Receive(s, Some(RREQ(x.req)), x.ttl, x.from, rcv, now), KeyOf(x.req), until)
  {
    hide RouteToNeighbor, ProcessRequest, IdCaches.Record, Purge;
    var s1 := Met(s, x.from, rcv, now);
    RecvRequestSends(s1, x.req, x.ttl, x.from, rcv, now);
    hide IdCaches.Duplicate;
    RecordMembers(s1.ids, KeyOf(x.req), s1.cfg.idLifetime, now);
  }

  lemma EventConfig(s: Node, e: Event, now: Time)
    requires TableOk(s.table)
    ensures Apply(s, e, now).cfg == s.cfg
  {
    hide Receive, RouteRequestTimerExpire, PurgeNeighbors, RouteOutput, Forwarding, DeliverLocally,
         DeferredRouteOutput, PostponedRequest, CloseNeighbors, ProcessTxError, TableOk, Hellos;
    if e.Postponed? {
      PostponedSteps(s, e.dst, e.at, now);
    } else if !e.RreqReset? && !e.HelloTimer? {
      EventSteps(s, e, now);
    }
  }

  lemma StepNumbered(w: World, m: Move, o: Addr)
    requires Inv(w, o) && Numbered(w) && Legal(w, m, o)
    ensures Numbered(Step(w, m, o))
    ensures forall y :: y in Step(w, m, o).aired && y !in w.aired ==>
      if m.Other? then y.num == w.floods + 1 else y.num == m.airing.num && KeyOf(y.req) == KeyOf(m.airing.req)
  {
    hide TableOk, Apply, NewAirings, Receive, Accepts, HopOk, AiringOk, NodeOk, Legal;
    StepFacts(w, m, o);
  }

  /** What a step can put on the air. */
  lemma StepFacts(w: World, m: Move, o: Addr)
    requires Inv(w, o) && Legal(w, m, o)
    ensures m.at in w.nodes && (m.Hear? ==> m.airing in w.aired)
    ensures var s' := Apply(w.nodes[m.at], EventOf(m), m.now);
            forall y :: y in NewAirings(w.nodes[m.at], s', m.at, o, if m.Hear? then m.airing.num else w.floods + 1) ==>
              && y.num == (if m.Hear? then m.airing.num else w.floods + 1)
              && y.req.id == (if m.Hear? then m.airing.req.id else Wrap32(w.nodes[m.at].ctr.requestId + 1))
              && (m.Hear? ==> KeyOf(y.req) == KeyOf(m.airing.req))
  {
    hide TableOk, Receive, NewAirings, Accepts, HopOk;
    var s := w.nodes[m.at];
    assert NodeOk(m.at, s);
    if m.Other? {
      EventAirings(s, m.event, m.now, m.at, o, w.floods + 1);
    } else {
      assert AiringOk(w, m.airing, o);
      HeardAirings(s, m.airing, m.rcv, m.now, m.at, o);
    }
  }

  lemma StepRemembers(w: World, m: Move, o: Addr, from: Time, until: Time)
    requires OrderInv(w, o, from, until) && Legal(w, m, o) && from <= m.now <= until
    ensures Remembers(Step(w, m, o), o, until)
  {
    hide Apply, NewAirings, Processes, Inv, Legal, Knows, NodeOk, Numbered, Window;
    LegalAt(w, m, o);
    StepNumbered(w, m, o);
    var w' := Step(w, m, o);
    forall b, y | b in w'.nodes && b != o && y in w'.aired ensures RemembersAt(w', b, y, until) {
      if y.num == w'.rank[b].num {
        RememberedAfter(w, m, o, from, until, b, y);
      }
    }
  }

  lemma LegalAt(w: World, m: Move, o: Addr)
    requires Legal(w, m, o) && Inv(w, o)
    ensures m.at in w.nodes && w.rank.Keys == w.nodes.Keys && NodeOk(m.at, w.nodes[m.at])
    ensures m.Hear? ==> m.airing in w.aired
  {
    hide NodeOk;
  }

  /** The node and the ranks after a step. */
  lemma StepShape(w: World, m: Move, o: Addr)
    requires m.at in w.nodes && w.rank.Keys == w.nodes.Keys
    ensures var w' := Step(w, m, o);
            && w'.nodes == w.nodes[m.at := Apply(w.nodes[m.at], EventOf(m), m.now)] && w'.rank.Keys == w.nodes.Keys
            && w'.rank == if m.Hear? && Processes(w, m)
                          then w.rank[m.at := Rank(m.airing.num, m.airing.req.hopCount + 1)] else w.rank
  {
    hide Apply, NewAirings, Processes;
  }

  /** A request on the air whose flood was known before the step was on the air before it. */
  lemma KnownBefore(w: World, m: Move, o: Addr, y: Airing) returns (x: Airing)
    requires Inv(w, o) && Numbered(w) && Legal(w, m, o)
    requires y in Step(w, m, o).aired && (m.Other? ==> y.num <= w.floods)
    ensures x in w.aired && x.num == y.num && KeyOf(x.req) == KeyOf(y.req)
  {
    hide Step, Inv, Legal, Numbered;
    LegalAt(w, m, o);
    StepNumbered(w, m, o);
    x := if y in w.aired then y else if m.Hear? then m.airing else y;
  }

  lemma RankBelow(w: World, b: Addr)
    requires Numbered(w) && b in w.nodes
    ensures b in w.rank && w.rank[b].num <= w.floods
  {
  }

  lemma RememberedAfter(w: World, m: Move, o: Addr, from: Time, until: Time, b: Addr, y: Airing)
    requires OrderInv(w, o, from, until) && Legal(w, m, o) && from <= m.now <= until
    requires b in w.nodes && b != o && y in Step(w, m, o).aired
    requires b in Step(w, m, o).nodes && b in Step(w, m, o).rank && y.num == Step(w, m, o).rank[b].num
    ensures Knows(Step(w, m, o).nodes[b], KeyOf(y.req), until)
  {
    hide Apply, Inv, Legal, Knows, NodeOk, Step, Processes, Numbered;
    LegalAt(w, m, o);
    StepShape(w, m, o);
    var s := w.nodes[m.at];
    RankBelow(w, b);
    if b == m.at && m.Hear? && Processes(w, m) {
      JustProcessed(w, m, o, until, y);
    } else {
      var x := KnownBefore(w, m, o, y);
      assert RemembersAt(w, b, x, until);
      if b == m.at {
        EventKnows(s, EventOf(m), m.now, KeyOf(x.req), until);
      }
    }
  }

  lemma JustProcessed(w: World, m: Move, o: Addr, until: Time, y: Airing)
    requires Inv(w, o) && Numbered(w) && Legal(w, m, o) && m.Hear? && m.at in w.nodes && Processes(w, m)
    requires until <= m.now + w.nodes[m.at].cfg.idLifetime
    requires y in Step(w, m, o).aired && y.num == m.airing.num
    ensures Knows(Apply(w.nodes[m.at], EventOf(m), m.now), KeyOf(y.req), until)
  {
    hide Receive, Inv, Legal, Knows, NodeOk, Step, Accepts, Numbered;
    LegalAt(w, m, o);
    ProcessedKnown(w.nodes[m.at], m.airing, m.rcv, m.now, until);
    var x := KnownBefore(w, m, o, y);
    SameFlood(w, o, m.airing, x);
  }

  lemma SameFlood(w: World, o: Addr, x: Airing, y: Airing)
    requires Inv(w, o) && Numbered(w) && x in w.aired && x.num == y.num
    ensures y in w.aired ==> KeyOf(y.req) == KeyOf(x.req)
  {
    hide NodeOk, HopOk;
    assert AiringOk(w, x, o) && (y in w.aired ==> AiringOk(w, y, o));
  }

  lemma StepOrderInv(w: World, m: Move, o: Addr, from: Time, until: Time)
    requires OrderInv(w, o, from, until) && Legal(w, m, o) && from <= m.now <= until
    ensures OrderInv(Step(w, m, o), o, m.now, until)
  {
    hide Apply, NewAirings, Processes, Inv, Legal, Numbered, Remembers;
    LegalAt(w, m, o);
    StepInv(w, m, o);
    StepNumbered(w, m, o);
    StepRemembers(w, m, o, from, until);
    EventConfig(w.nodes[m.at], EventOf(m), m.now);
  }

  ghost predicate OrderedRun(w: World, run: seq<Move>, o: Addr, from: Time, until: Time)
    decreases |run|
  {
    run != [] ==>
      && Ordered(w, run[0], o) && from <= run[0].now <= until
      && OrderedRun(Step(w, run[0], o), run[1..], o, run[0].now, until)
  }

  lemma {:induction false} OrderedRunIsLegal(w: World, run: seq<Move>, o: Addr, from: Time, until: Time)
    requires OrderInv(w, o, from, until) && OrderedRun(w, run, o, from, until)
    ensures LegalRun(w, run, o)
    decreases |run|
  {
    hide OrderInv, Step, Legal;
    if run != [] {
      OrderedIsLegal(w, run[0], o, from, until);
      StepOrderInv(w, run[0], o, from, until);
      OrderedRunIsLegal(Step(w, run[0], o), run[1..], o, run[0].now, until);
    }
  }

  lemma StartOrdered(w: World, o: Addr, from: Time, until: Time)
    requires Start(w, o) && Window(w, from, until) && forall a :: a in w.nodes ==> w.rank[a].num <= w.floods
    ensures OrderInv(w, o, from, until)
  {
    hide NodeOk;
  }

  /** Within the lifetime of duplicate records: if nobody processes an older
      request of the originator after a newer one, next hops towards it never
      lead a packet to the same node twice. */
  lemma OrderedFloodsNeverLoop(w: World, run: seq<Move>, o: Addr, from: Time, until: Time, path: seq<Addr>)
    requires Start(w, o) && Window(w, from, until) && forall a :: a in w.nodes ==> w.rank[a].num <= w.floods
    requires OrderedRun(w, run, o, from, until)
    ensures LegalRun(w, run, o)
    ensures Follows(Run(w, run, o).nodes, path, o) ==> Distinct(path)
  {
    hide Start, OrderInv, OrderedRun, Follows, Distinct;
    StartOrdered(w, o, from, until);
    OrderedRunIsLegal(w, run, o, from, until);
    if Follows(Run(w, run, o).nodes, path, o) {
      ReverseRoutesNeverLoop(w, run, o, path);
    }
  }
}
