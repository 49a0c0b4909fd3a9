/** The whole ring search in a network: ring after ring, each from what the one
    before left behind, until the TTL is large enough (sections 6.3 and 6.4 of
    RFC 3561). */
module RingRuns {
  import opened Base
  import opened Messages
  import opened RouteTable
  import opened NodeState
  import opened Discovery
  import opened Routes
  import opened NodeEvents
  import opened Frames
  import opened NodeFrames
  import opened Emissions
  import opened LoopFreedom
  import opened Network
  import opened Flood
  import opened SteadyNode
  import opened ReplyDelivery
  import opened ReplyRuns
  import opened ReachBound
  import RingSearch
  import IdCaches

  // ---------------------------------------------------------------------
  // What a ring that does not reach the destination leaves alone

  /** What the originator knows about its search. */
  ghost predicate SameSearch(s: Node, s': Node, d: Addr) {
    && s'.search == s.search && s'.ctr.requestId == s.ctr.requestId
    && Get(s'.table, d) == Get(s.table, d) && s'.ifaces == s.ifaces
  }

  /** A request neither touches the search nor the numbers. */
  lemma RequestKeepsSearch(s: Node, h: Rreq, ttl: U8, src: Addr, rcv: Iface, now: Time)
    requires TableOk(s.table)
    ensures var s' := Receive(s, Some(RREQ(h)), ttl, src, rcv, now);
            s'.search == s.search && s'.ctr.requestId == s.ctr.requestId && s'.ifaces == s.ifaces
  {
    hide RecvRequest, TableOk, Evolves;
    NeighborEvolves(s.cfg, s.table, src, rcv, now);
    EvolvesOk(s.table, Met(s, src, rcv, now).table, {});
    RecvRequestQuiet(Met(s, src, rcv, now), h, ttl, src, rcv, now);
  }

  lemma CalmlyOk(s: Node, rcv: Iface, until: Time, sought: set<Addr>)
    requires Calmly(s, rcv, until, sought)
    ensures TableOk(s.table) && s.ifaces == [rcv]
  {
  }

  lemma OriginatorHears(s: Node, h: Rreq, ttl: U8, src: Addr, q: Quest, now: Time)
    requires GoodNode(s, q, {q.d}) && Knows(s, q.Key(), q.until) && KeyOf(h) == q.Key() && Timely(q, now)
    requires Lasting(s.cfg, q.life, q.reach) && src != NO_ADDR && src != q.d
    ensures SameSearch(s, Receive(s, Some(RREQ(h)), ttl, src, s.ifaces[0], now), q.d)
  {
    hide Receive, Calmly, Knows, Unaware;
    CalmlyOk(s, s.ifaces[0], q.until, {q.d});
    HearAgain(s, h, ttl, src, s.ifaces[0], q.until, {q.d}, now);
    RequestKeepsSearch(s, h, ttl, src, s.ifaces[0], now);
  }

  /** Nobody hears of another request. */
  ghost predicate StaysNew(net: Net, net': Net, key: IdCaches.Key) {
    && net'.nodes.Keys == net.nodes.Keys && net'.links == net.links
    && (forall a :: a in net.nodes ==>
          net'.nodes[a].cfg == net.nodes[a].cfg && (Unaware(net.nodes[a], key) ==> Unaware(net'.nodes[a], key)))
  }

  lemma ReceiverStaysNew(s: Node, h: Rreq, ttl: U8, src: Addr, q: Quest, key: IdCaches.Key, now: Time)
    requires Timely(q, now) && Lasting(s.cfg, q.life, q.reach) && KeyOf(h) == q.Key() != key && s.ifaces != []
    requires Unaware(s, key)
    ensures var s' := Receive(s, Some(RREQ(h)), ttl, src, s.ifaces[0], now); Unaware(s', key) && s'.cfg == s.cfg
  {
    hide Receive, Unaware, Knows;
    AwarenessStep(s, RREQ(h), ttl, src, s.ifaces[0], key, now, now);
  }

  /** While the destination has not heard the request, only requests are in flight. */
  lemma OnlyRequests(net: Net, q: Quest, depth: map<Addr, int>, i: nat)
    requires Full(net, q, depth) && i < |net.flight| && !Aware(net, q, q.d)
    ensures var p := net.flight[i];
            && p.msg.RREQ? && KeyOf(p.msg.rreq) == q.Key()
            && p.sender != q.d && p.sender != NO_ADDR && p.to in net.nodes
  {
    hide Aware, Good, Depths, ForwardRoutes, Levels, Covered, HasRoute, Waiting;
    assert PacketOk(net, q, depth, net.flight[i]);
    FilterMembers(IsReply(), net.flight);
    assert net.flight[i] in Filter(IsReply(), net.flight) <==> net.flight[i].msg.RREP?;
  }

  lemma KnownAt(net: Net, q: Quest, depth: map<Addr, int>, a: Addr)
    requires Full(net, q, depth) && a in net.nodes
    ensures var s := net.nodes[a];
            && GoodNode(s, q, Sought(q, a)) && s.ifaces != [] && Lasting(s.cfg, q.life, q.reach)
            && (a == q.o ==> Knows(s, q.Key(), q.until))
  {
    hide Levels, Covered, Flying, Answers, ForwardRoutes, Lasting, Calmly, Knows, Unaware, ReverseOk;
  }

  /** One delivery that does not reach the destination. */
  lemma MissStep(net: Net, q: Quest, depth: map<Addr, int>, i: nat, key: IdCaches.Key, now: Time)
    requires Full(net, q, depth) && i < |net.flight| && Timely(q, now) && CanDeliver(net, i)
    requires !Aware(net, q, q.d) && key != q.Key() && Unaware(net.nodes[net.flight[i].to], key)
    ensures var net' := Deliver(net, i, now);
            && StaysNew(net, net', key) && q.o in net.nodes && q.o in net'.nodes
            && SameSearch(net.nodes[q.o], net'.nodes[q.o], q.d)
  {
    hide Full, Aware, Receive, GoodNode, Lasting, Unaware, Knows, AllCopies;
    var p := net.flight[i];
    OnlyRequests(net, q, depth, i);
    KnownAt(net, q, depth, p.to);
    OriginatorIn(net, q, depth);
    ReceiverStaysNew(net.nodes[p.to], p.msg.rreq, p.ttl, p.sender, q, key, now);
    if p.to == q.o {
      OriginatorHears(net.nodes[q.o], p.msg.rreq, p.ttl, p.sender, q, now);
    }
  }

  lemma OriginatorIn(net: Net, q: Quest, depth: map<Addr, int>)
    requires Full(net, q, depth)
    ensures q.o in net.nodes && q.d in net.nodes && q.o != q.d
  {
    hide Levels, Covered, Flying, Answers, ForwardRoutes, Good, Depths;
  }

  /** Nobody has heard of the requests that `ids` are the numbers of. */
  ghost predicate AllNew(net: Net, o: Addr, ids: set<U32>) {
    forall a, id :: a in net.nodes && id in ids ==> Unaware(net.nodes[a], IdCaches.Key(o, id))
  }

  ghost predicate SameConfig(net: Net, net': Net) {
    && net'.nodes.Keys == net.nodes.Keys && net'.links == net.links
    && (forall a :: a in net.nodes ==> net'.nodes[a].cfg == net.nodes[a].cfg)
  }

  lemma MissStepAll(net: Net, q: Quest, depth: map<Addr, int>, i: nat, ids: set<U32>, now: Time)
    requires Full(net, q, depth) && i < |net.flight| && Timely(q, now) && CanDeliver(net, i)
    requires !Aware(net, q, q.d) && AllNew(net, q.o, ids) && q.id !in ids && ids != {}
    ensures var net' := Deliver(net, i, now);
            && AllNew(net', q.o, ids) && SameConfig(net, net') && q.o in net.nodes && q.o in net'.nodes
            && SameSearch(net.nodes[q.o], net'.nodes[q.o], q.d)
  {
    hide Full, Aware, Deliver, CanDeliver, Unaware, SameSearch;
    OnlyRequests(net, q, depth, i);
    var net' := Deliver(net, i, now);
    forall id | id in ids ensures StaysNew(net, net', IdCaches.Key(q.o, id)) {
      MissStep(net, q, depth, i, IdCaches.Key(q.o, id), now);
    }
    var id :| id in ids;
    MissStep(net, q, depth, i, IdCaches.Key(q.o, id), now);
  }

  /** A run of deliveries at whose end the destination has not heard the request. */
  lemma {:induction false} MissRun(net: Net, q: Quest, depth: map<Addr, int>, run: seq<(nat, Time)>, ids: set<U32>,
                                   from: Time)
    requires Full(net, q, depth) && Deliveries(net, run, from, q.until) && q.until <= from + q.life
    requires !Aware(After(net, run, from, q.until), q, q.d)
    requires AllNew(net, q.o, ids) && q.id !in ids && ids != {}
    ensures var end := After(net, run, from, q.until);
            && AllNew(end, q.o, ids) && SameConfig(net, end) && q.o in net.nodes && q.o in end.nodes
            && SameSearch(net.nodes[q.o], end.nodes[q.o], q.d)
    decreases |run|
  {
    hide Full, Aware, Deliver, AllNew, Work, Unaware;
    OriginatorIn(net, q, depth);
    if run != [] {
      var i, now := run[0].0, run[0].1;
      StillUnaware(net, q, depth, run, from);
      MissStepAll(net, q, depth, i, ids, now);
      var depth1 := FullStep(net, q, depth, i, now);
      MissRun(Deliver(net, i, now), q, depth1, run[1..], ids, now);
    }
  }

  lemma StillUnaware(net: Net, q: Quest, depth: map<Addr, int>, run: seq<(nat, Time)>, from: Time)
    requires Full(net, q, depth) && Deliveries(net, run, from, q.until) && q.until <= from + q.life
    requires !Aware(After(net, run, from, q.until), q, q.d)
    ensures !Aware(net, q, q.d)
  {
    hide Full, Aware, Deliver, Work;
    var depth' := RunFull(net, q, depth, run, from);
    OriginatorIn(net, q, depth);
    DepthIsAware(net, q, depth, q.d);
    DepthIsAware(After(net, run, from, q.until), q, depth', q.d);
  }

  // ---------------------------------------------------------------------
  // One ring at the originator

  /** The node is about to send request number `i + 1` for `d`. */
  ghost predicate AtRing(s: Node, d: Addr, i: nat) {
    && RingSearch.Sensible(s.cfg) && RingSearch.NoWrap(s.cfg) && i < RingSearch.Attempts(s.cfg)
    && !s.search.aborted && !RateLimited(s)
    && (if i == 0 then d !in s.table
        else d in s.table && s.table[d].info.flag == IN_SEARCH
             && s.table[d].info.hops == RingSearch.TtlAt(s.cfg, i - 1)
             && s.table[d].info.reqCnt == RingSearch.CountAt(s.cfg, i - 1))
  }

  lemma NextTtlAt(s: Node, d: Addr, i: nat, now: Time)
    requires AtRing(s, d, i)
    ensures var e := SearchEntry(s.cfg, s.table, d, now).info;
            && e.flag == IN_SEARCH && e.hops == RingSearch.TtlAt(s.cfg, i) && e.reqCnt == RingSearch.CountAt(s.cfg, i)
            && RetryDelay(s.cfg, e) == Some(RingSearch.WaitAt(s.cfg, i))
    ensures if i == 0 then s.cfg.ttlStart == RingSearch.TtlAt(s.cfg, 0)
            else NextTtl(s.cfg, s.table[d].info) == RingSearch.TtlAt(s.cfg, i)
  {
    hide RingSearch.Rings, RingSearch.NoWrap, RingSearch.Attempts;
    if i == 0 {
      FirstEntry(s.cfg, d, now);
    } else {
      RingSearch.NextInfo(s.cfg, s.table[d].info, i - 1, now);
    }
  }

  lemma FirstEntry(cfg: Config, d: Addr, now: Time)
    requires RingSearch.Sensible(cfg)
    ensures var e := FirstSearch(cfg, d, now).info;
            && e.flag == IN_SEARCH && e.hops == cfg.ttlStart == RingSearch.TtlAt(cfg, 0)
            && e.reqCnt == RingSearch.CountAt(cfg, 0)
            && RetryDelay(cfg, e) == Some(RingSearch.WaitAt(cfg, 0))
  {
    RingSearch.RingBounds(cfg, 0);
  }

  /** The originator after the request of ring `i`: it waits, and nothing else about the search changes. */
  lemma LaunchWaits(s: Node, d: Addr, i: nat, now: Time)
    requires AtRing(s, d, i) && s.Purged(now) == s.table
    ensures var s' := SendRequest(s, d, now);
            && RingSearch.Waiting(s', d, i, now) && s'.cfg == s.cfg
            && s'.ctr.requestId == Wrap32(s.ctr.requestId + 1)
            && s'.search.rreqCount == Wrap16(s.search.rreqCount + 1)
  {
    hide Purge, SearchEntry, RetryDelay, Requests, RecordOwn, RingSearch.Rings, RingSearch.NoWrap, RingSearch.TtlAt,
         RingSearch.CountAt, RingSearch.WaitAt;
    NextTtlAt(s, d, i, now);
  }

  lemma RecordsOnlyItsOwn(s: Node, q: Quest, key: IdCaches.Key, now: Time)
    requires |s.ifaces| == 1 && s.ifaces[0].local == q.o && q.id == Wrap32(s.ctr.requestId + 1)
    requires Unaware(s, key) && key != q.Key()
    ensures Unaware(SendRequest(s, q.d, now), key)
  {
    hide IdCaches.Record, IdCaches.Duplicate, Purge, SearchEntry, ScheduleRreqRetry, Requests;
    assert s.ifaces[1..] == [];
    assert RecordOwn(s.ids, s.ifaces, q.id, s.cfg.idLifetime, now)
        == RecordOwn(IdCaches.Record(s.ids, q.Key(), s.cfg.idLifetime, now), [], q.id, s.cfg.idLifetime, now);
    RecordMembers(s.ids, q.Key(), s.cfg.idLifetime, now);
  }

  // ---------------------------------------------------------------------
  // From one ring to the next

  /** The originator's timer fires: nothing else is in flight. */
  function Retry(net: Net, q: Quest, now: Time): Net
    requires q.o in net.nodes
  {
    var s := net.nodes[q.o];
    var s' := Apply(s, RetryTimer(q.d), now);
    net.(nodes := net.nodes[q.o := s'], flight := AllCopies(net, q.o, NewSends(s, s')))
  }

  /** The network as the timer's handler finds it. */
  function Retried(net: Net, q: Quest, now: Time): Net
    requires q.o in net.nodes
  {
    net.(nodes := net.nodes[q.o := RingSearch.Fired(net.nodes[q.o], q.d, now)])
  }

  /** The quest of the next ring. */
  function NextQuest(net: Net, q: Quest): Quest
    requires q.o in net.nodes && q.d in net.nodes[q.o].table
  {
    var s := net.nodes[q.o];
    q.(id := Wrap32(s.ctr.requestId + 1), reach := Wrap8(NextTtl(s.cfg, s.table[q.d].info)))
  }

  lemma RetryIsRequest(s: Node, d: Addr, now: Time)
    requires d in s.Purged(now) && s.Purged(now)[d].info.flag == IN_SEARCH
    requires s.Purged(now)[d].info.reqCnt != s.cfg.rreqRetries
    ensures Apply(s, RetryTimer(d), now) == SendRequest(RingSearch.Fired(s, d, now), d, now)
  {
    hide Purge, SendRequest;
  }

  lemma {:induction false} SameShapeCopies(net: Net, net': Net, a: Addr, sends: seq<Sent>)
    requires net'.nodes.Keys == net.nodes.Keys && net'.links == net.links
    ensures AllCopies(net', a, sends) == AllCopies(net, a, sends)
  {
    hide SortedKeys;
    assert Neighbors(net', a) == Neighbors(net, a);
    if sends != [] {
      assert Copies(net', a, sends[0]) == Copies(net, a, sends[0]);
      SameShapeCopies(net, net', a, sends[1..]);
    }
  }

  lemma RetryIsLaunch(net: Net, q: Quest, q': Quest, now: Time)
    requires q.o in net.nodes && q'.o == q.o && q'.d == q.d
    requires var s := net.nodes[q.o];
             && q.d in s.Purged(now) && s.Purged(now)[q.d].info.flag == IN_SEARCH
             && s.Purged(now)[q.d].info.reqCnt != s.cfg.rreqRetries
    ensures Retry(net, q, now) == Launched(Retried(net, q, now), q', now)
  {
    hide Purge, SendRequest, AllCopies, Apply;
    var s := net.nodes[q.o];
    RetryIsRequest(s, q.d, now);
    SameShapeCopies(net, Retried(net, q, now), q.o, NewSends(s, Apply(s, RetryTimer(q.d), now)));
    assert net.nodes[q.o := RingSearch.Fired(s, q.d, now)][q.o := Apply(s, RetryTimer(q.d), now)]
        == net.nodes[q.o := Apply(s, RetryTimer(q.d), now)];
  }

  /** At rest without a route, the destination has not heard the request. */
  lemma AtRestMissed(net: Net, q: Quest, depth: map<Addr, int>)
    requires Full(net, q, depth) && net.flight == [] && !Routed(net, q)
    ensures !Aware(net, q, q.d) && forall a :: a in net.nodes && a != q.o && a != q.d ==> q.d !in net.nodes[a].table
  {
    hide Aware, Routed, Good, Depths, ForwardRoutes, Levels, Covered, Flying, Frame, Waiting;
    RoutedOrWaiting(net, q, depth);
    assert forall a :: a in net.nodes && a != q.o && a != q.d && q.d in net.nodes[a].table ==> HasRoute(net, q, a);
  }

  lemma StillClean(s: Node, q: Quest, q': Quest, sought: set<Addr>)
    requires GoodNode(s, q, sought) && Unaware(s, q'.Key()) && q'.until == q.until
    ensures CleanNode(s, q', sought)
  {
    hide Knows, Unaware, OpenUntil;
    var rest := s.table - sought;
    assert forall k :: k in rest ==> rest[k] == s.table[k];
  }

  /** The node of the originator when its timer fires, nothing having expired. */
  lemma FiredClean(s: Node, q: Quest, q': Quest, now: Time)
    requires GoodNode(s, q, {q.d}) && now <= q.until && q'.until == q.until && Unaware(s, q'.Key())
    ensures var s' := RingSearch.Fired(s, q.d, now);
            && s.Purged(now) == s.table && s'.table == s.table && CleanNode(s', q', {q.d})
            && s'.cfg == s.cfg && s'.ifaces == s.ifaces && s'.ids == s.ids && s'.ctr == s.ctr
            && s'.search.rreqCount == s.search.rreqCount && s'.search.aborted == s.search.aborted
  {
    hide Steady, OpenUntil, Knows, Unaware, CleanNode;
    SteadyPurge(s.table, s.ifaces[0], q.until, {q.d}, now, s.cfg.badLinkLifetime);
    SameKnows(s, RingSearch.Fired(s, q.d, now), q.Key(), q.until);
    SameKnows(s, RingSearch.Fired(s, q.d, now), q'.Key(), q.until);
    StillClean(RingSearch.Fired(s, q.d, now), q, q', {q.d});
  }

  lemma FrameNext(net: Net, net': Net, q: Quest, q': Quest)
    requires Frame(net, q) && SameConfig(net, net') && q'.o == q.o && q'.d == q.d && q'.life == q.life
    requires forall a :: a in net.nodes ==> net'.nodes[a].ifaces == net.nodes[a].ifaces
    requires forall a :: a in net.nodes ==> Lasting(net.nodes[a].cfg, q'.life, q'.reach)
    ensures Frame(net', q')
  {
    hide Lasting;
  }

  /** The parameters allow ring `i`: its TTL fits the lifetimes that nodes hand out. */
  ghost predicate Able(net: Net, q: Quest, i: nat) {
    && q.o in net.nodes && RingSearch.Sensible(net.nodes[q.o].cfg) && RingSearch.NoWrap(net.nodes[q.o].cfg)
    && i < RingSearch.Attempts(net.nodes[q.o].cfg)
    && 1 <= RingSearch.TtlAt(net.nodes[q.o].cfg, i) <= 255
    && forall a :: a in net.nodes ==> Lasting(net.nodes[a].cfg, q.life, RingSearch.TtlAt(net.nodes[q.o].cfg, i))
  }

  /** The request numbers of the next `k` rings after number `id`. */
  ghost function Ids(id: U32, k: nat): set<U32>
    decreases k
  {
    if k == 0 then {} else {Wrap32(id + 1)} + Ids(Wrap32(id + 1), k - 1)
  }

  /** Fewer than 2^32 requests bear different numbers. */
  lemma {:induction false} IdsDiffer(base: U32, off: nat, k: nat)
    requires off + k < 0x1_0000_0000
    ensures base !in Ids(Wrap32(base + off), k)
    decreases k
  {
    if k != 0 {
      assert Wrap32(Wrap32(base + off) + 1) == Wrap32(base + (off + 1)) != base;
      IdsDiffer(base, off + 1, k - 1);
    }
  }

  lemma IdsShift(id: U32, k: nat)
    requires 1 <= k < 0x1_0000_0000
    ensures id !in Ids(id, k) && Wrap32(id + 1) in Ids(id, k) && Ids(Wrap32(id + 1), k - 1) <= Ids(id, k)
  {
    IdsDiffer(id, 0, k);
  }

  /** Request number `i + 1` of the search is about to go out, and nobody has heard
      of the requests of the rings up to `m`. */
  ghost predicate RingState(net: Net, q: Quest, now: Time, i: nat, m: nat) {
    && i <= m && m - i < 0x1_0000_0000
    && Clean(net, q, now) && AtRing(net.nodes[q.o], q.d, i) && q.reach == RingSearch.TtlAt(net.nodes[q.o].cfg, i)
    && AllNew(net, q.o, Ids(q.id, m - i))
    && net.nodes[q.o].search.rreqCount + (m - i) < net.nodes[q.o].cfg.rreqRateLimit
  }

  /** The launched network, as far as the next ring is concerned. */
  lemma LaunchKeeps(net: Net, q: Quest, now: Time, i: nat, m: nat)
    requires RingState(net, q, now, i, m) && i < m
    ensures var net1 := Launched(net, q, now);
            && AllNew(net1, q.o, Ids(q.id, m - i)) && SameConfig(net, net1) && q.o in net1.nodes
            && RingSearch.Waiting(net1.nodes[q.o], q.d, i, now) && net1.nodes[q.o].ctr.requestId == q.id
            && net1.nodes[q.o].search.rreqCount == net.nodes[q.o].search.rreqCount + 1
  {
    hide Unaware, SendRequest, AllCopies, Lasting, RingSearch.Waiting, AtRing, Ids, CleanNode, NextTtl;
    CleanOriginator(net, q, now);
    IdsShift(q.id, m - i);
    var s := net.nodes[q.o];
    CleanPurge(s, q, {q.d}, now);
    LaunchWaits(s, q.d, i, now);
    forall id | id in Ids(q.id, m - i) ensures Unaware(SendRequest(s, q.d, now), IdCaches.Key(q.o, id)) {
      RecordsOnlyItsOwn(s, q, IdCaches.Key(q.o, id), now);
    }
  }

  /** What the originator looks like after a ring that found nothing. */
  lemma WaitsStill(s: Node, s': Node, d: Addr, i: nat, t: Time)
    requires RingSearch.Sensible(s.cfg) && RingSearch.Waiting(s, d, i, t) && SameSearch(s, s', d) && s'.cfg == s.cfg
    ensures RingSearch.Waiting(s', d, i, t) && s'.ctr.requestId == s.ctr.requestId
    ensures s'.search.rreqCount == s.search.rreqCount
  {
    hide RingSearch.TtlAt, RingSearch.CountAt, RingSearch.WaitAt;
  }

  lemma WaitingNext(s: Node, d: Addr, i: nat, t: Time)
    requires RingSearch.Sensible(s.cfg) && RingSearch.Waiting(s, d, i, t) && RingSearch.NoWrap(s.cfg)
    requires i + 1 < RingSearch.Attempts(s.cfg)
    requires s.Purged(t + RingSearch.WaitAt(s.cfg, i)) == s.table && s.search.rreqCount != s.cfg.rreqRateLimit
    ensures var now := t + RingSearch.WaitAt(s.cfg, i); var s' := RingSearch.Fired(s, d, now);
            && AtRing(s', d, i + 1) && Enabled(s, RetryTimer(d), now)
            && d in s.table && s.table[d].info.flag == IN_SEARCH && s.table[d].info.reqCnt != s.cfg.rreqRetries
            && NextTtl(s.cfg, s.table[d].info) == RingSearch.TtlAt(s.cfg, i + 1)
  {
    hide Purge, RingSearch.TtlAt, RingSearch.CountAt, RingSearch.WaitAt, RingSearch.NoWrap, NextTtl;
    RingSearch.CountBelow(s.cfg, i);
    var now := t + RingSearch.WaitAt(s.cfg, i);
    var s' := RingSearch.Fired(s, d, now);
    assert AtRing(s', d, i + 1);
    NextTtlAt(s', d, i + 1, now);
  }

  /** The ring of request number `i + 1` has come to rest without a route. */
  ghost predicate Missed(net: Net, q: Quest, now: Time, run: seq<(nat, Time)>) {
    && q.o in net.nodes && Deliveries(Launched(net, q, now), run, now, q.until)
    && After(Launched(net, q, now), run, now, q.until).flight == []
    && !Routed(After(Launched(net, q, now), run, now, q.until), q)
  }

  /** A network at rest after ring `i`. */
  ghost predicate Between(net: Net, end: Net, q: Quest, now: Time, i: nat, m: nat)
    requires i <= m && q.o in net.nodes && RingSearch.Sensible(net.nodes[q.o].cfg)
  {
    && SameConfig(net, end) && Frame(end, q) && Good(end, q) && AllNew(end, q.o, Ids(q.id, m - i)) && end.flight == []
    && q.o in end.nodes && RingSearch.Waiting(end.nodes[q.o], q.d, i, now)
    && end.nodes[q.o].ctr.requestId == q.id
    && end.nodes[q.o].search.rreqCount == net.nodes[q.o].search.rreqCount + 1
    && (forall a :: a in end.nodes && a != q.o && a != q.d ==> q.d !in end.nodes[a].table)
  }

  /** What is left of it. */
  lemma MissedLeaves(net: Net, q: Quest, now: Time, i: nat, m: nat, run: seq<(nat, Time)>)
    requires RingState(net, q, now, i, m) && i < m && Missed(net, q, now, run)
    ensures Between(net, After(Launched(net, q, now), run, now, q.until), q, now, i, m)
  {
    hide Launched, Full, Clean, Deliver, Aware, Routed, AllNew, Ids, AtRing, RingSearch.Waiting, Work, Frame, Good;
    var net1 := Launched(net, q, now);
    var end := After(net1, run, now, q.until);
    CleanTime(net, q, now);
    AtRingSensible(net.nodes[q.o], q.d, i);
    Launch(net, q, now);
    LaunchKeeps(net, q, now, i, m);
    IdsShift(q.id, m - i);
    var depth := RunFull(net1, q, map[], run, now);
    AtRestMissed(end, q, depth);
    MissRun(net1, q, map[], run, Ids(q.id, m - i), now);
    WaitsStill(net1.nodes[q.o], end.nodes[q.o], q.d, i, now);
    FullParts(end, q, depth);
  }

  lemma AtRingSensible(s: Node, d: Addr, i: nat)
    requires AtRing(s, d, i)
    ensures RingSearch.Sensible(s.cfg) && RingSearch.NoWrap(s.cfg)
  {
  }

  lemma FullParts(net: Net, q: Quest, depth: map<Addr, int>)
    requires Full(net, q, depth)
    ensures Frame(net, q) && Good(net, q)
  {
    hide Frame, Good, Depths, ForwardRoutes, Flying, Answers, Levels, Covered;
  }

  lemma NextClean(net: Net, end: Net, q: Quest, q': Quest, now: Time, i: nat, m: nat, t: Time)
    requires RingState(net, q, now, i, m) && i < m && Between(net, end, q, now, i, m)
    requires q' == q.(id := Wrap32(q.id + 1), reach := q'.reach) && q'.reach >= 1 && now <= t <= q.until
    requires forall a :: a in net.nodes ==> Lasting(net.nodes[a].cfg, q.life, q'.reach)
    requires NextSend(RingSearch.Fired(end.nodes[q.o], q.d, t), q')
    ensures q.o in end.nodes && Clean(Retried(end, q, t), q', t) && end.nodes[q.o].Purged(t) == end.nodes[q.o].table
  {
    hide AtRing, NextSend, RingSearch.Waiting, RingSearch.WaitAt, RingSearch.TtlAt, RingSearch.Fired, Frame, GoodNode,
         Lasting, CleanNode, Ids, Unaware;
    var net' := Retried(end, q, t);
    IdsShift(q.id, m - i);
    assert GoodNode(end.nodes[q.o], q, Sought(q, q.o));
    FiredClean(end.nodes[q.o], q, q', t);
    FrameNext(end, net', q, q');
    forall a | a in end.nodes && a != q.o ensures CleanNode(end.nodes[a], q', Sought(q', a)) {
      assert GoodNode(end.nodes[a], q, Sought(q, a));
      StillClean(end.nodes[a], q, q', Sought(q, a));
    }
    TimelyLater(net, q, now);
  }

  lemma TimelyLater(net: Net, q: Quest, now: Time)
    requires Clean(net, q, now)
    ensures now <= q.until <= now + q.life
  {
    hide Frame, CleanNode, NextSend;
  }

  /** The timer is due, and its handler sends the request of the next ring. */
  lemma NextFires(net: Net, end: Net, q: Quest, q': Quest, now: Time, i: nat, m: nat)
    requires RingState(net, q, now, i, m) && i < m && Between(net, end, q, now, i, m) && Able(net, q, i + 1)
    requires now <= now + RingSearch.WaitAt(net.nodes[q.o].cfg, i) <= q.until
    requires q' == q.(id := Wrap32(q.id + 1), reach := RingSearch.TtlAt(net.nodes[q.o].cfg, i + 1))
    ensures var t := now + RingSearch.WaitAt(net.nodes[q.o].cfg, i);
            && q.o in end.nodes && q.d in end.nodes[q.o].table && Enabled(end.nodes[q.o], RetryTimer(q.d), t)
            && q' == NextQuest(end, q) && Retry(end, q, t) == Launched(Retried(end, q, t), q', t)
  {
    hide Clean, Frame, Good, Launched, Retry, Retried, RingSearch.Waiting, RingSearch.WaitAt, RingSearch.TtlAt, NextTtl,
         Lasting, Ids, Unaware, AllNew, AtRing, Purge, RingSearch.Attempts, Enabled;
    var t := now + RingSearch.WaitAt(net.nodes[q.o].cfg, i);
    RingStart(net, q, now, i, m);
    GoodPurged(end, q, t);
    WaitingNext(end.nodes[q.o], q.d, i, now);
    RetryIsLaunch(end, q, q', t);
  }

  lemma NextState(net: Net, end: Net, q: Quest, q': Quest, now: Time, i: nat, m: nat)
    requires RingState(net, q, now, i, m) && i < m && Between(net, end, q, now, i, m) && Able(net, q, i + 1)
    requires now <= now + RingSearch.WaitAt(net.nodes[q.o].cfg, i) <= q.until
    requires q' == q.(id := Wrap32(q.id + 1), reach := RingSearch.TtlAt(net.nodes[q.o].cfg, i + 1))
    ensures var t := now + RingSearch.WaitAt(net.nodes[q.o].cfg, i);
            q.o in end.nodes && RingState(Retried(end, q, t), q', t, i + 1, m) && SameConfig(net, Retried(end, q, t))
  {
    hide Clean, Frame, Good, RingSearch.Waiting, RingSearch.WaitAt, RingSearch.TtlAt, Lasting, Ids, Unaware, AllNew,
         AtRing, Purge, RingSearch.Attempts, Enabled, NextSend, RingSearch.Fired, SameConfig, Retried;
    var t := now + RingSearch.WaitAt(net.nodes[q.o].cfg, i);
    RetriedShape(net, end, q, t);
    RingStart(net, q, now, i, m);
    IdsShift(q.id, m - i);
    GoodPurged(end, q, t);
    WaitingNext(end.nodes[q.o], q.d, i, now);
    NextSends(net, end, q, q', now, i, m);
    NextClean(net, end, q, q', now, i, m, t);
    RetriedNew(end, q, t, Ids(q.id, m - i), Ids(q'.id, m - (i + 1)));
  }

  lemma RetriedShape(net: Net, end: Net, q: Quest, now: Time)
    requires SameConfig(net, end) && q.o in net.nodes && q.o in end.nodes
    ensures var net' := Retried(end, q, now);
            && SameConfig(net, net') && q.o in net'.nodes
            && net'.nodes[q.o] == RingSearch.Fired(end.nodes[q.o], q.d, now)
            && net'.nodes[q.o].cfg == net.nodes[q.o].cfg == end.nodes[q.o].cfg
            && net'.nodes[q.o].search.rreqCount == end.nodes[q.o].search.rreqCount
  {
    hide Purge;
  }

  lemma RetriedNew(net: Net, q: Quest, now: Time, ids: set<U32>, fewer: set<U32>)
    requires q.o in net.nodes && AllNew(net, q.o, ids) && fewer <= ids
    ensures AllNew(Retried(net, q, now), q.o, fewer)
  {
  }

  lemma GoodPurged(net: Net, q: Quest, now: Time)
    requires Good(net, q) && q.o in net.nodes && now <= q.until
    ensures net.nodes[q.o].Purged(now) == net.nodes[q.o].table
  {
    hide Steady, OpenUntil, Knows, Unaware;
    var s := net.nodes[q.o];
    assert GoodNode(s, q, Sought(q, q.o));
    SteadyPurge(s.table, s.ifaces[0], q.until, {q.d}, now, s.cfg.badLinkLifetime);
  }

  /** The request of the next ring is what the node sends next. */
  lemma NextSends(net: Net, end: Net, q: Quest, q': Quest, now: Time, i: nat, m: nat)
    requires RingState(net, q, now, i, m) && i < m && Between(net, end, q, now, i, m)
    requires i + 1 < RingSearch.Attempts(net.nodes[q.o].cfg)
    requires q' == q.(id := Wrap32(q.id + 1), reach := q'.reach)
    requires q'.reach == RingSearch.TtlAt(net.nodes[q.o].cfg, i + 1)
    requires var t := now + RingSearch.WaitAt(net.nodes[q.o].cfg, i); end.nodes[q.o].Purged(t) == end.nodes[q.o].table
    ensures NextSend(RingSearch.Fired(end.nodes[q.o], q.d, now + RingSearch.WaitAt(net.nodes[q.o].cfg, i)), q')
  {
    hide AtRing, Frame, Good, Lasting, CleanNode, Ids, AllNew, RingSearch.Waiting, RingSearch.WaitAt, RingSearch.TtlAt,
         NextTtl, Purge, RingSearch.Attempts;
    RingStart(net, q, now, i, m);
    WaitingNext(end.nodes[q.o], q.d, i, now);
  }

  /** When ring `i` has come to rest without a route, its timer is due after its
      wait, and what the timer's handler finds is the start of ring `i + 1`. */
  lemma NextRing(net: Net, q: Quest, now: Time, i: nat, m: nat, run: seq<(nat, Time)>)
    requires RingState(net, q, now, i, m) && i < m && Missed(net, q, now, run) && Able(net, q, i + 1)
    requires now <= now + RingSearch.WaitAt(net.nodes[q.o].cfg, i) <= q.until
    ensures var t := now + RingSearch.WaitAt(net.nodes[q.o].cfg, i);
            var end := After(Launched(net, q, now), run, now, q.until);
            && q.o in end.nodes && q.d in end.nodes[q.o].table && Enabled(end.nodes[q.o], RetryTimer(q.d), t)
            && var q' := NextQuest(end, q);
            && q' == q.(id := Wrap32(q.id + 1), reach := RingSearch.TtlAt(net.nodes[q.o].cfg, i + 1))
            && RingState(Retried(end, q, t), q', t, i + 1, m) && SameConfig(net, Retried(end, q, t))
            && Retry(end, q, t) == Launched(Retried(end, q, t), q', t)
  {
    hide RingState, Launched, Deliver, Routed, RingSearch.WaitAt, RingSearch.TtlAt, Between, Retry, Retried,
         NextQuest, Able, SameConfig, Enabled;
    var end := After(Launched(net, q, now), run, now, q.until);
    RingStart(net, q, now, i, m);
    MissedLeaves(net, q, now, i, m, run);
    AbleReach(net, q, i + 1);
    var q' := q.(id := Wrap32(q.id + 1), reach := RingSearch.TtlAt(net.nodes[q.o].cfg, i + 1));
    NextFires(net, end, q, q', now, i, m);
    NextState(net, end, q, q', now, i, m);
  }

  lemma AbleReach(net: Net, q: Quest, i: nat)
    requires Able(net, q, i)
    ensures 1 <= RingSearch.TtlAt(net.nodes[q.o].cfg, i) <= 255
  {
    hide Lasting;
  }

  lemma RingStart(net: Net, q: Quest, now: Time, i: nat, m: nat)
    requires RingState(net, q, now, i, m)
    ensures q.o in net.nodes && RingSearch.Sensible(net.nodes[q.o].cfg) && RingSearch.NoWrap(net.nodes[q.o].cfg)
    ensures i < RingSearch.Attempts(net.nodes[q.o].cfg) && q.until <= now + q.life
    ensures Launched(net, q, now).nodes.Keys == net.nodes.Keys && Launched(net, q, now).links == net.links
  {
    hide Lasting, CleanNode, SendRequest;
  }

  // ---------------------------------------------------------------------
  // Ring after ring

  function LastAt(from: Time, run: seq<(nat, Time)>): Time {
    if run == [] then from else run[|run| - 1].1
  }

  /** The retry timer of the originator runs and is not due before `last`. */
  predicate CanRetry(net: Net, q: Quest, last: Time) {
    && q.o in net.nodes && q.d in net.nodes[q.o].table
    && q.d in net.nodes[q.o].search.timers && net.nodes[q.o].search.timers[q.d].Some?
    && last <= net.nodes[q.o].search.timers[q.d].value && !net.nodes[q.o].search.aborted
  }

  function Expiry(net: Net, q: Quest): Time
    requires q.o in net.nodes
    requires q.d in net.nodes[q.o].search.timers && net.nodes[q.o].search.timers[q.d].Some?
  {
    net.nodes[q.o].search.timers[q.d].value
  }

  /** `rounds` are the deliveries of one ring after the other, the first of which
      has just been launched: each comes to rest, and as long as there is no
      route the timer fires and the next ring goes out. */
  ghost predicate Rings(net: Net, q: Quest, now: Time, rounds: seq<seq<(nat, Time)>>)
    decreases |rounds|
  {
    && rounds != [] && Deliveries(net, rounds[0], now, q.until)
    && var end := After(net, rounds[0], now, q.until);
    && end.flight == []
    && (|rounds| > 1 ==>
          && !Routed(end, q) && CanRetry(end, q, LastAt(now, rounds[0]))
          && Rings(Retry(end, q, Expiry(end, q)), NextQuest(end, q), Expiry(end, q), rounds[1..]))
  }

  ghost function RingsEnd(net: Net, q: Quest, now: Time, rounds: seq<seq<(nat, Time)>>): Net
    requires Rings(net, q, now, rounds)
    decreases |rounds|
  {
    var end := After(net, rounds[0], now, q.until);
    if |rounds| == 1 then end
    else RingsEnd(Retry(end, q, Expiry(end, q)), NextQuest(end, q), Expiry(end, q), rounds[1..])
  }

  /** Ring `m` is the last one: all up to it fit the lifetimes, go out before the
      window ends, and its TTL is large enough for the network. */
  ghost predicate Enough(net: Net, q: Quest, now: Time, i: nat, m: nat) {
    && (forall j :: i <= j <= m ==> Able(net, q, j))
    && q.o in net.nodes && RingSearch.Sensible(net.nodes[q.o].cfg)
    && net.nodes[q.o].cfg.nodeTraversalTime >= 0 && net.nodes[q.o].cfg.netTraversalTime >= 0
    && now + RingSearch.TotalWait(net.nodes[q.o].cfg, m) - RingSearch.TotalWait(net.nodes[q.o].cfg, i) <= q.until
    && RingSearch.TtlAt(net.nodes[q.o].cfg, m) >= |net.nodes| - 1
  }

  lemma WaitNatural(cfg: Config, i: nat)
    requires RingSearch.Sensible(cfg) && cfg.nodeTraversalTime >= 0 && cfg.netTraversalTime >= 0
    ensures RingSearch.WaitAt(cfg, i) >= 0
  {
    hide RingSearch.Rings, Pow2;
    RingSearch.RingBounds(cfg, i);
    if i < RingSearch.Rings(cfg) {
      ProductNatural(2 * cfg.nodeTraversalTime, RingSearch.TtlAt(cfg, i) + cfg.timeoutBuffer);
    } else {
      ProductNatural(cfg.netTraversalTime, Pow2(i - RingSearch.Rings(cfg)));
    }
  }

  lemma ProductNatural(a: int, b: int)
    requires a >= 0 && b >= 0
    ensures a * b >= 0
  {
  }

  lemma {:induction false} WaitsGrow(cfg: Config, i: nat, m: nat)
    requires RingSearch.Sensible(cfg) && cfg.nodeTraversalTime >= 0 && cfg.netTraversalTime >= 0 && i <= m
    ensures RingSearch.TotalWait(cfg, i) <= RingSearch.TotalWait(cfg, m)
    decreases m
  {
    hide RingSearch.WaitAt, RingSearch.Sensible;
    if i < m {
      WaitsGrow(cfg, i, m - 1);
      WaitNatural(cfg, m - 1);
    }
  }

  lemma EnoughNext(net: Net, net': Net, q: Quest, q': Quest, now: Time, i: nat, m: nat)
    requires Enough(net, q, now, i, m) && i < m && SameConfig(net, net')
    requires q' == q.(id := q'.id, reach := q'.reach)
    ensures RingSearch.WaitAt(net.nodes[q.o].cfg, i) >= 0
    ensures now + RingSearch.WaitAt(net.nodes[q.o].cfg, i) <= q.until && Able(net, q, i + 1)
    ensures Enough(net', q', now + RingSearch.WaitAt(net.nodes[q.o].cfg, i), i + 1, m)
  {
    hide RingSearch.WaitAt, RingSearch.TtlAt, RingSearch.Sensible, RingSearch.NoWrap, RingSearch.Attempts, Lasting;
    var cfg := net.nodes[q.o].cfg;
    WaitNatural(cfg, i);
    WaitsGrow(cfg, i + 1, m);
    assert RingSearch.TotalWait(cfg, i + 1) == RingSearch.TotalWait(cfg, i) + RingSearch.WaitAt(cfg, i);
    assert |net'.nodes| == |net'.nodes.Keys| == |net.nodes.Keys| == |net.nodes|;
    forall j | i + 1 <= j <= m ensures Able(net', q', j) {
      assert Able(net, q, j);
    }
  }

  lemma SamePath(net: Net, net': Net, path: seq<Addr>, a: Addr, b: Addr)
    requires Connects(net, path, a, b) && net'.nodes.Keys == net.nodes.Keys && net'.links == net.links
    ensures Connects(net', path, a, b)
  {
  }

  /** The ring search from ring `i` on finds the destination: it never goes past
      the first ring whose TTL is large enough, and when that one has come to
      rest the originator has a valid route. */
  lemma {:induction false} RingsSucceed(net: Net, q: Quest, now: Time, i: nat, m: nat, rounds: seq<seq<(nat, Time)>>,
                                        path: seq<Addr>)
    requires RingState(net, q, now, i, m) && Enough(net, q, now, i, m) && Connects(net, path, q.o, q.d)
    requires Rings(Launched(net, q, now), q, now, rounds)
    ensures |rounds| <= m - i + 1
    ensures |rounds| == m - i + 1 ==> Routed(RingsEnd(Launched(net, q, now), q, now, rounds), q)
    decreases |rounds|
  {
    hide Launched, Deliver, Routed, Connects, AtRing, AllNew, Clean, Ids, Retry, NextQuest, Retried, RingSearch.TtlAt,
         RingSearch.WaitAt, RingSearch.TotalWait, RingSearch.Sensible, Lasting, Enabled;
    var end := After(Launched(net, q, now), rounds[0], now, q.until);
    if i == m {
      DiscoverySucceeds(net, q, now, rounds[0], path);
    } else if |rounds| > 1 {
      EnoughNext(net, net, q, q, now, i, m);
      NextRing(net, q, now, i, m, rounds[0]);
      var t := now + RingSearch.WaitAt(net.nodes[q.o].cfg, i);
      EnabledAt(end.nodes[q.o], q.d, t);
      var net', q' := Retried(end, q, t), NextQuest(end, q);
      EnoughNext(net, net', q, q', now, i, m);
      SamePath(net, net', path, q.o, q.d);
      RingsSucceed(net', q', t, i + 1, m, rounds[1..], path);
      SameEnds(RingsEnd(Launched(net', q', t), q', t, rounds[1..]), q, q');
    }
  }

  lemma EnabledAt(s: Node, d: Addr, t: Time)
    requires Enabled(s, RetryTimer(d), t)
    ensures d in s.search.timers && s.search.timers[d] == Some(t) && !s.search.aborted
  {
  }

  lemma SameEnds(net: Net, q: Quest, q': Quest)
    requires q'.o == q.o && q'.d == q.d
    ensures Routed(net, q') <==> Routed(net, q)
  {
  }

  /** Such a search is possible: delivering everything before the next timer is due
      gives rings that end with a route. */
  lemma {:induction false} RingsFind(net: Net, q: Quest, now: Time, i: nat, m: nat, path: seq<Addr>)
    returns (rounds: seq<seq<(nat, Time)>>)
    requires RingState(net, q, now, i, m) && Enough(net, q, now, i, m) && Connects(net, path, q.o, q.d)
    ensures Rings(Launched(net, q, now), q, now, rounds) && |rounds| <= m - i + 1
    ensures Routed(RingsEnd(Launched(net, q, now), q, now, rounds), q)
    decreases m - i
  {
    hide Launched, Deliver, Routed, Connects, AtRing, AllNew, Clean, Ids, Retry, NextQuest, Retried, RingSearch.TtlAt,
         RingSearch.WaitAt, RingSearch.TotalWait, RingSearch.Sensible, Lasting, Enabled;
    var run := RunToRest(net, q, now);
    var end := After(Launched(net, q, now), run, now, q.until);
    if i == m || Routed(end, q) {
      rounds := [run];
      RingsSucceed(net, q, now, i, m, rounds, path);
    } else {
      EnoughNext(net, net, q, q, now, i, m);
      NextRing(net, q, now, i, m, run);
      var t := now + RingSearch.WaitAt(net.nodes[q.o].cfg, i);
      EnabledAt(end.nodes[q.o], q.d, t);
      var net', q' := Retried(end, q, t), NextQuest(end, q);
      EnoughNext(net, net', q, q', now, i, m);
      SamePath(net, net', path, q.o, q.d);
      var rest := RingsFind(net', q', t, i + 1, m, path);
      rounds := [run] + rest;
      assert rounds[1..] == rest;
      SameEnds(RingsEnd(Launched(net', q', t), q', t, rest), q, q');
    }
  }

  // ---------------------------------------------------------------------
  // The default parameters

  /** The default search for a node `d` that starts at time zero. */
  function DefaultQuest(o: Addr, d: Addr): Quest { Quest(o, d, 1, 1, 2 * SECOND, 2 * SECOND) }

  /** The first ring with a TTL of at least `n - 1`: they go out with 1, 3, 5, 7 and 35. */
  function RingFor(n: nat): nat {
    if n <= 2 then 0 else if n <= 4 then 1 else if n <= 6 then 2 else if n <= 8 then 3 else 4
  }

  lemma RingForIsFirst(n: nat)
    requires n <= 36
    ensures RingSearch.Sensible(DEFAULTS)
    ensures RingSearch.TtlAt(DEFAULTS, RingFor(n)) >= n - 1
    ensures forall i: nat :: i < RingFor(n) ==> RingSearch.TtlAt(DEFAULTS, i) < n - 1
  {
  }

  /** The rings up to the first one at the diameter go out within 1.92 s. */
  lemma DefaultWaits(m: nat)
    requires m <= 4
    ensures RingSearch.Sensible(DEFAULTS) && RingSearch.TotalWait(DEFAULTS, m) <= 1920 * MILLISECOND
    ensures RingSearch.TotalWait(DEFAULTS, 0) == 0
  {
    WaitsGrow(DEFAULTS, m, 4);
    RingSearch.RingWaitIs(DEFAULTS, 4);
  }

  /** A new node is at the first ring of any search and has heard of nothing. */
  lemma NewNodeAtRing(s: Node, d: Addr, o: Addr, id: U32)
    requires JustStarted(s, DEFAULTS) && |s.ifaces| == 1 && d != LOOPBACK && d != s.ifaces[0].broadcast
    ensures AtRing(s, d, 0) && Unaware(s, IdCaches.Key(o, id)) && s.search.rreqCount == 0
    ensures s.cfg == DEFAULTS
  {
    hide JustStarted, RingSearch.Rings, RingSearch.Attempts, Calmly;
    JustStartedIsClean(s, DEFAULTS, Quest(o, d, id, 1, 0, 0), {});
    DefaultRings();
  }

  lemma DefaultRings()
    ensures RingSearch.Sensible(DEFAULTS) && RingSearch.NoWrap(DEFAULTS) && RingSearch.Attempts(DEFAULTS) == 6
    ensures RingSearch.TtlAt(DEFAULTS, 0) == 1
  {
    RingSearch.DefaultSearch();
  }

  lemma DefaultClean(net: Net, o: Addr, d: Addr)
    requires NewNetwork(net, DEFAULTS) && o in net.nodes && d in net.nodes && o != d
    ensures Clean(net, DefaultQuest(o, d), 0)
  {
    hide Clean, Lasting, NewNetwork;
    DefaultsLast();
    LastingLess(DEFAULTS, 2 * SECOND, DEFAULTS.netDiameter, 1);
    NewNetworkIsClean(net, DEFAULTS, DefaultQuest(o, d));
  }

  lemma NewNetworkNode(net: Net, d: Addr, a: Addr)
    requires NewNetwork(net, DEFAULTS) && a in net.nodes && d in net.nodes
    ensures var s := net.nodes[a];
            && JustStarted(s, DEFAULTS) && |s.ifaces| == 1 && d != LOOPBACK && d != s.ifaces[0].broadcast
  {
    hide JustStarted;
  }

  lemma DefaultState(net: Net, o: Addr, d: Addr, m: nat)
    requires NewNetwork(net, DEFAULTS) && o in net.nodes && d in net.nodes && o != d && m <= 4
    ensures RingState(net, DefaultQuest(o, d), 0, 0, m)
  {
    hide Clean, NewNetwork, JustStarted, AtRing, Unaware, Ids, RingSearch.TtlAt;
    DefaultClean(net, o, d);
    DefaultRings();
    forall a, id | a in net.nodes && id in Ids(1, m) ensures Unaware(net.nodes[a], IdCaches.Key(o, id)) {
      NewNetworkNode(net, d, a);
      NewNodeAtRing(net.nodes[a], d, o, id);
    }
    NewNetworkNode(net, d, o);
    NewNodeAtRing(net.nodes[o], d, o, 1);
  }

  lemma DefaultAble(net: Net, q: Quest, i: nat)
    requires (forall a :: a in net.nodes ==> net.nodes[a].cfg == DEFAULTS) && q.o in net.nodes && i <= 4
    requires q.life == 2 * SECOND
    ensures Able(net, q, i)
  {
    hide Lasting;
    DefaultRings();
    DefaultsLast();
    LastingLess(DEFAULTS, 2 * SECOND, DEFAULTS.netDiameter, RingSearch.TtlAt(DEFAULTS, i));
  }

  lemma DefaultEnough(net: Net, o: Addr, d: Addr)
    requires NewNetwork(net, DEFAULTS) && o in net.nodes && d in net.nodes && o != d && |net.nodes| <= 36
    ensures Enough(net, DefaultQuest(o, d), 0, 0, RingFor(|net.nodes|))
  {
    hide NewNetwork, JustStarted, Able, AtRing, Unaware, RingSearch.TtlAt, RingSearch.TotalWait, RingSearch.Sensible;
    forall a | a in net.nodes ensures net.nodes[a].cfg == DEFAULTS {
      NewNetworkNode(net, d, a);
      NewNodeAtRing(net.nodes[a], d, o, 1);
    }
    RingForIsFirst(|net.nodes|);
    DefaultWaits(RingFor(|net.nodes|));
    forall j | 0 <= j <= RingFor(|net.nodes|) ensures Able(net, DefaultQuest(o, d), j) {
      DefaultAble(net, DefaultQuest(o, d), j);
    }
  }

  /** With the default parameters the search of two connected nodes in a network
      of up to 36 new nodes succeeds at the latest at the first ring whose TTL is
      at least the number of nodes less one, whatever the order and the delays
      of the deliveries between two rings. */
  lemma DefaultSearchSucceeds(net: Net, o: Addr, d: Addr, path: seq<Addr>, rounds: seq<seq<(nat, Time)>>)
    requires NewNetwork(net, DEFAULTS) && o in net.nodes && d in net.nodes && o != d && |net.nodes| <= 36
    requires var q := DefaultQuest(o, d); Connects(net, path, o, d) && Rings(Launched(net, q, 0), q, 0, rounds)
    ensures var q := DefaultQuest(o, d);
            && |rounds| <= RingFor(|net.nodes|) + 1
            && (|rounds| == RingFor(|net.nodes|) + 1 ==> Routed(RingsEnd(Launched(net, q, 0), q, 0, rounds), q))
  {
    hide Launched, Deliver, Routed, Connects, NewNetwork, RingState, Enough, Rings, RingsEnd;
    DefaultState(net, o, d, RingFor(|net.nodes|));
    DefaultEnough(net, o, d);
    RingsSucceed(net, DefaultQuest(o, d), 0, 0, RingFor(|net.nodes|), rounds, path);
  }

  lemma DefaultSearchFinds(net: Net, o: Addr, d: Addr, path: seq<Addr>) returns (rounds: seq<seq<(nat, Time)>>)
    requires NewNetwork(net, DEFAULTS) && o in net.nodes && d in net.nodes && o != d && |net.nodes| <= 36
    requires Connects(net, path, o, d)
    ensures var q := DefaultQuest(o, d);
            && Rings(Launched(net, q, 0), q, 0, rounds) && |rounds| <= RingFor(|net.nodes|) + 1
            && Routed(RingsEnd(Launched(net, q, 0), q, 0, rounds), q)
  {
    hide Launched, Deliver, Routed, Connects, NewNetwork, RingState, Enough, Rings, RingsEnd;
    DefaultState(net, o, d, RingFor(|net.nodes|));
    DefaultEnough(net, o, d);
    rounds := RingsFind(net, DefaultQuest(o, d), 0, 0, RingFor(|net.nodes|), path);
  }
}
