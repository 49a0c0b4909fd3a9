/** Why the order of floods matters: a run of three nodes in which one of them
    processes an old request after a newer one, and its route towards the
    originator closes a loop. */
module OutOfOrder {
  import opened Base
  import opened Messages
  import opened RouteTable
  import opened NodeState
  import opened Discovery
  import opened Routes
  import opened NodeEvents
  import opened NodeRuns
  import opened Emissions
  import opened LoopFreedom
  import opened Flood
  import opened SteadyNode
  import opened ReachBound
  import IdCaches
  import PacketQueue

  const O: Addr := 1
  const A: Addr := 2
  const B: Addr := 3

  /** Default parameters, except that the first ring is three hops wide. */
  const WIDER := DEFAULTS.(ttlStart := 3)

  const UNTIL: Time := 2 * SECOND

  lemma WiderLasts(hop: nat)
    requires hop <= 35
    ensures Lasting(WIDER, 2 * SECOND, hop)
  {
  }

  function NewAt(a: Addr): Node { Started(WIDER, [IfaceAt(a)], 0, 0, 0) }

  /** The three nodes, just started, before any flood of `O`. */
  function NewWorld(): World {
    World(map[O := NewAt(O), A := NewAt(A), B := NewAt(B)], {}, 0,
          map[O := Rank(0, 0), A := Rank(0, 0), B := Rank(0, 0)])
  }

  function PacketTo(uid: nat, dst: Addr): PacketQueue.QueueEntry {
    PacketQueue.QueueEntry(uid, PacketQueue.Header(O, dst, 64), -1, 0)
  }

  // ---------------------------------------------------------------------
  // A node that relays

  ghost predicate Ready(s: Node, a: Addr) {
    && Calmly(s, IfaceAt(a), UNTIL, {}) && s.cfg == WIDER && 11 !in s.table && 12 !in s.table
  }

  ghost predicate Fits(x: Airing) {
    && x.req.origin == O && x.req.dst in {11, 12} && x.from in {O, A, B} && x.req.hopCount <= 1 && x.ttl >= 2
  }

  function Next(a: Addr, x: Airing): Airing
    requires Fits(x)
  {
    Airing(a, x.req.(hopCount := x.req.hopCount + 1), x.ttl - 1, x.num)
  }

  lemma HearAt(s: Node, a: Addr, x: Airing)
    requires Ready(s, a) && Fits(x) && a in {A, B} && Unaware(s, KeyOf(x.req))
    ensures var s' := Receive(s, Some(RREQ(x.req)), x.ttl, x.from, IfaceAt(a), 0);
            && Ready(s', a) && O in s'.table && s'.table[O].route.nextHop == x.from
            && s'.log.sent == s.log.sent +
                 [Sent(RREQ(Next(a, x).req), Next(a, x).ttl, IfaceAt(a), IfaceAt(a).BroadcastTarget())]
  {
    hide Calmly, Unaware, Lasting, Receive;
    WiderLasts(x.req.hopCount + 1);
    HearFirst(s, x.req, x.ttl, x.from, IfaceAt(a), UNTIL, 2 * SECOND, 0);
  }

  lemma StaysUnaware(s: Node, a: Addr, x: Airing, key: IdCaches.Key)
    requires Ready(s, a) && Unaware(s, key) && KeyOf(x.req) != key
    ensures Unaware(Receive(s, Some(RREQ(x.req)), x.ttl, x.from, IfaceAt(a), 0), key)
  {
    hide Calmly, Unaware, Knows, Receive;
    AwarenessStep(s, RREQ(x.req), x.ttl, x.from, IfaceAt(a), key, 0, 0);
  }

  lemma AcceptsFirst(s: Node, a: Addr, x: Airing)
    requires Ready(s, a) && Fits(x) && Unaware(s, KeyOf(x.req))
    ensures Accepts(Met(s, x.from, IfaceAt(a), 0), x.req, x.from, 0)
  {
    hide Steady, Unaware, Purge, RouteToNeighbor, IdCaches.Duplicate;
    var s1 := Met(s, x.from, IfaceAt(a), 0);
    MetSteady(s, x.from, IfaceAt(a), UNTIL, {}, 0);
    SteadyPurge(s1.table, IfaceAt(a), UNTIL, {}, 0, s.cfg.badLinkLifetime);
    SteadyEntry(s1.table, IfaceAt(a), UNTIL, {}, x.from);
    UnawareIsNew(s, KeyOf(x.req), 0);
  }

  /** Hearing a request for the first time, seen from the world. */
  lemma HearStep(w: World, a: Addr, x: Airing)
    requires w.rank.Keys == w.nodes.Keys && a in w.nodes && a in {A, B} && x in w.aired && Fits(x)
    requires Ready(w.nodes[a], a) && Unaware(w.nodes[a], KeyOf(x.req))
    ensures var m := Hear(a, x, IfaceAt(a), 0); var w' := Step(w, m, O);
            && (x.num > w.rank[a].num ==> Legal(w, m, O))
            && w'.nodes.Keys == w.nodes.Keys && w'.rank.Keys == w'.nodes.Keys && w'.floods == w.floods
            && (forall c :: c in w.nodes && c != a ==> w'.nodes[c] == w.nodes[c] && w'.rank[c] == w.rank[c])
            && w'.nodes[a] == Receive(w.nodes[a], Some(RREQ(x.req)), x.ttl, x.from, IfaceAt(a), 0)
            && Ready(w'.nodes[a], a) && O in w'.nodes[a].table && w'.nodes[a].table[O].route.nextHop == x.from
            && Processes(w, m) && w'.rank[a].num == x.num
            && w.aired <= w'.aired && Next(a, x) in w'.aired
  {
    hide Calmly, Unaware, Receive, Accepts;
    HearAt(w.nodes[a], a, x);
    AcceptsFirst(w.nodes[a], a, x);
    var s, s' := w.nodes[a], Receive(w.nodes[a], Some(RREQ(x.req)), x.ttl, x.from, IfaceAt(a), 0);
    assert IsRequestOf(s'.log.sent[|s.log.sent|].msg, O);
    assert Next(a, x) in NewAirings(s, s', a, O, x.num);
  }

  // ---------------------------------------------------------------------
  // The originator

  ghost predicate Asking(s: Node, floods: nat) {
    && s.cfg == WIDER && s.ifaces == [IfaceAt(O)] && s.ctr.requestId == floods && s.search.rreqCount == floods
    && (forall e :: e in s.queue ==> e.uid < floods)
    && (forall k :: 12 >= k > 10 + floods ==> k !in s.table)
  }

  lemma QueueTakes(q: seq<PacketQueue.QueueEntry>, uid: nat, dst: Addr, maxLen: nat, timeout: Time, now: Time)
    requires forall e :: e in q ==> e.uid < uid
    ensures PacketQueue.Accepts(q, PacketTo(uid, dst), now)
    ensures forall e :: e in PacketQueue.Enqueue(q, PacketTo(uid, dst), maxLen, timeout, now).queue ==> e.uid < uid + 1
  {
    hide Filter;
    FilterMembers(PacketQueue.IsLive(now), q);
    var live := PacketQueue.Purge(q, now).queue;
    assert forall i :: 0 <= i < |live| ==> live[i] in live;
  }

  /** What the request does, apart from the queue. */
  lemma OriginateAt(s: Node, floods: nat, dst: Addr)
    requires s.cfg == WIDER && s.ifaces == [IfaceAt(O)] && s.search.rreqCount == floods < 2 && dst !in s.table
    ensures var s' := Originate(s, dst, 0);
            && s'.cfg == s.cfg && s'.ifaces == s.ifaces && s'.queue == s.queue
            && s'.ctr.requestId == Wrap32(s.ctr.requestId + 1) && s'.search.rreqCount == floods + 1
            && (forall k :: k in s'.table ==> k in s.table || k == dst)
            && s'.log.sent == s.log.sent +
                 [Sent(RREQ(RequestFor(s, dst, O, 0)), 3, IfaceAt(O), IfaceAt(O).BroadcastTarget())]
  {
    hide RecordOwn, RetryDelay, RequestFor;
    assert s.ifaces[1..] == [];
    assert Requests(s, s.ifaces, dst, 3, 0)
        == [Sent(RREQ(RequestFor(s, dst, O, 0)), 3, IfaceAt(O), IfaceAt(O).BroadcastTarget())];
  }

  /** A packet for a new destination starts a flood. */
  lemma AskAt(s: Node, floods: nat) returns (h: Rreq)
    requires Asking(s, floods) && floods < 2
    ensures var s' := Apply(s, Output(PacketTo(floods, 11 + floods)), 0);
            && Asking(s', floods + 1) && h.id == floods + 1
            && h.origin == O && h.dst == 11 + floods && h.hopCount == 0
            && s'.log.sent == s.log.sent + [Sent(RREQ(h), 3, IfaceAt(O), IfaceAt(O).BroadcastTarget())]
  {
    hide Originate, Purge, PacketQueue.Enqueue, PacketQueue.Accepts;
    var dst: Addr := 11 + floods;
    QueueTakes(s.queue, floods, dst, s.cfg.maxQueueLen, s.cfg.queueTimeout, 0);
    PurgeKeys(s.table, 0, s.cfg.badLinkLifetime);
    var s1 := s.WithQueue(PacketQueue.Enqueue(s.queue, PacketTo(floods, dst), s.cfg.maxQueueLen, s.cfg.queueTimeout, 0))
               .(table := s.Purged(0));
    h := RequestFor(s1, dst, O, 0);
    OriginateAt(s1, floods, dst);
  }

  lemma PurgeKeys(t: Table, now: Time, bad: Time)
    ensures forall k :: k in Purge(t, now, bad) ==> k in t
  {
  }

  /** The flood, seen from the world. */
  lemma AskStep(w: World, floods: nat) returns (x: Airing)
    requires w.rank.Keys == w.nodes.Keys && O in w.nodes && Asking(w.nodes[O], floods) && w.floods == floods < 2
    ensures var m := Other(O, Output(PacketTo(floods, 11 + floods)), 0); var w' := Step(w, m, O);
            && Legal(w, m, O)
            && w'.nodes.Keys == w.nodes.Keys && w'.rank == w.rank && w'.floods == floods + 1
            && (forall c :: c in w.nodes && c != O ==> w'.nodes[c] == w.nodes[c])
            && Asking(w'.nodes[O], floods + 1)
            && w.aired <= w'.aired && x in w'.aired && Fits(x) && x.from == O && x.ttl == 3
            && x.num == floods + 1 && x.req.id == floods + 1 && x.req.hopCount == 0
  {
    hide Apply, Asking;
    var e := Output(PacketTo(floods, 11 + floods));
    var h := AskAt(w.nodes[O], floods);
    x := Airing(O, h, 3, floods + 1);
    var s, s' := w.nodes[O], Apply(w.nodes[O], e, 0);
    assert IsRequestOf(s'.log.sent[|s.log.sent|].msg, O);
    assert x in NewAirings(s, s', O, O, floods + 1);
  }

  // ---------------------------------------------------------------------
  // The run

  lemma NewWorldStarts()
    ensures Start(NewWorld(), O) && Asking(NewWorld().nodes[O], 0)
    ensures forall a :: a in {A, B} ==> Ready(NewWorld().nodes[a], a) && NewWorld().nodes[a].ids == []
  {
    hide Started, TableOk, Steady;
    forall a | a in {O, A, B}
      ensures NodeOk(a, NewWorld().nodes[a]) && O !in NewWorld().nodes[a].table && NewWorld().nodes[a].ids == []
      ensures Ready(NewWorld().nodes[a], a)
    {
      NewNodeReady(a);
    }
    StartedRest(WIDER, [IfaceAt(O)], 0, 0, 0);
  }

  lemma NewNodeReady(a: Addr)
    requires a in {O, A, B}
    ensures var s := NewAt(a);
            NodeOk(a, s) && Ready(s, a) && O !in s.table && s.ids == [] && s.queue == []
  {
    hide Started, TableOk, Steady;
    var s := NewAt(a);
    StartedIsClean(WIDER, IfaceAt(a), 0, 0, FirstQuest(O, 11, 3));
    StartedOk(WIDER, [IfaceAt(a)], 0, 0, 0);
    StartedRest(WIDER, [IfaceAt(a)], 0, 0, 0);
    assert s.ifaces[0].local == a;
  }

  /** How far the run has come: what is on the air, which floods A and B have
      not heard of, and where their routes go. */
  ghost predicate Now(w: World, floods: nat, rankA: nat, rankB: nat, newToA: set<nat>, newToB: set<nat>) {
    && w.nodes.Keys == {O, A, B} == w.rank.Keys && w.floods == floods && Asking(w.nodes[O], floods)
    && Ready(w.nodes[A], A) && Ready(w.nodes[B], B) && w.rank[A].num == rankA && w.rank[B].num == rankB
    && (forall n: U32 :: n in newToA ==> Unaware(w.nodes[A], IdCaches.Key(O, n)))
    && (forall n: U32 :: n in newToB ==> Unaware(w.nodes[B], IdCaches.Key(O, n)))
  }

  ghost predicate RoutesVia(w: World, a: Addr, via: Addr) {
    a in w.nodes && O in w.nodes[a].table && w.nodes[a].table[O].route.nextHop == via
  }

  lemma AskNow(w: World, floods: nat, rankA: nat, rankB: nat, newToA: set<nat>, newToB: set<nat>) returns (x: Airing)
    requires Now(w, floods, rankA, rankB, newToA, newToB) && floods < 2
    ensures var m := Other(O, Output(PacketTo(floods, 11 + floods)), 0); var w' := Step(w, m, O);
            && Legal(w, m, O) && Now(w', floods + 1, rankA, rankB, newToA, newToB) && w.aired <= w'.aired
            && (forall a, via :: a in {A, B} && RoutesVia(w, a, via) ==> RoutesVia(w', a, via))
            && x in w'.aired && Fits(x) && x.from == O && x.ttl == 3 && x.num == floods + 1
            && x.req.id == floods + 1 && x.req.hopCount == 0
  {
    hide Step, Legal, Ready, Asking, Unaware, Fits;
    x := AskStep(w, floods);
  }

  /** A hears a flood that is new to it and to which it has not gone past. */
  lemma HearNowA(w: World, x: Airing, floods: nat, rankA: nat, rankB: nat, newToA: set<nat>, newToB: set<nat>)
    requires Now(w, floods, rankA, rankB, newToA, newToB) && x in w.aired && Fits(x)
    requires x.req.id == x.num && x.num in newToA && x.num > rankA
    ensures var m := Hear(A, x, IfaceAt(A), 0); var w' := Step(w, m, O);
            && Legal(w, m, O) && Now(w', floods, x.num, rankB, newToA - {x.num}, newToB) && w.aired <= w'.aired
            && Next(A, x) in w'.aired && RoutesVia(w', A, x.from)
            && (forall via :: RoutesVia(w, B, via) ==> RoutesVia(w', B, via))
  {
    hide Step, Legal, Ready, Asking, Unaware, Fits, Next, Receive;
    FitsKey(x);
    HearStep(w, A, x);
    var w' := Step(w, Hear(A, x, IfaceAt(A), 0), O);
    forall n: U32 | n in newToA - {x.num} ensures Unaware(w'.nodes[A], IdCaches.Key(O, n)) {
      StaysUnaware(w.nodes[A], A, x, IdCaches.Key(O, n));
    }
  }

  lemma FitsKey(x: Airing)
    requires Fits(x)
    ensures KeyOf(x.req) == IdCaches.Key(O, x.req.id)
  {
  }

  lemma HearNowB(w: World, x: Airing, floods: nat, rankA: nat, rankB: nat, newToA: set<nat>, newToB: set<nat>)
    requires Now(w, floods, rankA, rankB, newToA, newToB) && x in w.aired && Fits(x)
    requires x.req.id == x.num && x.num in newToB
    ensures var m := Hear(B, x, IfaceAt(B), 0); var w' := Step(w, m, O);
            && (x.num > rankB ==> Legal(w, m, O)) && Processes(w, m)
            && Now(w', floods, rankA, x.num, newToA, newToB - {x.num}) && w.aired <= w'.aired
            && Next(B, x) in w'.aired && RoutesVia(w', B, x.from)
            && (forall via :: RoutesVia(w, A, via) ==> RoutesVia(w', A, via))
  {
    hide Step, Legal, Ready, Asking, Unaware, Fits, Next, Receive, Processes;
    FitsKey(x);
    HearStep(w, B, x);
    var w' := Step(w, Hear(B, x, IfaceAt(B), 0), O);
    forall n: U32 | n in newToB - {x.num} ensures Unaware(w'.nodes[B], IdCaches.Key(O, n)) {
      StaysUnaware(w.nodes[B], B, x, IdCaches.Key(O, n));
    }
  }

  lemma StartNow()
    ensures Start(NewWorld(), O) && Now(NewWorld(), 0, 0, 0, {1, 2}, {1, 2})
  {
    hide Started, Ready, Asking, Start;
    NewWorldStarts();
    assert NewWorld().nodes.Keys == {O, A, B};
  }

  lemma NextFits(a: Addr, x: Airing)
    requires Fits(x) && x.req.hopCount == 0 && x.ttl == 3 && a in {A, B}
    ensures Fits(Next(a, x)) && Next(a, x).num == x.num && Next(a, x).req.id == x.req.id && Next(a, x).from == a
  {
  }

  lemma {:induction false} OneMore(w: World, run: seq<Move>, m: Move)
    requires LegalRun(w, run, O) && Legal(Run(w, run, O), m, O)
    ensures LegalRun(w, run + [m], O) && m.at in Run(w, run, O).nodes
    ensures Run(w, run, O).rank.Keys == Run(w, run, O).nodes.Keys
    ensures Run(w, run + [m], O) == Step(Run(w, run, O), m, O)
    decreases |run|
  {
    hide Step;
    if run == [] {
      assert [] + [m] == [m] && [m][1..] == [];
    } else {
      assert (run + [m])[1..] == run[1..] + [m];
      OneMore(Step(w, run[0], O), run[1..], m);
    }
  }

  /** The first flood reaches A, which relays it. */
  lemma FirstFlood() returns (run: seq<Move>, early: Airing)
    ensures Start(NewWorld(), O) && LegalRun(NewWorld(), run, O)
    ensures var w := Run(NewWorld(), run, O);
            && Now(w, 1, 1, 0, {2}, {1, 2}) && early in w.aired && Fits(early)
            && early.from == A && early.num == 1 && early.req.id == 1
  {
    hide Step, Legal, Start, Fits, Next, NewWorld, Now;
    StartNow();
    var w := NewWorld();
    var x := AskNow(w, 0, 0, 0, {1, 2}, {1, 2});
    var m1 := Other(O, Output(PacketTo(0, 11)), 0);
    OneMore(w, [], m1);
    run := [] + [m1];
    HearNowA(Run(w, run, O), x, 1, 0, 0, {1, 2}, {1, 2});
    var m2 := Hear(A, x, IfaceAt(A), 0);
    OneMore(w, run, m2);
    run := run + [m2];
    NextFits(A, x);
    early := Next(A, x);
    assert {1 as nat, 2} - {1} == {2};
  }

  /** The second flood reaches B from O, and A from B. */
  lemma SecondFlood(w: World, first: seq<Move>, early: Airing) returns (run: seq<Move>)
    requires LegalRun(w, first, O) && Now(Run(w, first, O), 1, 1, 0, {2}, {1, 2}) && early in Run(w, first, O).aired
    ensures LegalRun(w, run, O)
    ensures var end := Run(w, run, O);
            Now(end, 2, 2, 2, {}, {1}) && early in end.aired && RoutesVia(end, A, B)
  {
    hide Step, Legal, Fits, Next, Now, RoutesVia;
    var x := AskNow(Run(w, first, O), 1, 1, 0, {2}, {1, 2});
    var m3 := Other(O, Output(PacketTo(1, 12)), 0);
    OneMore(w, first, m3);
    run := first + [m3];
    HearNowB(Run(w, run, O), x, 2, 1, 0, {2}, {1, 2});
    var m4 := Hear(B, x, IfaceAt(B), 0);
    OneMore(w, run, m4);
    run := run + [m4];
    NextFits(B, x);
    assert {1 as nat, 2} - {2} == {1} && {2 as nat} - {2} == {};
    HearNowA(Run(w, run, O), Next(B, x), 2, 1, 2, {2}, {1});
    var m5 := Hear(A, Next(B, x), IfaceAt(A), 0);
    OneMore(w, run, m5);
    run := run + [m5];
  }

  lemma NowNodes(w: World, floods: nat, rankA: nat, rankB: nat, newToA: set<nat>, newToB: set<nat>)
    requires Now(w, floods, rankA, rankB, newToA, newToB)
    ensures w.nodes.Keys == {O, A, B} == w.rank.Keys && w.rank[B].num == rankB
  {
    hide Ready, Asking, Unaware;
  }

  /** Five legal moves and a sixth that is not: A hears the first flood from O, B
      the second from O, A the second from B, and then B hears what A had relayed
      of the first.  The routes of A and B towards O go through each other. */
  lemma ThreeNodesLoop() returns (run: seq<Move>, last: Move)
    ensures Start(NewWorld(), O) && LegalRun(NewWorld(), run, O)
    ensures var w := Run(NewWorld(), run, O);
            && last.Hear? && last.at in w.nodes && last.at != O && w.rank.Keys == w.nodes.Keys && last.airing in w.aired
            && Processes(w, last) && last.airing.num < w.rank[last.at].num
            && Follows(Step(w, last, O).nodes, [A, B, A], O)
  {
    hide Step, Legal, Start, Run, LegalRun, Fits, NewWorld, Processes, Now;
    var first, early := FirstFlood();
    run := SecondFlood(NewWorld(), first, early);
    var w := Run(NewWorld(), run, O);
    last := Hear(B, early, IfaceAt(B), 0);
    NowNodes(w, 2, 2, 2, {}, {1});
    HearNowB(w, early, 2, 2, 2, {}, {1});
    NowNodes(Step(w, last, O), 2, 2, 1, {}, {1 as nat} - {1});
  }
}
