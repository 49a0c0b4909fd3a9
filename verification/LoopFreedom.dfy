/** Reverse routes never loop: however requests of one originator are lost,
    repeated, reordered on the air or mixed with other traffic, as long as no
    node processes one after a later one, following next hops towards the
    originator never comes back to the same node. */
module LoopFreedom {
  import opened Base
  import opened Messages
  import opened RouteTable
  import opened NodeState
  import opened Discovery
  import opened LinkBreak
  import opened Routes
  import opened NodeEvents
  import opened Frames
  import opened NodeFrames
  import opened TableSteps
  import opened Emissions
  import opened NodeRuns
  import IdCaches
  import PacketQueue

  // ---------------------------------------------------------------------
  // One node

  /** The entry for `k`, if there is one, goes through `via` in `hop` hops or straight to `k`. */
  ghost predicate Toward(t: Table, k: Addr, via: Addr, hop: int) {
    k in t ==> (t[k].route.nextHop == via && t[k].info.hops == hop) || (t[k].route.nextHop == k && t[k].info.hops == 1)
  }

  lemma CalmToward(t: Table, t': Table, k: Addr, via: Addr, hop: int)
    requires Toward(t, k, via, hop) && Calm(t, t', k)
    ensures Toward(t', k, via, hop)
  {
  }

  lemma LearnToward(s: Node, h: Rreq, hop: U8, src: Addr, rcv: Iface, now: Time)
    requires TableOk(s.table)
    ensures Toward(LearnFromRequest(s, h, hop, src, rcv, now).table, h.origin, src, hop)
  {
    hide Purge, UpdateNeighbor, Evolves, TableOk;
    var bad := s.cfg.badLinkLifetime;
    var p := s.Purged(now);
    var reverse := ReverseRoute(s.cfg, p, h, hop, src, rcv, now);
    var q := Purge(reverse, now, bad);
    PurgeSpares(reverse, now, bad, {});
    CalmToward(reverse, q, h.origin, src, hop);
    var s1 := s.(table := RelayRoute(s.cfg, q, h, src, rcv, now));
    assert Toward(s1.table, h.origin, src, hop);
    UpdateNeighborQuiet(s1, src, s.cfg.HelloLifetime(), now);
    EvolvesSpares(s1.table, UpdateNeighbor(s1, src, s.cfg.HelloLifetime(), now).table, {});
    CalmToward(s1.table, UpdateNeighbor(s1, src, s.cfg.HelloLifetime(), now).table, h.origin, src, hop);
  }

  /** A node that processes a request from `src` routes to its origin through
      `src` from then on, whatever it knew before. */
  lemma ProcessToward(s: Node, h: Rreq, ttl: U8, src: Addr, rcv: Iface, now: Time)
    requires TableOk(s.table) && h.origin != NO_ADDR
    ensures Toward(ProcessRequest(s, h, ttl, src, rcv, now).table, h.origin, src, Wrap8(h.hopCount + 1))
  {
    hide LearnFromRequest, AnswerRequest, TableOk, StaleEntry, Evolves, Toward;
    var hop := Wrap8(h.hopCount + 1);
    var stale := StaleEntry(s, h, hop, src, rcv, now);
    StaleEntryOk(s, h, hop, src, rcv, now);
    var s2 := LearnFromRequest(s, h, hop, src, rcv, now);
    LearnToward(s, h, hop, src, rcv, now);
    LearnQuiet(s, h, hop, src, rcv, now);
    EvolvesOk(s.table, s2.table, {h.origin});
    AnswerQuiet(s2, h, hop, ttl, src, stale, now);
    EvolvesSpares(s2.table, AnswerRequest(s2, h, hop, ttl, src, stale, now).table, {NO_ADDR});
    CalmToward(s2.table, AnswerRequest(s2, h, hop, ttl, src, stale, now).table, h.origin, src, hop);
  }

  /** The state in which the message itself is handled. */
  function Met(s: Node, sender: Addr, rcv: Iface, now: Time): Node {
    s.(table := RouteToNeighbor(s.cfg, s.table, sender, rcv, now))
  }

  /** The sender of a message is known while the message is handled. */
  lemma MetIn(s: Node, sender: Addr, rcv: Iface, now: Time)
    requires s.cfg.badLinkLifetime >= 0
    ensures sender in Met(s, sender, rcv, now).Purged(now)
  {
  }

  /** What hearing a request does to the route to its origin and what it makes the node send. */
  lemma HearRequest(s: Node, h: Rreq, ttl: U8, src: Addr, rcv: Iface, now: Time)
    requires TableOk(s.table) && h.origin != NO_ADDR
    ensures var s' := Receive(s, Some(RREQ(h)), ttl, src, rcv, now);
            && s'.ifaces == s.ifaces && s.log.sent <= s'.log.sent
            && (if Accepts(Met(s, src, rcv, now), h, src, now)
                then Toward(s'.table, h.origin, src, Wrap8(h.hopCount + 1)) && Relays(s, s'.(ids := s.ids), h, ttl)
                else Calm(s.table, s'.table, h.origin) && s'.log == s.log)
  {
    hide RouteToNeighbor, ProcessRequest, Purge, IdCaches.Record, IdCaches.Duplicate, Evolves, TableOk, Toward, OnEach;
    var s1 := Met(s, src, rcv, now);
    NeighborEvolves(s.cfg, s.table, src, rcv, now);
    EvolvesSpares(s.table, s1.table, {});
    EvolvesOk(s.table, s1.table, {});
    PurgedQuiet(s1, now);
    EvolvesSpares(s1.table, s1.Purged(now), {});
    RecvRequestSends(s1, h, ttl, src, rcv, now);
    if Accepts(s1, h, src, now) {
      var r := Recorded(s1, h, now);
      EvolvesOk(s1.table, r.table, {});
      ProcessToward(r, h, ttl, src, rcv, now);
    } else {
      CalmTrans(s.table, s1.table, s1.Purged(now), h.origin);
    }
  }

  lemma CalmTrans(a: Table, b: Table, c: Table, k: Addr)
    requires Calm(a, b, k) && Calm(b, c, k)
    ensures Calm(a, c, k)
  {
  }

  // ---------------------------------------------------------------------
  // The network

  /** A request put on the air by `from`, one of the `num`-th flood of the originator. */
  datatype Airing = Airing(from: Addr, req: Rreq, ttl: U8, num: nat)

  /** What a node processed last: the flood and the hops it had come. */
  datatype Rank = Rank(num: nat, hop: int) {
    predicate Beats(other: Rank) { num > other.num || (num == other.num && hop < other.hop) }
  }

  /** The nodes, every request of the originator that was ever on the air, the
      floods it has started, and per node the rank of its last processed request. */
  datatype World = World(nodes: map<Addr, Node>, aired: set<Airing>, floods: nat, rank: map<Addr, Rank>)

  /** One node handles one event, or one node hears one request that is or was
      on the air: any number of times, at any moment, anywhere in the network. */
  datatype Move =
    | Other(at: Addr, event: Event, now: Time)
    | Hear(at: Addr, airing: Airing, rcv: Iface, now: Time)

  ghost predicate IsRequestOf(m: Message, o: Addr) { m.RREQ? && m.rreq.origin == o }

  /** The new requests of `o` among what node `a` sent going from `s` to `s'`. */
  ghost function NewAirings(s: Node, s': Node, a: Addr, o: Addr, num: nat): set<Airing> {
    set i | |s.log.sent| <= i < |s'.log.sent| && IsRequestOf(s'.log.sent[i].msg, o) ::
      Airing(a, s'.log.sent[i].msg.rreq, s'.log.sent[i].ttl, num)
  }

  ghost predicate Processes(w: World, m: Move)
    requires m.Hear? && m.at in w.nodes
  {
    Accepts(Met(w.nodes[m.at], m.airing.from, m.rcv, m.now), m.airing.req, m.airing.from, m.now)
  }

  /** Requests of `o` reach a node only by being heard; replies that install a
      forward route to `o` are left out; and nobody processes a request of `o`
      after the same or a later one. */
  ghost predicate Legal(w: World, m: Move, o: Addr) {
    && m.at in w.nodes && w.rank.Keys == w.nodes.Keys
    && match m
       case Other(a, e, now) =>
         && !(e.Receipt? && e.msg.Some? && IsRequestOf(e.msg.value, o))
         && !(e.Receipt? && e.msg.Some? && e.msg.value.RREP? && e.msg.value.rrep.dst == o != e.msg.value.rrep.origin)
       case Hear(a, x, rcv, now) =>
         x in w.aired && (a != o && Processes(w, m) ==> x.num > w.rank[a].num)
  }

  function EventOf(m: Move): Event {
    match m
    case Other(_, e, _) => e
    case Hear(_, x, rcv, _) => Receipt(Some(RREQ(x.req)), x.ttl, x.from, rcv)
  }

  ghost function Step(w: World, m: Move, o: Addr): World
    requires m.at in w.nodes && w.rank.Keys == w.nodes.Keys
  {
    var s := w.nodes[m.at];
    var s' := Apply(s, EventOf(m), m.now);
    var num := if m.Hear? then m.airing.num else w.floods + 1;
    var aired := NewAirings(s, s', m.at, o, num);
    World(w.nodes[m.at := s'], w.aired + aired,
          if m.Other? && aired != {} then w.floods + 1 else w.floods,
          if m.Hear? && Processes(w, m) then w.rank[m.at := Rank(m.airing.num, m.airing.req.hopCount + 1)] else w.rank)
  }

  // ---------------------------------------------------------------------
  // The invariant

  ghost predicate NodeOk(a: Addr, s: Node) {
    TableOk(s.table) && (forall b :: s.IsMyOwnAddress(b) <==> b == a)
  }

  /** The next hop is the originator, nobody, or a node that processed a later
      request, or the same one nearer to the originator. */
  ghost predicate HopOk(w: World, a: Addr, o: Addr)
    requires a in w.nodes && w.rank.Keys == w.nodes.Keys
  {
    o in w.nodes[a].table ==>
      var via := w.nodes[a].table[o].route.nextHop;
      via == o || via == NO_ADDR || (via in w.nodes && w.rank[via].Beats(w.rank[a]))
  }

  /** A request on the air has hops to spare, and whoever relayed it has
      processed it, or a later one since. */
  ghost predicate AiringOk(w: World, x: Airing, o: Addr)
    requires w.rank.Keys == w.nodes.Keys
  {
    && x.from in w.nodes && x.req.origin == o
    && x.req.hopCount <= 254 && x.req.hopCount + x.ttl <= 255
    && (x.from == o || w.rank[x.from].Beats(Rank(x.num, x.req.hopCount + 1)))
  }

  ghost predicate Inv(w: World, o: Addr) {
    && w.rank.Keys == w.nodes.Keys
    && o != NO_ADDR && NO_ADDR !in w.nodes
    && (forall a :: a in w.nodes ==> NodeOk(a, w.nodes[a]))
    && (forall a :: a in w.nodes && a != o ==> HopOk(w, a, o))
    && (forall x :: x in w.aired ==> AiringOk(w, x, o))
  }

  lemma BeatsTrans(a: Rank, b: Rank, c: Rank)
    requires a.Beats(b) && b.Beats(c)
    ensures a.Beats(c)
  {
  }

  // ---------------------------------------------------------------------
  // Events that are not about requests of the originator

  /** The entry for `k` keeps its next hop, or leads to `k` itself or nowhere. */
  ghost predicate HopKept(t: Table, t': Table, k: Addr) {
    k in t' ==>
      || (k in t && t'[k].route.nextHop == t[k].route.nextHop)
      || t'[k].route.nextHop == k || t'[k].route.nextHop == NO_ADDR
  }

  lemma SendRequestHop(s: Node, s1: Node, dst: Addr, now: Time, k: Addr)
    requires s1.table == s.table || s1.table == s.Purged(now)
    ensures HopKept(s.table, SendRequest(s1, dst, now).table, k)
  {
    hide ScheduleRreqRetry, Requests, RecordOwn, NextTtl;
    PurgeSpares(s.table, now, s.cfg.badLinkLifetime, {});
    PurgeSpares(s1.table, now, s1.cfg.badLinkLifetime, {});
    assert HopKept(s.table, s1.table, k) by { assert Calm(s.table, s.Purged(now), k); }
    assert HopKept(s.table, s1.Purged(now), k) by { assert Calm(s1.table, s1.Purged(now), k); }
  }

  lemma RetryHop(s: Node, dst: Addr, now: Time, k: Addr)
    ensures HopKept(s.table, RouteRequestTimerExpire(s, dst, now).table, k)
  {
    hide SendRequest, Purge, WithoutFirst, Filter, Matching, ForwardedAll;
    PurgeSpares(s.table, now, s.cfg.badLinkLifetime, {});
    assert Calm(s.table, s.Purged(now), k);
    SendRequestHop(s, s.(table := s.Purged(now)), dst, now, k);
  }

  lemma OutputHop(s: Node, packet: PacketQueue.QueueEntry, now: Time, k: Addr)
    ensures HopKept(s.table, DeferredRouteOutput(s, packet, now).table, k)
  {
    hide SendRequest, Purge, PacketQueue.Enqueue, PacketQueue.Accepts;
    PurgeSpares(s.table, now, s.cfg.badLinkLifetime, {});
    assert Calm(s.table, s.Purged(now), k);
    var queued := s.WithQueue(PacketQueue.Enqueue(s.queue, packet, s.cfg.maxQueueLen, s.cfg.queueTimeout, now));
    SendRequestHop(s, queued.(table := s.Purged(now)), packet.header.dst, now, k);
  }

  ghost predicate AsksFor(e: Event, k: Addr) {
    (e.Output? && e.packet.header.dst == k) || (e.RetryTimer? && e.dst == k) || (e.Postponed? && e.dst == k)
  }

  lemma EventHop(s: Node, e: Event, now: Time, o: Addr)
    requires TableOk(s.table) && o != NO_ADDR
    requires !(e.Receipt? && e.msg.Some? && IsRequestOf(e.msg.value, o))
    requires !(e.Receipt? && e.msg.Some? && e.msg.value.RREP? && e.msg.value.rrep.dst == o != e.msg.value.rrep.origin)
    ensures HopKept(s.table, Apply(s, e, now).table, o)
  {
    hide TableOk, Receive, RouteRequestTimerExpire, PurgeNeighbors, RouteOutput, Forwarding, DeliverLocally,
         DeferredRouteOutput, SendRequest, CloseNeighbors, Hellos, HopKept, HelloTimerExpire;
    if AsksFor(e, o) {
      match e
      case Output(packet) => OutputHop(s, packet, now, o);
      case RetryTimer(dst) => RetryHop(s.(search := s.search.(timers := s.search.timers[dst := None])), dst, now, o);
      case Postponed(dst, at) =>
        var s1 := s.(search := s.search.(postponed := s.search.postponed - multiset{(dst, at)}));
        SendRequestHop(s1, s1, dst, now, o);
    } else {
      EventSpares(s, e, now);
      SubjectsOf(e, o);
      CalmHop(s.table, Apply(s, e, now).table, o);
    }
  }

  lemma SubjectsOf(e: Event, o: Addr)
    requires o != NO_ADDR && !AsksFor(e, o)
    requires !(e.Receipt? && e.msg.Some? && IsRequestOf(e.msg.value, o))
    requires !(e.Receipt? && e.msg.Some? && e.msg.value.RREP? && e.msg.value.rrep.dst == o != e.msg.value.rrep.origin)
    ensures o !in Subjects(e)
  {
  }

  lemma CalmHop(t: Table, t': Table, k: Addr)
    requires Calm(t, t', k)
    ensures HopKept(t, t', k)
  {
  }

  /** What a node sends in such an event: no request of `o`, unless it is `o` itself. */
  lemma EventAirings(s: Node, e: Event, now: Time, a: Addr, o: Addr, num: nat)
    requires NodeOk(a, s) && !(e.Receipt? && e.msg.Some? && IsRequestOf(e.msg.value, o))
    ensures var s' := Apply(s, e, now);
            && s'.ifaces == s.ifaces
            && forall x :: x in NewAirings(s, s', a, o, num) ==>
                 && a == o && x.from == o && x.num == num && x.req.origin == o && x.req.hopCount == 0
                 && x.req.id == Wrap32(s.ctr.requestId + 1)
  {
    hide TableOk, Receive, RouteRequestTimerExpire, PurgeNeighbors, RouteOutput, Forwarding, RecvRequest,
         RouteToNeighbor, DeliverLocally, DeferredRouteOutput, SendRequest, CloseNeighbors, HelloTimerExpire, Accepts,
         Recorded, ProcessRequest;
    if e.Receipt? && e.msg.Some? && e.msg.value.RREQ? {
      ForeignRequest(s, e.msg.value.rreq, e.ttl, e.sender, e.rcv, now, a, o, num);
    } else {
      EventIssues(s, e, now);
    }
  }

  lemma ForeignRequest(s: Node, h: Rreq, ttl: U8, sender: Addr, rcv: Iface, now: Time, a: Addr, o: Addr, num: nat)
    requires h.origin != o
    ensures var s' := Receive(s, Some(RREQ(h)), ttl, sender, rcv, now);
            s'.ifaces == s.ifaces && NewAirings(s, s', a, o, num) == {}
  {
    hide RouteToNeighbor, ProcessRequest, Accepts, RecvRequest, IdCaches.Record, Purge;
    RecvRequestSends(Met(s, sender, rcv, now), h, ttl, sender, rcv, now);
  }

  // ---------------------------------------------------------------------
  // Every step keeps the invariant

  lemma StepNodeOk(s: Node, e: Event, now: Time, a: Addr)
    requires NodeOk(a, s)
    ensures TableOk(s.table) && NodeOk(a, Apply(s, e, now))
  {
    hide TableOk, Receive, RouteRequestTimerExpire, PurgeNeighbors, RouteOutput, Forwarding, RecvRequest,
         RouteToNeighbor, DeliverLocally, DeferredRouteOutput, SendRequest, CloseNeighbors, HelloTimerExpire, Accepts,
         Recorded, ProcessRequest;
    StepTableOk(s, e, now);
    if e.Receipt? && e.msg.Some? && e.msg.value.RREQ? {
      RequestIfaces(s, e.msg.value.rreq, e.ttl, e.sender, e.rcv, now);
    } else {
      EventIssues(s, e, now);
    }
    assert forall b :: Apply(s, e, now).IsMyOwnAddress(b) <==> s.IsMyOwnAddress(b);
  }

  lemma RequestIfaces(s: Node, h: Rreq, ttl: U8, sender: Addr, rcv: Iface, now: Time)
    ensures Receive(s, Some(RREQ(h)), ttl, sender, rcv, now).ifaces == s.ifaces
  {
    hide RouteToNeighbor, ProcessRequest, Accepts, RecvRequest, IdCaches.Record, Purge;
    RecvRequestSends(Met(s, sender, rcv, now), h, ttl, sender, rcv, now);
  }

  lemma OtherKeeps(w: World, m: Move, o: Addr)
    requires Inv(w, o) && Legal(w, m, o) && m.Other?
    ensures Inv(Step(w, m, o), o)
  {
    hide TableOk, NodeOk, Apply, NewAirings, HopKept, Rank.Beats, HopOk;
    var a := m.at;
    var s := w.nodes[a];
    var w' := Step(w, m, o);
    StepNodeOk(s, m.event, m.now, a);
    EventHop(s, m.event, m.now, o);
    EventAirings(s, m.event, m.now, a, o, w.floods + 1);
    forall b | b in w'.nodes && b != o ensures HopOk(w', b, o) {
      KeptHopOk(w, w', a, o, b);
    }
    forall x | x in w'.aired ensures AiringOk(w', x, o) {
      assert x in w.aired ==> AiringOk(w, x, o);
    }
  }

  lemma KeptHopOk(w: World, w': World, a: Addr, o: Addr, b: Addr)
    requires w.rank.Keys == w.nodes.Keys == w'.nodes.Keys && w'.rank == w.rank && a in w.nodes && b in w.nodes
    requires HopOk(w, b, o) && HopKept(w.nodes[a].table, w'.nodes[a].table, o)
    requires forall c :: c in w.nodes && c != a ==> w'.nodes[c] == w.nodes[c]
    ensures HopOk(w', b, o)
  {
  }

  /** What a node puts on the air when it hears `x`. */
  lemma HeardAirings(s: Node, x: Airing, rcv: Iface, now: Time, a: Addr, o: Addr)
    requires TableOk(s.table) && x.req.origin == o != NO_ADDR
    requires x.req.hopCount <= 254 && x.req.hopCount + x.ttl <= 255
    ensures var s' := Receive(s, Some(RREQ(x.req)), x.ttl, x.from, rcv, now);
            forall y :: y in NewAirings(s, s', a, o, x.num) ==>
              && Accepts(Met(s, x.from, rcv, now), x.req, x.from, now)
              && y.from == a && y.num == x.num && y.req.origin == o && y.req.id == x.req.id
              && y.req.hopCount == x.req.hopCount + 1 <= 254 && y.req.hopCount + y.ttl <= 255
  {
    hide TableOk, Receive, Accepts, Toward, Calm;
    HearRequest(s, x.req, x.ttl, x.from, rcv, now);
  }

  lemma HeardRoute(s: Node, x: Airing, rcv: Iface, now: Time, o: Addr)
    requires TableOk(s.table) && x.req.origin == o != NO_ADDR && x.req.hopCount <= 254
    ensures var s' := Receive(s, Some(RREQ(x.req)), x.ttl, x.from, rcv, now);
            if Accepts(Met(s, x.from, rcv, now), x.req, x.from, now)
            then Toward(s'.table, o, x.from, x.req.hopCount + 1)
            else Calm(s.table, s'.table, o)
  {
    hide TableOk, Receive, Accepts, Toward, Calm;
    HearRequest(s, x.req, x.ttl, x.from, rcv, now);
  }

  lemma HearKeeps(w: World, m: Move, o: Addr)
    requires Inv(w, o) && Legal(w, m, o) && m.Hear?
    ensures Inv(Step(w, m, o), o)
  {
    hide NodeOk, TableOk, Receive, NewAirings, Accepts, HopOk, Toward, Calm;
    var a, x := m.at, m.airing;
    var w' := Step(w, m, o);
    StepNodeOk(w.nodes[a], EventOf(m), m.now, a);
    assert AiringOk(w, x, o);
    HeardRoute(w.nodes[a], x, m.rcv, m.now, o);
    forall b | b in w'.nodes && b != o ensures HopOk(w', b, o) {
      HeardHopOk(w, w', a, x, o, b);
    }
    forall y | y in w'.aired ensures AiringOk(w', y, o) {
      HeardAiringOk(w, m, o, y);
    }
  }

  lemma HeardHopOk(w: World, w': World, a: Addr, x: Airing, o: Addr, b: Addr)
    requires w.rank.Keys == w.nodes.Keys == w'.nodes.Keys == w'.rank.Keys && a in w.nodes && b in w.nodes
    requires b != o && HopOk(w, b, o) && AiringOk(w, x, o)
    requires forall c :: c in w.nodes && c != a ==> w'.nodes[c] == w.nodes[c] && w'.rank[c] == w.rank[c]
    requires || (Calm(w.nodes[a].table, w'.nodes[a].table, o) && w'.rank[a] == w.rank[a])
             || (Toward(w'.nodes[a].table, o, x.from, x.req.hopCount + 1)
                 && w'.rank[a] == Rank(x.num, x.req.hopCount + 1)
                 && (a != o ==> x.num > w.rank[a].num))
    ensures HopOk(w', b, o)
  {
  }

  lemma HeardAiringOk(w: World, m: Move, o: Addr, y: Airing)
    requires Inv(w, o) && Legal(w, m, o) && m.Hear? && y in Step(w, m, o).aired
    ensures AiringOk(Step(w, m, o), y, o)
  {
    hide TableOk, Receive, NewAirings, Accepts;
    var a, x := m.at, m.airing;
    assert AiringOk(w, x, o);
    HeardAirings(w.nodes[a], x, m.rcv, m.now, a, o);
    if y in w.aired {
      assert AiringOk(w, y, o);
    }
  }

  lemma StepInv(w: World, m: Move, o: Addr)
    requires Inv(w, o) && Legal(w, m, o)
    ensures Inv(Step(w, m, o), o)
  {
    hide Inv, Step;
    if m.Other? { OtherKeeps(w, m, o); } else { HearKeeps(w, m, o); }
  }

  // ---------------------------------------------------------------------
  // Whole runs

  /** No node routes to `o` yet and nothing is on the air. */
  ghost predicate Start(w: World, o: Addr) {
    && w.rank.Keys == w.nodes.Keys && o != NO_ADDR && NO_ADDR !in w.nodes
    && (forall a :: a in w.nodes ==> NodeOk(a, w.nodes[a]) && o !in w.nodes[a].table)
    && w.aired == {}
  }

  ghost predicate LegalRun(w: World, run: seq<Move>, o: Addr)
    decreases |run|
  {
    run != [] ==> Legal(w, run[0], o) && LegalRun(Step(w, run[0], o), run[1..], o)
  }

  ghost function Run(w: World, run: seq<Move>, o: Addr): World
    requires LegalRun(w, run, o)
    decreases |run|
  {
    if run == [] then w else Run(Step(w, run[0], o), run[1..], o)
  }

  /** `path` follows next hops towards `o`. */
  ghost predicate Follows(nodes: map<Addr, Node>, path: seq<Addr>, o: Addr) {
    && (forall i :: 0 <= i < |path| ==> path[i] in nodes && path[i] != o)
    && (forall i :: 0 <= i < |path| - 1 ==>
          o in nodes[path[i]].table && nodes[path[i]].table[o].route.nextHop == path[i + 1])
  }

  lemma {:induction false} RanksRise(w: World, path: seq<Addr>, o: Addr, i: nat, j: nat)
    requires Inv(w, o) && Follows(w.nodes, path, o) && i < j < |path|
    ensures w.rank[path[j]].Beats(w.rank[path[i]])
    decreases j
  {
    hide NodeOk, AiringOk, Rank.Beats;
    assert HopOk(w, path[j - 1], o);
    assert path[j] == w.nodes[path[j - 1]].table[o].route.nextHop;
    if i < j - 1 {
      RanksRise(w, path, o, i, j - 1);
      BeatsTrans(w.rank[path[j]], w.rank[path[j - 1]], w.rank[path[i]]);
    }
  }

  lemma {:induction false} RunInv(w: World, run: seq<Move>, o: Addr)
    requires Inv(w, o) && LegalRun(w, run, o)
    ensures Inv(Run(w, run, o), o)
    decreases |run|
  {
    hide Inv, Step;
    if run != [] {
      StepInv(w, run[0], o);
      RunInv(Step(w, run[0], o), run[1..], o);
    }
  }

  /** After any legal run, next hops towards the originator never lead a packet
      to the same node twice. */
  lemma ReverseRoutesNeverLoop(w: World, run: seq<Move>, o: Addr, path: seq<Addr>)
    requires Start(w, o) && LegalRun(w, run, o)
    requires Follows(Run(w, run, o).nodes, path, o)
    ensures Distinct(path)
  {
    hide Step, Legal, NodeOk;
    RunInv(w, run, o);
    var w' := Run(w, run, o);
    forall i, j | 0 <= i < j < |path| ensures path[i] != path[j] {
      RanksRise(w', path, o, i, j);
    }
  }
}
