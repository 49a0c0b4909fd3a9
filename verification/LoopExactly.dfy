/** Exactly when next hops towards a node form a loop: whatever the nodes of a
    loop-free network hear and do, the one event that closes a loop is a message
    that is taken over from a neighbour whose own next hops lead back to the
    receiver. */
module LoopExactly {
  import opened Base
  import opened Messages
  import opened RouteTable
  import opened NodeState
  import opened Discovery
  import opened LinkBreak
  import opened Routes
  import opened NodeEvents
  import opened Emissions
  import opened NodeRuns
  import opened LoopFreedom
  import opened TakenReplies
  import ReverseNumbers
  import InOrder

  // ---------------------------------------------------------------------
  // Following next hops

  /** From wherever one starts, next hops towards `o` visit no node twice. */
  ghost predicate LoopFree(nodes: map<Addr, Node>, o: Addr) {
    forall path: seq<Addr> :: Follows(nodes, path, o) ==> Distinct(path)
  }

  ghost predicate Leads(nodes: map<Addr, Node>, way: seq<Addr>, a: Addr, b: Addr, o: Addr) {
    way != [] && Follows(nodes, way, o) && way[0] == a && way[|way| - 1] == b
  }

  /** Next hops towards `o` lead from `a` to `b`. */
  ghost predicate LeadsTo(nodes: map<Addr, Node>, a: Addr, b: Addr, o: Addr) {
    exists way: seq<Addr> :: Leads(nodes, way, a, b, o)
  }

  lemma HopAt(nodes: map<Addr, Node>, path: seq<Addr>, o: Addr, k: nat)
    requires Follows(nodes, path, o) && k + 1 < |path|
    ensures path[k] in nodes && path[k] != o
    ensures o in nodes[path[k]].table && nodes[path[k]].table[o].route.nextHop == path[k + 1]
  {
  }

  lemma FollowsPart(nodes: map<Addr, Node>, path: seq<Addr>, o: Addr, i: nat, j: nat)
    requires Follows(nodes, path, o) && i <= j <= |path|
    ensures Follows(nodes, path[i..j], o)
  {
    var part := path[i..j];
    forall k | 0 <= k < |part| - 1
      ensures o in nodes[part[k]].table && nodes[part[k]].table[o].route.nextHop == part[k + 1]
    {
      assert part[k] == path[i + k] && part[k + 1] == path[i + k + 1];
    }
  }

  lemma FollowsJoin(nodes: map<Addr, Node>, front: seq<Addr>, back: seq<Addr>, o: Addr)
    requires Follows(nodes, front, o) && Follows(nodes, back, o)
    requires front != [] && back != [] ==>
      var a := front[|front| - 1]; o in nodes[a].table && nodes[a].table[o].route.nextHop == back[0]
    ensures Follows(nodes, front + back, o)
  {
    var path := front + back;
    forall k | 0 <= k < |path| - 1
      ensures o in nodes[path[k]].table && nodes[path[k]].table[o].route.nextHop == path[k + 1]
    {
      if k < |front| - 1 {
        assert path[k] == front[k] && path[k + 1] == front[k + 1];
      } else if k >= |front| {
        assert path[k] == back[k - |front|] && path[k + 1] == back[k + 1 - |front|];
      }
    }
  }

  /** A path that does not leave `a` does not depend on what `a` knows. */
  lemma FollowsElsewhere(nodes: map<Addr, Node>, a: Addr, s: Node, path: seq<Addr>, o: Addr)
    requires a in nodes && forall k :: 0 <= k < |path| - 1 ==> path[k] != a
    ensures Follows(nodes[a := s], path, o) <==> Follows(nodes, path, o)
  {
  }

  lemma {:induction false} FirstAt(path: seq<Addr>, a: Addr, i: nat, j: nat) returns (k: nat)
    requires i < j <= |path| && exists m :: i <= m < j && path[m] == a
    ensures i <= k < j && path[k] == a && forall m :: i <= m < k ==> path[m] != a
    decreases j - i
  {
    if path[i] == a { k := i; } else { k := FirstAt(path, a, i + 1, j); }
  }

  lemma {:induction false} LastAt(path: seq<Addr>, a: Addr, i: nat, j: nat) returns (k: nat)
    requires i < j <= |path| && exists m :: i <= m < j && path[m] == a
    ensures i <= k < j && path[k] == a && forall m :: k < m < j ==> path[m] != a
    decreases j - i
  {
    if path[j - 1] == a { k := j - 1; } else { k := LastAt(path, a, i, j - 1); }
  }

  // ---------------------------------------------------------------------
  // One node changes its table

  lemma Closes(nodes: map<Addr, Node>, a: Addr, s: Node, way: seq<Addr>, o: Addr)
    requires LoopFree(nodes, o) && a in nodes && o in s.table
    requires Leads(nodes, way, s.table[o].route.nextHop, a, o)
    ensures !LoopFree(nodes[a := s], o)
  {
    hide LoopFree;
    var path := [a] + way;
    assert Distinct(way) by { LoopFreeAt(nodes, way, o); }
    FollowsElsewhere(nodes, a, s, way, o);
    FollowsElsewhere(nodes, a, s, [a], o);
    FollowsJoin(nodes[a := s], [a], way, o);
    assert path[0] == path[|path| - 1];
    if LoopFree(nodes[a := s], o) {
      LoopFreeAt(nodes[a := s], path, o);
    }
  }

  lemma LoopFreeAt(nodes: map<Addr, Node>, path: seq<Addr>, o: Addr)
    requires LoopFree(nodes, o) && Follows(nodes, path, o)
    ensures Distinct(path)
  {
  }

  /** A loop that was not there before goes through the node that changed. */
  lemma LoopThrough(nodes: map<Addr, Node>, a: Addr, s: Node, path: seq<Addr>, i: nat, j: nat, o: Addr)
    requires LoopFree(nodes, o) && a in nodes && Follows(nodes[a := s], path, o)
    requires i < j < |path| && path[i] == path[j]
    ensures exists m :: i <= m < j && path[m] == a
  {
    hide LoopFree;
    if forall m :: i <= m < j ==> path[m] != a {
      var part := path[i..j + 1];
      FollowsPart(nodes[a := s], path, o, i, j + 1);
      FollowsElsewhere(nodes, a, s, part, o);
      assert part[0] == part[j - i];
      LoopFreeAt(nodes, part, o);
    }
  }

  /** Cut at the first and at the last time it comes to that node, the loop
      leads from its new next hop back to it. */
  lemma Opened(nodes: map<Addr, Node>, a: Addr, s: Node, path: seq<Addr>, i: nat, j: nat, o: Addr)
    requires LoopFree(nodes, o) && a in nodes && Follows(nodes[a := s], path, o)
    requires i < j < |path| && path[i] == path[j]
    ensures a != o && o in s.table && LeadsTo(nodes, s.table[o].route.nextHop, a, o)
  {
    hide LoopFree, Follows;
    LoopThrough(nodes, a, s, path, i, j, o);
    var first := FirstAt(path, a, i, j);
    var last := LastAt(path, a, i, j);
    var front, back := path[last + 1..j + 1], path[i + 1..first + 1];
    HopAt(nodes[a := s], path, o, last);
    HopAt(nodes[a := s], path, o, i);
    FollowsPart(nodes[a := s], path, o, last + 1, j + 1);
    FollowsPart(nodes[a := s], path, o, i + 1, first + 1);
    FollowsElsewhere(nodes, a, s, front, o);
    FollowsElsewhere(nodes, a, s, back, o);
    assert front[|front| - 1] == path[i] && (back != [] ==> back[0] == path[i + 1]);
    FollowsJoin(nodes, front, back, o);
    assert Leads(nodes, front + back, s.table[o].route.nextHop, a, o);
  }

  /** Whatever a node of a loop-free network does to its table, there is a loop
      afterwards exactly when its new next hop led to it before. */
  lemma RedirectExactly(nodes: map<Addr, Node>, a: Addr, s: Node, o: Addr)
    requires LoopFree(nodes, o) && a in nodes
    ensures LoopFree(nodes[a := s], o) <==> !(o in s.table && LeadsTo(nodes, s.table[o].route.nextHop, a, o))
  {
    if o in s.table && LeadsTo(nodes, s.table[o].route.nextHop, a, o) {
      var way :| Leads(nodes, way, s.table[o].route.nextHop, a, o);
      Closes(nodes, a, s, way, o);
    } else {
      forall path: seq<Addr> | Follows(nodes[a := s], path, o) ensures Distinct(path) {
        if i, j :| 0 <= i < j < |path| && path[i] == path[j] {
          Opened(nodes, a, s, path, i, j, o);
        }
      }
    }
  }

  /** A next hop that was there before leads to no loop, nor does `o` or nobody. */
  lemma KeptLeadsNowhere(nodes: map<Addr, Node>, a: Addr, via: Addr, o: Addr)
    requires LoopFree(nodes, o) && a in nodes && NO_ADDR !in nodes
    requires via == o || via == NO_ADDR || (o in nodes[a].table && via == nodes[a].table[o].route.nextHop)
    ensures !LeadsTo(nodes, via, a, o)
  {
    if LeadsTo(nodes, via, a, o) {
      var way :| Leads(nodes, way, via, a, o);
      var path := [a] + way;
      assert path[0] == path[|path| - 1];
      FollowsJoin(nodes, [a], way, o);
    }
  }

  // ---------------------------------------------------------------------
  // A request that is processed

  /** A node that processes a request routes to its origin through the neighbour
      it came from, whatever it knew before. */
  lemma RequestRoutes(s: Node, h: Rreq, ttl: U8, src: Addr, rcv: Iface, now: Time)
    requires TableOk(s.table) && s.cfg.badLinkLifetime >= 0 && h.origin != NO_ADDR
    requires Accepts(Met(s, src, rcv, now), h, src, now)
    ensures var t := Receive(s, Some(RREQ(h)), ttl, src, rcv, now).table;
            h.origin in t && t[h.origin].route.nextHop == src
  {
    hide Receive, Accepts, TableOk;
    ReverseNumbers.OriginLearned(s, h, ttl, src, rcv, now);
  }

  // ---------------------------------------------------------------------
  // Any event

  /** The event makes the node route to `o` through the neighbour it hears: a
      request of `o` that it processes, or a reply about `o` that it takes over. */
  ghost predicate Redirects(s: Node, e: Event, now: Time, o: Addr) {
    match e
    case Receipt(Some(RREQ(h)), _, sender, rcv) => h.origin == o && Accepts(Met(s, sender, rcv, now), h, sender, now)
    case Receipt(Some(RREP(h)), _, sender, rcv) => h.dst == o != h.origin && TakenOver(Met(s, sender, rcv, now), h, now)
    case _ => false
  }

  /** Any event either makes the node route to `o` through the neighbour it hears
      or leaves its next hop towards `o`, up to `o` itself and nobody. */
  lemma EventRoutes(s: Node, e: Event, now: Time, o: Addr)
    requires TableOk(s.table) && o != NO_ADDR && s.cfg.badLinkLifetime >= 0
    ensures var t := Apply(s, e, now).table;
            if Redirects(s, e, now, o) then o in t && t[o].route.nextHop == e.sender else HopKept(s.table, t, o)
  {
    hide TableOk, Receive, Accepts, TakenOver, HopKept, RouteRequestTimerExpire, PurgeNeighbors, RouteOutput,
         Forwarding, DeliverLocally, DeferredRouteOutput, SendRequest, CloseNeighbors, Hellos, HelloTimerExpire,
         RouteToNeighbor;
    if e.Receipt? && e.msg.Some? && IsRequestOf(e.msg.value, o) {
      if Redirects(s, e, now, o) {
        RequestRoutes(s, e.msg.value.rreq, e.ttl, e.sender, e.rcv, now);
      } else {
        HearRequest(s, e.msg.value.rreq, e.ttl, e.sender, e.rcv, now);
        CalmHop(s.table, Apply(s, e, now).table, o);
      }
    } else if e.Receipt? && e.msg.Some? && e.msg.value.RREP? && e.msg.value.rrep.dst == o != e.msg.value.rrep.origin {
      ReplyRoutes(s, e.msg.value.rrep, e.ttl, e.sender, e.rcv, now);
    } else {
      EventHop(s, e, now, o);
    }
  }

  /** The event closes a loop: the neighbour it makes the node route through
      already leads back to the node. */
  ghost predicate ClosesLoop(nodes: map<Addr, Node>, a: Addr, e: Event, now: Time, o: Addr)
    requires a in nodes
  {
    a != o && Redirects(nodes[a], e, now, o) && LeadsTo(nodes, e.sender, a, o)
  }

  /** After any event at any node of a loop-free network, next hops towards `o`
      are loop-free again exactly when the event does not close a loop. */
  lemma StepExactly(nodes: map<Addr, Node>, a: Addr, e: Event, now: Time, o: Addr)
    requires LoopFree(nodes, o) && a in nodes && o != NO_ADDR && NO_ADDR !in nodes
    requires TableOk(nodes[a].table) && nodes[a].cfg.badLinkLifetime >= 0
    ensures LoopFree(nodes[a := Apply(nodes[a], e, now)], o) <==> !ClosesLoop(nodes, a, e, now, o)
  {
    hide LoopFree, Leads, TableOk, Apply, Redirects;
    var s' := Apply(nodes[a], e, now);
    RedirectExactly(nodes, a, s', o);
    EventRoutes(nodes[a], e, now, o);
    if a == o {
      NothingLeadsThere(nodes, o);
    } else if !Redirects(nodes[a], e, now, o) && o in s'.table {
      KeptLeadsNowhere(nodes, a, s'.table[o].route.nextHop, o);
    }
  }

  lemma NothingLeadsThere(nodes: map<Addr, Node>, o: Addr)
    ensures forall via: Addr :: !LeadsTo(nodes, via, o, o)
  {
  }

  // ---------------------------------------------------------------------
  // Whole runs

  datatype Happening = Happening(at: Addr, event: Event, now: Time)

  function Happens(nodes: map<Addr, Node>, x: Happening): map<Addr, Node>
    requires x.at in nodes
  {
    nodes[x.at := Apply(nodes[x.at], x.event, x.now)]
  }

  /** Before and after every happening of the run there is no loop. */
  ghost predicate StaysLoopFree(nodes: map<Addr, Node>, run: seq<Happening>, o: Addr)
    requires forall x :: x in run ==> x.at in nodes
    decreases |run|
  {
    LoopFree(nodes, o) && (run != [] ==> StaysLoopFree(Happens(nodes, run[0]), run[1..], o))
  }

  ghost predicate NeverCloses(nodes: map<Addr, Node>, run: seq<Happening>, o: Addr)
    requires forall x :: x in run ==> x.at in nodes
    decreases |run|
  {
    run != [] ==>
      && !ClosesLoop(nodes, run[0].at, run[0].event, run[0].now, o)
      && NeverCloses(Happens(nodes, run[0]), run[1..], o)
  }

  ghost predicate NodesOk(nodes: map<Addr, Node>) {
    NO_ADDR !in nodes && forall a :: a in nodes ==> TableOk(nodes[a].table) && nodes[a].cfg.badLinkLifetime >= 0
  }

  lemma HappensOk(nodes: map<Addr, Node>, x: Happening)
    requires NodesOk(nodes) && x.at in nodes
    ensures NodesOk(Happens(nodes, x))
  {
    hide TableOk, Apply;
    StepTableOk(nodes[x.at], x.event, x.now);
    InOrder.EventConfig(nodes[x.at], x.event, x.now);
  }

  /** Whatever happens at the nodes of a network, in whatever order, and whatever
      messages arrive: next hops towards `o` stay loop-free exactly when none of
      the events closes a loop. */
  lemma {:induction false} RunExactly(nodes: map<Addr, Node>, run: seq<Happening>, o: Addr)
    requires LoopFree(nodes, o) && NodesOk(nodes) && o != NO_ADDR && forall x :: x in run ==> x.at in nodes
    ensures StaysLoopFree(nodes, run, o) <==> NeverCloses(nodes, run, o)
    decreases |run|
  {
    hide LoopFree, ClosesLoop, Apply, TableOk;
    if run != [] {
      var x := run[0];
      StepExactly(nodes, x.at, x.event, x.now, o);
      HappensOk(nodes, x);
      if LoopFree(Happens(nodes, x), o) {
        RunExactly(Happens(nodes, x), run[1..], o);
      } else {
        LoopShows(Happens(nodes, x), run[1..], o);
      }
    }
  }

  lemma LoopShows(nodes: map<Addr, Node>, run: seq<Happening>, o: Addr)
    requires !LoopFree(nodes, o) && forall x :: x in run ==> x.at in nodes
    ensures !StaysLoopFree(nodes, run, o)
  {
  }

  // ---------------------------------------------------------------------
  // The order of floods

  lemma OrderIsLoopFree(w: World, o: Addr)
    requires Inv(w, o)
    ensures LoopFree(w.nodes, o) && o != NO_ADDR
  {
    forall path: seq<Addr> | Follows(w.nodes, path, o) ensures Distinct(path) {
      forall i, j | 0 <= i < j < |path| ensures path[i] != path[j] {
        RanksRise(w, path, o, i, j);
      }
    }
  }

  /** A request that is processed out of order closes a loop exactly when next
      hops from the neighbour that relayed it led back; one that is processed in
      order is never of that kind. */
  lemma OutOfOrderExactly(w: World, x: Airing, b: Addr, rcv: Iface, now: Time, o: Addr)
    requires Inv(w, o) && x in w.aired && b in w.nodes && b != o && w.nodes[b].cfg.badLinkLifetime >= 0
    requires Processes(w, Hear(b, x, rcv, now))
    ensures LoopFree(Step(w, Hear(b, x, rcv, now), o).nodes, o) <==> !LeadsTo(w.nodes, x.from, b, o)
    ensures LeadsTo(w.nodes, x.from, b, o) ==> !Legal(w, Hear(b, x, rcv, now), o)
  {
    hide TableOk, Receive, Accepts, LoopFree, LeadsTo, HopOk, NewAirings;
    var m := Hear(b, x, rcv, now);
    assert AiringOk(w, x, o) && NodeOk(b, w.nodes[b]);
    OrderIsLoopFree(w, o);
    StepExactly(w.nodes, b, EventOf(m), now, o);
    if Legal(w, m, o) {
      StepInv(w, m, o);
      OrderIsLoopFree(Step(w, m, o), o);
    }
  }

  function HappeningsOf(run: seq<Move>): seq<Happening>
    decreases |run|
  {
    if run == [] then [] else [Happening(run[0].at, EventOf(run[0]), run[0].now)] + HappeningsOf(run[1..])
  }

  lemma {:induction false} HappenAtNodes(w: World, run: seq<Move>, o: Addr)
    requires LegalRun(w, run, o)
    ensures forall x :: x in HappeningsOf(run) ==> x.at in w.nodes
    decreases |run|
  {
    hide Apply, NewAirings, Processes;
    if run != [] {
      HappenAtNodes(Step(w, run[0], o), run[1..], o);
    }
  }

  /** The order of floods is enough: in order, no event ever closes a loop. */
  lemma {:induction false} OrderNeverCloses(w: World, run: seq<Move>, o: Addr)
    requires Inv(w, o) && NodesOk(w.nodes) && LegalRun(w, run, o)
    ensures (forall x :: x in HappeningsOf(run) ==> x.at in w.nodes) && NeverCloses(w.nodes, HappeningsOf(run), o)
    decreases |run|
  {
    hide Inv, Apply, NewAirings, Processes, LoopFree, ClosesLoop, Legal, NodesOk;
    HappenAtNodes(w, run, o);
    if run != [] {
      var m, events := run[0], HappeningsOf(run);
      InOrder.LegalAt(w, m, o);
      OrderIsLoopFree(w, o);
      StepInv(w, m, o);
      OrderIsLoopFree(Step(w, m, o), o);
      NodesOkAt(w.nodes, m.at, o);
      StepExactly(w.nodes, m.at, EventOf(m), m.now, o);
      HappensOk(w.nodes, events[0]);
      OrderNeverCloses(Step(w, m, o), run[1..], o);
      assert events[1..] == HappeningsOf(run[1..]);
    }
  }

  lemma NodesOkAt(nodes: map<Addr, Node>, a: Addr, o: Addr)
    requires NodesOk(nodes) && a in nodes
    ensures TableOk(nodes[a].table) && nodes[a].cfg.badLinkLifetime >= 0 && NO_ADDR !in nodes
  {
  }
}
