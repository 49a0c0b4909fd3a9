/** What a discovery is for: a data packet sent over the route it found arrives. */
module PacketDelivery {
  import opened Base
  import opened RouteTable
  import opened NodeState
  import opened LinkBreak
  import opened NodeEvents
  import opened Network
  import opened Flood
  import opened SteadyNode
  import opened ReplyDelivery
  import opened ReplyRuns
  import opened DataPackets
  import PacketQueue

  /** Going from `s` to `s'` the node handed the packet over, once, to `next`. */
  ghost predicate HandsOver(s: Node, s': Node, uid: int, header: PacketQueue.Header, next: Addr) {
    && |s'.log.delivered| == |s.log.delivered| + 1
    && var d := s'.log.delivered[|s.log.delivered|];
       d.uid == uid && d.header == header && d.route.nextHop == next
  }

  /** From node `a` on, which handles it at `times[0]`, the packet goes from node
      to node over existing links until it is at its destination. */
  ghost predicate Carried(net: Net, a: Addr, uid: int, header: PacketQueue.Header, times: seq<Time>)
    decreases |times|
  {
    if a == header.dst then times == []
    else
      && a in net.nodes && times != []
      && var s := net.nodes[a];
         var s' := Apply(s, Forward(uid, header), times[0]);
         exists next: Addr ::
           && HandsOver(s, s', uid, header, next) && (a, next) in net.links
           && Carried(net.(nodes := net.nodes[a := s']), next, uid, header, times[1..])
  }

  lemma SteadyForwards(s: Node, uid: int, header: PacketQueue.Header, iface: Iface, until: Time, sought: set<Addr>,
                       now: Time)
    requires Steady(s.table, iface, until, sought) && now <= until
    requires IsValid(s.table, header.dst)
    ensures HandsOver(s, Apply(s, Forward(uid, header), now), uid, header, s.table[header.dst].route.nextHop)
  {
    hide Steady, Apply;
    SteadyPurge(s.table, iface, until, sought, now, s.cfg.badLinkLifetime);
    ForwardsExactly(s, uid, header, now);
  }

  /** The nodes that are still to come on the way are as the discovery left them. */
  ghost predicate Untouched(net: Net, end: Net, path: seq<Addr>) {
    && net.links == end.links && net.nodes.Keys == end.nodes.Keys
    && forall i :: 0 <= i < |path| && path[i] in end.nodes ==> net.nodes[path[i]] == end.nodes[path[i]]
  }

  ghost predicate Ready(end: Net, q: Quest, path: seq<Addr>) {
    forall i :: 0 <= i < |path| - 1 ==>
      && path[i] in end.nodes && path[i] != q.d && IsValid(end.nodes[path[i]].table, q.d)
      && end.nodes[path[i]].table[q.d].route.nextHop == path[i + 1] && (path[i], path[i + 1]) in end.links
      && end.nodes[path[i]].ifaces != []
      && Steady(end.nodes[path[i]].table, end.nodes[path[i]].ifaces[0], q.until, Sought(q, path[i]))
  }

  lemma {:induction false} CarriedAlong(net: Net, end: Net, q: Quest, path: seq<Addr>, uid: int,
                                        header: PacketQueue.Header, times: seq<Time>)
    requires path != [] && path[|path| - 1] == q.d == header.dst && Distinct(path)
    requires Ready(end, q, path) && Untouched(net, end, path)
    requires |times| == |path| - 1 && forall i :: 0 <= i < |times| ==> times[i] <= q.until
    ensures Carried(net, path[0], uid, header, times)
    decreases |path|
  {
    hide Steady, Apply, HandsOver, Distinct;
    if |path| > 1 {
      var a, rest := path[0], path[1..];
      var s' := Apply(net.nodes[a], Forward(uid, header), times[0]);
      SteadyForwards(net.nodes[a], uid, header, end.nodes[a].ifaces[0], q.until, Sought(q, a), times[0]);
      DistinctTail(path);
      var net' := net.(nodes := net.nodes[a := s']);
      assert Untouched(net', end, rest);
      ReadyTail(end, q, path);
      CarriedAlong(net', end, q, rest, uid, header, times[1..]);
      assert HandsOver(net.nodes[a], s', uid, header, path[1]);
    }
  }

  lemma DistinctTail(path: seq<Addr>)
    requires Distinct(path) && path != []
    ensures Distinct(path[1..]) && forall i :: 0 < i < |path| ==> path[i] != path[0]
  {
  }

  lemma ReadyTail(end: Net, q: Quest, path: seq<Addr>)
    requires Ready(end, q, path) && path != []
    ensures Ready(end, q, path[1..])
  {
    hide Steady;
    var rest := path[1..];
    forall i | 0 <= i < |rest| - 1 ensures
      && rest[i] in end.nodes && rest[i] != q.d && IsValid(end.nodes[rest[i]].table, q.d)
      && end.nodes[rest[i]].table[q.d].route.nextHop == rest[i + 1] && (rest[i], rest[i + 1]) in end.links
      && end.nodes[rest[i]].ifaces != []
      && Steady(end.nodes[rest[i]].table, end.nodes[rest[i]].ifaces[0], q.until, Sought(q, rest[i]))
    {
      assert rest[i] == path[i + 1] && rest[i + 1] == path[i + 2];
    }
  }

  /** The hop counts decrease along the path, so no node occurs twice, and the
      path is no longer than the first of them. */
  lemma {:induction false} HopsFall(net: Net, path: seq<Addr>, a: Addr, d: Addr, i: nat, j: nat)
    requires LeadsTo(net, path, a, d) && i < j < |path| - 1
    ensures net.nodes[path[j]].table[d].info.hops <= net.nodes[path[i]].table[d].info.hops - (j - i)
    decreases j - i
  {
    if i < j - 1 {
      HopsFall(net, path, a, d, i, j - 1);
    }
    assert net.nodes[path[j - 1 + 1]].table[d].info.hops < net.nodes[path[j - 1]].table[d].info.hops;
  }

  lemma PathDistinct(net: Net, path: seq<Addr>, a: Addr, d: Addr)
    requires LeadsTo(net, path, a, d)
    ensures Distinct(path)
  {
    forall i, j | 0 <= i < j < |path| ensures path[i] != path[j] {
      if j < |path| - 1 { HopsFall(net, path, a, d, i, j); }
    }
  }

  lemma PathReady(end: Net, q: Quest, depth: map<Addr, int>, path: seq<Addr>)
    requires Full(end, q, depth) && LeadsTo(end, path, q.o, q.d)
    ensures Ready(end, q, path)
  {
    hide Depths, Flying, Answers, Levels, Covered, ForwardRoutes, OpenUntil, Steady, Knows, Unaware, Frame;
    forall i | 0 <= i < |path| - 1
      ensures end.nodes[path[i]].ifaces != []
      ensures Steady(end.nodes[path[i]].table, end.nodes[path[i]].ifaces[0], q.until, Sought(q, path[i]))
    {
      assert GoodNode(end.nodes[path[i]], q, Sought(q, path[i]));
    }
  }

  /** When the originator has a route, a packet that it sends over it before the
      lifetimes run out is handed from node to node until it is at the
      destination, over no more hops than the route says, whatever the delays. */
  lemma PacketArrives(net: Net, q: Quest, start: Time, run: seq<(nat, Time)>, uid: int, header: PacketQueue.Header)
    returns (path: seq<Addr>)
    requires Clean(net, q, start) && Deliveries(Launched(net, q, start), run, start, q.until)
    requires Routed(After(Launched(net, q, start), run, start, q.until), q) && header.dst == q.d
    ensures var end := After(Launched(net, q, start), run, start, q.until);
            && LeadsTo(end, path, q.o, q.d) && |path| - 1 <= HopsTo(end, q.o, q.d) && |path| >= 2
            && (forall t: Time :: t <= q.until ==>
                  IsValid(end.nodes[q.o].Purged(t), q.d) && WayTo(end.nodes[q.o].Purged(t), q.d) == path[1])
            && (forall times: seq<Time> ::
                  |times| == |path| - 2 && (forall i :: 0 <= i < |times| ==> times[i] <= q.until) ==>
                    Carried(end, path[1], uid, header, times))
  {
    hide Launched, Full, Clean, Deliver, LeadsTo, Carried, Distinct, Ready, Routed;
    CleanTime(net, q, start);
    var end := After(Launched(net, q, start), run, start, q.until);
    var depth := RunFromLaunch(net, q, start, run);
    path := RouteLeadsToDestination(net, q, start, run);
    PathReady(end, q, depth, path);
    PathEnds(end, q, depth, path);
    PathDistinct(end, path, q.o, q.d);
    DistinctTail(path);
    ReadyTail(end, q, path);
    SourceReady(end, q, path);
    forall times: seq<Time> | |times| == |path| - 2 && (forall i :: 0 <= i < |times| ==> times[i] <= q.until)
      ensures Carried(end, path[1], uid, header, times)
    {
      CarriedAlong(end, end, q, path[1..], uid, header, times);
    }
  }

  lemma PathEnds(end: Net, q: Quest, depth: map<Addr, int>, path: seq<Addr>)
    requires Full(end, q, depth) && LeadsTo(end, path, q.o, q.d)
    ensures |path| >= 2 && path[|path| - 1] == q.d && path[0] == q.o && q.o in end.nodes
  {
    hide Good, Depths, ForwardRoutes, Flying, Answers, Levels, Covered;
  }

  lemma SourceReady(end: Net, q: Quest, path: seq<Addr>)
    requires Ready(end, q, path) && |path| >= 2 && path[0] == q.o && q.o in end.nodes
    ensures forall t: Time :: t <= q.until ==>
      IsValid(end.nodes[q.o].Purged(t), q.d) && WayTo(end.nodes[q.o].Purged(t), q.d) == path[1]
  {
    hide Steady, Purge;
    var s := end.nodes[q.o];
    assert path[0] in end.nodes;
    forall t: Time | t <= q.until ensures s.Purged(t) == s.table {
      SteadyPurge(s.table, s.ifaces[0], q.until, Sought(q, q.o), t, s.cfg.badLinkLifetime);
    }
  }
}
