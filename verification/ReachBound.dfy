/** How large the TTL of a request has to be: a destination that is found is at
    most that many links away, and in a connected network of n nodes a TTL of
    n - 1 always suffices and no smaller one does. */
module ReachBound {
  import opened Base
  import opened Messages
  import opened RouteTable
  import opened NodeState
  import opened Discovery
  import opened NodeEvents
  import opened NodeRuns
  import opened Network
  import opened Flood
  import opened SteadyNode
  import opened ReplyDelivery
  import opened ReplyRuns

  // ---------------------------------------------------------------------
  // What is found is within reach

  /** Whoever has the request has it over a path of no more links than its depth. */
  lemma {:induction false} WayOut(net: Net, q: Quest, depth: map<Addr, int>, a: Addr) returns (path: seq<Addr>)
    requires Full(net, q, depth) && a in depth
    ensures Connects(net, path, q.o, a) && |path| <= depth[a] + 1
    decreases depth[a]
  {
    hide Good, ForwardRoutes, Flying, Answers, Levels, Covered;
    PositiveDepth(net, q, depth, a);
    StepBack(net, q, depth, a);
    var via := net.nodes[a].table[q.o].route.nextHop;
    if via == q.o {
      path := [q.o, a];
    } else {
      PositiveDepth(net, q, depth, via);
      var rest := WayOut(net, q, depth, via);
      path := rest + [a];
      ConnectsSnoc(net, rest, q.o, via, a);
    }
  }

  lemma StepBack(net: Net, q: Quest, depth: map<Addr, int>, a: Addr)
    requires Full(net, q, depth) && a in depth
    ensures a in net.nodes && q.o in net.nodes && ReverseOk(net, q, depth, a)
    ensures (net.nodes[a].table[q.o].route.nextHop, a) in net.links
  {
    hide Good, ForwardRoutes, Flying, Answers, Levels, Covered, Unaware, Lasting;
  }

  lemma ConnectsSnoc(net: Net, path: seq<Addr>, a: Addr, b: Addr, c: Addr)
    requires Connects(net, path, a, b) && c in net.nodes && (b, c) in net.links
    ensures Connects(net, path + [c], a, c)
  {
    var longer := path + [c];
    forall i | 0 <= i < |longer| - 1 ensures (longer[i], longer[i + 1]) in net.links {
      if i < |path| - 1 {
        assert longer[i] == path[i] && longer[i + 1] == path[i + 1];
      }
    }
  }

  /** A discovery finds nothing that is more links away than its TTL. */
  lemma FoundIsWithinReach(net: Net, q: Quest, start: Time, run: seq<(nat, Time)>) returns (path: seq<Addr>)
    requires Clean(net, q, start) && Deliveries(Launched(net, q, start), run, start, q.until)
    requires Routed(After(Launched(net, q, start), run, start, q.until), q)
    ensures Connects(net, path, q.o, q.d) && |path| - 1 <= q.reach
  {
    hide Launched, Full, Clean, Waiting, Deliver, Aware, Routed;
    CleanTime(net, q, start);
    var depth := RunFromLaunch(net, q, start, run);
    var end := After(Launched(net, q, start), run, start, q.until);
    SameShape(Launched(net, q, start), run, start, q.until);
    RoutedOrWaiting(end, q, depth);
    RoutedIsAware(end, q, depth);
    DepthIsAware(end, q, depth, q.d);
    CleanApart(net, q, start);
    path := WayOut(end, q, depth, q.d);
    DepthBound(end, q, depth, q.d);
    assert Connects(net, path, q.o, q.d);
  }

  lemma CleanApart(net: Net, q: Quest, now: Time)
    requires Clean(net, q, now)
    ensures q.o != q.d && q.reach >= 1 && q.until <= now + q.life
  {
  }

  lemma DepthBound(net: Net, q: Quest, depth: map<Addr, int>, a: Addr)
    requires Full(net, q, depth) && a in depth
    ensures depth[a] <= q.reach
  {
    hide Good, ForwardRoutes, Flying, Answers, Levels, Covered, Unaware, ReverseOk, Frame;
  }

  // ---------------------------------------------------------------------
  // Every discovery can come to rest

  /** From any state, delivering whatever is in flight ends with nothing in flight. */
  lemma {:induction false} ComesToRest(net: Net, q: Quest, depth: map<Addr, int>, now: Time)
    returns (run: seq<(nat, Time)>)
    requires Full(net, q, depth) && Timely(q, now)
    ensures Deliveries(net, run, now, q.until) && After(net, run, now, q.until).flight == []
    ensures forall j :: 0 <= j < |run| ==> run[j].1 == now
    decreases Potential(net, q.Key()) + Work(net, q, depth)
  {
    hide Full, Deliver, Potential, Settled, Work, InFlood, CanDeliver, Deliveries, After;
    WorkNatural(net, q, depth);
    if net.flight == [] {
      run := [];
      NoneDelivered(net, now, q.until);
    } else {
      FullCanDeliver(net, q, depth, 0);
      FullSettled(net, q, depth, now);
      PotentialStep(net, 0, now, q.Key(), q.until);
      FloodOrReply(net, q, depth, 0);
      var depth1 := FullStep(net, q, depth, 0, now);
      var rest := ComesToRest(Deliver(net, 0, now), q, depth1, now);
      run := [(0, now)] + rest;
      OneThenRest(net, 0, now, rest, q.until);
    }
  }

  lemma NoneDelivered(net: Net, from: Time, until: Time)
    ensures Deliveries(net, [], from, until) && After(net, [], from, until) == net
  {
  }

  lemma OneThenRest(net: Net, i: nat, now: Time, rest: seq<(nat, Time)>, until: Time)
    requires CanDeliver(net, i) && now <= until && Deliveries(Deliver(net, i, now), rest, now, until)
    requires forall j :: 0 <= j < |rest| ==> rest[j].1 == now
    ensures var run := [(i, now)] + rest;
            && Deliveries(net, run, now, until)
            && After(net, run, now, until) == After(Deliver(net, i, now), rest, now, until)
            && forall j :: 0 <= j < |run| ==> run[j].1 == now
  {
    hide Deliver, CanDeliver;
    var run := [(i, now)] + rest;
    assert run[1..] == rest;
  }

  lemma RunToRest(net: Net, q: Quest, start: Time) returns (run: seq<(nat, Time)>)
    requires Clean(net, q, start)
    ensures Deliveries(Launched(net, q, start), run, start, q.until)
    ensures After(Launched(net, q, start), run, start, q.until).flight == []
    ensures forall j :: 0 <= j < |run| ==> run[j].1 == start
  {
    hide Launched, Full, Clean, Deliver;
    CleanTime(net, q, start);
    Launch(net, q, start);
    run := ComesToRest(Launched(net, q, start), q, map[], start);
  }

  // ---------------------------------------------------------------------
  // Started nodes

  /** What `Clean` asks of a node holds of one that has just started. */
  lemma StartedIsClean(cfg: Config, iface: Iface, lo: Device, jitter: Time, q: Quest)
    requires iface.broadcast != LOOPBACK && iface.broadcast != NO_ADDR && q.until <= FOREVER
    ensures var s := Started(cfg, [iface], lo, jitter, 0);
            && Steady(s.table, iface, q.until, {}) && s.table.Keys == {LOOPBACK, iface.broadcast}
            && s.neighbors == [] && Unaware(s, q.Key()) && s.ctr.requestId == 0 && s.search.rreqCount == 0
            && s.cfg == cfg && s.ifaces == [iface]
  {
    hide Started, AddBroadcastRoutes, Add;
    StartedTable(cfg, iface, lo, jitter);
    StartedRest(cfg, [iface], lo, jitter, 0);
  }

  // ---------------------------------------------------------------------
  // Networks of new nodes

  ghost predicate JustStarted(s: Node, cfg: Config) {
    exists f: Iface, lo: Device, jitter: Time ::
      s == Started(cfg, [f], lo, jitter, 0) && f.broadcast != LOOPBACK && f.broadcast != NO_ADDR
  }

  /** Nodes that have just started, with usable addresses and symmetric links. */
  ghost predicate NewNetwork(net: Net, cfg: Config) {
    && WellFormed(net) && net.flight == [] && NO_ADDR !in net.nodes && LOOPBACK !in net.nodes
    && (forall a, b :: (a, b) in net.links ==> (b, a) in net.links)
    && (forall a :: a in net.nodes ==>
          && JustStarted(net.nodes[a], cfg)
          && net.nodes[a].ifaces[0].broadcast !in net.nodes && net.nodes[a].ifaces[0].BroadcastTarget() !in net.nodes)
  }

  /** The first request fits the parameters. */
  ghost predicate FirstOf(q: Quest, cfg: Config) {
    && q.id == 1 && q.reach == cfg.ttlStart >= 1 && 0 <= q.until <= q.life && q.until <= FOREVER
    && Lasting(cfg, q.life, q.reach) && cfg.rreqRateLimit != 0 && cfg.pathDiscoveryTime >= q.life
  }

  lemma NewNetworkIsClean(net: Net, cfg: Config, q: Quest)
    requires NewNetwork(net, cfg) && FirstOf(q, cfg) && q.o in net.nodes && q.d in net.nodes && q.o != q.d
    ensures Clean(net, q, 0)
  {
    hide Lasting, JustStarted, CleanNode;
    forall a | a in net.nodes
      ensures CleanNode(net.nodes[a], q, Sought(q, a)) && q.d !in net.nodes[a].table && net.nodes[a].cfg == cfg
      ensures net.nodes[a].ctr.requestId == 0 && net.nodes[a].search.rreqCount == 0
    {
      JustStartedIsClean(net.nodes[a], cfg, q, Sought(q, a));
    }
  }

  lemma JustStartedIsClean(s: Node, cfg: Config, q: Quest, sought: set<Addr>)
    requires JustStarted(s, cfg) && q.until <= FOREVER && sought <= {q.d}
    requires |s.ifaces| == 1 && q.d != LOOPBACK && q.d != s.ifaces[0].broadcast
    ensures CleanNode(s, q, sought) && q.d !in s.table && s.cfg == cfg
    ensures s.ctr.requestId == 0 && s.search.rreqCount == 0 && !s.search.aborted
  {
    hide Started, Unaware;
    var f: Iface, lo: Device, jitter: Time :|
      s == Started(cfg, [f], lo, jitter, 0) && f.broadcast != LOOPBACK && f.broadcast != NO_ADDR;
    StartedRest(cfg, [f], lo, jitter, 0);
    StartedIsClean(cfg, f, lo, jitter, q);
  }

  /** Parameters under which two seconds of life last for any TTL. */
  function LongLived(reach: U8): Config {
    DEFAULTS.(ttlStart := reach, netTraversalTime := 20 * SECOND)
  }

  lemma LongLivedLasts(reach: U8)
    ensures Lasting(LongLived(reach), 2 * SECOND, reach)
  {
  }

  function IfaceAt(a: Addr): Iface { Iface(a, 0xFFFF_FFFF, false, 1) }

  function NodeAt(a: Addr, reach: U8): Node { Started(LongLived(reach), [IfaceAt(a)], 0, 0, 0) }

  function NewNet(addrs: set<Addr>, links: set<(Addr, Addr)>, reach: U8): Net {
    Net(map a | a in addrs :: NodeAt(a, reach), links, [])
  }

  function FirstQuest(o: Addr, d: Addr, reach: U8): Quest { Quest(o, d, 1, reach, 2 * SECOND, 2 * SECOND) }

  lemma NewNetIsClean(addrs: set<Addr>, links: set<(Addr, Addr)>, o: Addr, d: Addr, reach: U8)
    requires o in addrs && d in addrs && o != d && reach >= 1
    requires NO_ADDR !in addrs && LOOPBACK !in addrs && 0xFFFF_FFFF !in addrs
    requires forall a, b :: (a, b) in links ==> (b, a) in links
    ensures Clean(NewNet(addrs, links, reach), FirstQuest(o, d, reach), 0)
  {
    hide Lasting, Started, Clean;
    var net := NewNet(addrs, links, reach);
    LongLivedLasts(reach);
    forall a | a in net.nodes
      ensures net.nodes[a].ifaces == [IfaceAt(a)] && JustStarted(net.nodes[a], LongLived(reach))
    {
      StartedRest(LongLived(reach), [IfaceAt(a)], 0, 0, 0);
    }
    NewNetworkIsClean(net, LongLived(reach), FirstQuest(o, d, reach));
  }

  // ---------------------------------------------------------------------
  // The line

  function LineAddrs(n: nat): (r: set<Addr>)
    requires n < NO_ADDR
    ensures forall a :: a in r <==> 1 <= a <= n
    ensures |r| == n
  {
    if n == 0 then {} else LineAddrs(n - 1) + {n}
  }

  function LineLinks(n: nat): set<(Addr, Addr)> {
    set a: Addr, b: Addr | 1 <= a <= n && 1 <= b <= n && (b == a + 1 || a == b + 1) :: (a, b)
  }

  /** The new nodes 1 to `n` in a row. */
  function Line(n: nat, reach: U8): Net
    requires n < NO_ADDR
  {
    NewNet(LineAddrs(n), LineLinks(n), reach)
  }

  lemma LineIsClean(n: Addr, reach: U8)
    requires 2 <= n < NO_ADDR && reach >= 1
    ensures Clean(Line(n, reach), FirstQuest(1, n, reach), 0)
  {
    hide Clean;
    NewNetIsClean(LineAddrs(n), LineLinks(n), 1, n, reach);
  }

  lemma LineSize(n: nat, reach: U8)
    requires n < NO_ADDR
    ensures |Line(n, reach).nodes| == n
  {
    hide NodeAt;
    assert Line(n, reach).nodes.Keys == LineAddrs(n);
  }

  lemma LineConnects(n: Addr, reach: U8)
    requires 2 <= n < NO_ADDR
    ensures Connects(Line(n, reach), seq(n, i requires 0 <= i < n => (i + 1) as Addr), 1, n)
  {
    hide NodeAt;
  }

  /** No step of a path in the line gets further than one node on. */
  lemma {:induction false} LineStep(n: Addr, reach: U8, path: seq<Addr>, i: nat)
    requires n < NO_ADDR && Connects(Line(n, reach), path, 1, n) && i < |path|
    ensures path[i] <= i + 1
  {
    hide NodeAt;
    if i > 0 {
      LineStep(n, reach, path, i - 1);
      assert (path[i - 1], path[i]) in Line(n, reach).links;
    }
  }

  // ---------------------------------------------------------------------
  // The bound

  /** Every run of the discovery that comes to rest ends with a valid route. */
  ghost predicate Succeeds(net: Net, q: Quest, start: Time) {
    q.o in net.nodes &&
    forall run :: Deliveries(Launched(net, q, start), run, start, q.until)
                  && After(Launched(net, q, start), run, start, q.until).flight == []
      ==> Routed(After(Launched(net, q, start), run, start, q.until), q)
  }

  /** The TTL is enough in every network of `n` nodes that joins the two ends. */
  ghost predicate ReachSuffices(n: nat, reach: U8) {
    forall net: Net, q: Quest, start: Time, path: seq<Addr> ::
      |net.nodes| == n && q.reach == reach && Clean(net, q, start) && Connects(net, path, q.o, q.d)
      ==> Succeeds(net, q, start)
  }

  lemma LargeReachSuffices(net: Net, q: Quest, start: Time, path: seq<Addr>)
    requires Clean(net, q, start) && Connects(net, path, q.o, q.d) && q.reach >= |net.nodes| - 1
    ensures Succeeds(net, q, start)
  {
    hide Clean, Launched, Deliver, Routed, Connects;
    CleanTime(net, q, start);
    forall run | Deliveries(Launched(net, q, start), run, start, q.until)
                 && After(Launched(net, q, start), run, start, q.until).flight == []
      ensures Routed(After(Launched(net, q, start), run, start, q.until), q)
    {
      DiscoverySucceeds(net, q, start, run, path);
    }
  }

  lemma SmallReachFails(n: Addr, reach: U8)
    requires 2 <= n < NO_ADDR && 1 <= reach < n - 1
    ensures !Succeeds(Line(n, reach), FirstQuest(1, n, reach), 0)
  {
    hide Clean, Launched, Deliver, Routed, Line;
    var net, q := Line(n, reach), FirstQuest(1, n, reach);
    LineIsClean(n, reach);
    CleanTime(net, q, 0);
    var run := RunToRest(net, q, 0);
    if Routed(After(Launched(net, q, 0), run, 0, q.until), q) {
      var path := FoundIsWithinReach(net, q, 0, run);
      LineStep(n, reach, path, |path| - 1);
      assert false;
    }
  }

  /** In networks of `n` nodes a TTL suffices exactly when it is at least `n - 1`. */
  lemma ReachSufficesExactly(n: Addr, reach: U8)
    requires 2 <= n < NO_ADDR && reach >= 1
    ensures ReachSuffices(n, reach) <==> reach >= n - 1
  {
    hide Clean, Succeeds, Connects;
    if reach >= n - 1 {
      forall net: Net, q: Quest, start: Time, path: seq<Addr>
        | |net.nodes| == n && q.reach == reach && Clean(net, q, start) && Connects(net, path, q.o, q.d)
        ensures Succeeds(net, q, start)
      {
        LargeReachSuffices(net, q, start, path);
      }
    } else {
      LineIsClean(n, reach);
      LineSize(n, reach);
      LineConnects(n, reach);
      SmallReachFails(n, reach);
    }
  }

  // ---------------------------------------------------------------------
  // The distance is not enough

  /** Once every neighbour of the destination has the request at the last depth,
      the destination never gets it. */
  lemma SpentNeighborsBlock(net: Net, q: Quest, depth: map<Addr, int>, run: seq<(nat, Time)>, from: Time)
    requires Full(net, q, depth) && Deliveries(net, run, from, q.until) && q.until <= from + q.life
    requires (q.o, q.d) !in net.links
    requires forall b :: (b, q.d) in net.links ==> b in depth && depth[b] == q.reach
    ensures !Routed(After(net, run, from, q.until), q)
  {
    hide Full, Deliver, Aware, Routed, Waiting;
    var end := After(net, run, from, q.until);
    var depth' := RunFull(net, q, depth, run, from);
    SameShape(net, run, from, q.until);
    RoutedOrWaiting(end, q, depth');
    if Routed(end, q) {
      RoutedIsAware(end, q, depth');
      EndsDiffer(end, q, depth');
      DepthIsAware(end, q, depth', q.d);
      StepBack(end, q, depth', q.d);
      DepthBound(end, q, depth', q.d);
    }
  }

  lemma EndsDiffer(net: Net, q: Quest, depth: map<Addr, int>)
    requires Full(net, q, depth)
    ensures q.o != q.d
  {
    hide Good, ForwardRoutes, Flying, Answers, Levels, Covered, Depths;
  }

  /** A relayed request is on its way to each neighbour of the relay. */
  lemma RelayedTo(net: Net, q: Quest, depth: map<Addr, int>, i: nat, b: Addr, now: Time) returns (j: nat)
    requires Full(net, q, depth) && i < |net.flight| && Timely(q, now) && CanDeliver(net, i)
    requires net.flight[i].msg.RREQ? && !Aware(net, q, net.flight[i].to) && net.flight[i].to != q.d
    requires net.flight[i].msg.rreq.hopCount + 1 < q.reach && b in Neighbors(net, net.flight[i].to)
    ensures var net' := Deliver(net, i, now);
            && j < |net'.flight| && net'.flight[j].to == b && net'.flight[j].sender == net.flight[i].to
            && net'.flight[j].msg.RREQ?
  {
    hide Covered, Levels, Deliver, Aware, AllCopies, Frame, Good, Depths, ForwardRoutes, Flying, Answers, FirstSends,
         CanDeliver, RequestOk, PacketOk, Rest;
    var p := net.flight[i];
    var net' := Deliver(net, i, now);
    RestFlying(net, q, depth, i);
    RequestAt(net, q, depth, p);
    FirstStep(net, q, depth, i, now);
    UnawareAt(net, q, depth, p.to);
    RelayedFlies(net, net', q, depth, i, now);
    var c := AllCopies(net, p.to, FirstSends(net, net', q, p));
    var r :| r in c && r.to == b && r.msg.RREQ?;
    AllCopiesMembers(net, p.to, FirstSends(net, net', q, p));
    assert r in net'.flight;
    j :| 0 <= j < |net'.flight| && net'.flight[j] == r;
  }

  /** 1 and 4 are joined over 3; 2 hears 1 and 3. */
  function Detour(): Net {
    NewNet({1, 2, 3, 4}, {(1, 2), (2, 1), (1, 3), (3, 1), (2, 3), (3, 2), (3, 4), (4, 3)}, 2)
  }

  lemma DetourIsClean()
    ensures Clean(Detour(), FirstQuest(1, 4, 2), 0)
  {
    hide Clean, NewNet;
    NewNetIsClean({1, 2, 3, 4}, {(1, 2), (2, 1), (1, 3), (3, 1), (2, 3), (3, 2), (3, 4), (4, 3)}, 1, 4, 2);
  }

  /** The request of a node that heard the originator itself. */
  lemma FirstHopAt(net: Net, q: Quest, i: nat)
    requires Full(net, q, map[]) && i < |net.flight| && net.flight[i].msg.RREQ?
    ensures net.flight[i].msg.rreq.hopCount == 0
  {
    hide Frame, Good, Depths, ForwardRoutes, Answers, Levels, Covered;
    assert PacketOk(net, q, map[], net.flight[i]);
  }

  lemma HopsAt(net: Net, q: Quest, depth: map<Addr, int>, i: nat)
    requires Full(net, q, depth) && i < |net.flight| && net.flight[i].msg.RREQ? && net.flight[i].sender in depth
    ensures net.flight[i].msg.rreq.hopCount == depth[net.flight[i].sender]
  {
    hide Frame, Good, ForwardRoutes, Answers, Levels, Covered, ReverseOk, Aware;
    assert PacketOk(net, q, depth, net.flight[i]);
  }

  /** The originator's copy to a neighbour that has not heard the request. */
  lemma CopyTo(net: Net, q: Quest, depth: map<Addr, int>, b: Addr) returns (i: nat)
    requires Full(net, q, depth) && b in net.nodes && (q.o, b) in net.links && !Aware(net, q, b)
    ensures i < |net.flight| && net.flight[i].to == b && net.flight[i].msg.RREQ?
  {
    hide Inv, Levels, Aware;
    assert Relaying(q, depth, q.o);
    var p :| p in net.flight && p.to == b && p.msg.RREQ?;
    i :| 0 <= i < |net.flight| && net.flight[i] == p;
  }

  /** A delivery to a node that has not heard the request gives it a depth. */
  lemma Hears(net: Net, q: Quest, depth: map<Addr, int>, i: nat, now: Time)
    requires Full(net, q, depth) && i < |net.flight| && Timely(q, now)
    requires net.flight[i].msg.RREQ? && net.flight[i].to !in depth && net.flight[i].to !in {q.o, q.d}
    ensures CanDeliver(net, i) && !Aware(net, q, net.flight[i].to)
    ensures Full(Deliver(net, i, now), q, depth[net.flight[i].to := net.flight[i].msg.rreq.hopCount + 1])
    ensures Deliver(net, i, now).nodes.Keys == net.nodes.Keys && Deliver(net, i, now).links == net.links
  {
    hide Full, Deliver, CanDeliver, Aware;
    FullCanDeliver(net, q, depth, i);
    DepthIsAware(net, q, depth, net.flight[i].to);
    RelayFull(net, q, depth, i, now);
    SameShape(net, [(i, now)], now, q.until);
  }

  /** The copies that go the long way round: 2 hears 1, then 3 hears 2. */
  lemma DetourTaken(net: Net, q: Quest) returns (i: nat, j: nat)
    requires Full(net, q, map[]) && q == FirstQuest(1, 4, 2)
    requires net.nodes.Keys == Detour().nodes.Keys && net.links == Detour().links
    ensures CanDeliver(net, i) && CanDeliver(Deliver(net, i, 0), j)
    ensures Full(Deliver(Deliver(net, i, 0), j, 0), q, map[2 := 1, 3 := 2])
    ensures Deliver(Deliver(net, i, 0), j, 0).links == net.links
  {
    hide Full, Deliver, CanDeliver, Aware, NodeAt;
    DepthIsAware(net, q, map[], 2);
    i := CopyTo(net, q, map[], 2);
    FirstHopAt(net, q, i);
    Hears(net, q, map[], i, 0);
    assert 3 in Neighbors(net, 2);
    j := RelayedTo(net, q, map[], i, 3, 0);
    var net1 := Deliver(net, i, 0);
    assert map[][2 := 1] == map[2 := 1];
    HopsAt(net1, q, map[2 := 1], j);
    Hears(net1, q, map[2 := 1], j, 0);
    assert map[2 := 1][3 := 2] == map[2 := 1, 3 := 2];
  }

  lemma TwoThenRest(net: Net, i: nat, t1: Time, j: nat, t2: Time, rest: seq<(nat, Time)>, from: Time, until: Time)
    requires CanDeliver(net, i) && CanDeliver(Deliver(net, i, t1), j) && from <= t1 <= t2 <= until
    requires Deliveries(Deliver(Deliver(net, i, t1), j, t2), rest, t2, until)
    ensures var run := [(i, t1), (j, t2)] + rest;
            && Deliveries(net, run, from, until)
            && After(net, run, from, until) == After(Deliver(Deliver(net, i, t1), j, t2), rest, t2, until)
  {
    hide Deliver, CanDeliver;
    var last: seq<(nat, Time)> := [(j, t2)] + rest;
    var run: seq<(nat, Time)> := [(i, t1), (j, t2)] + rest;
    assert last[1..] == rest && run[1..] == last;
    assert Deliveries(Deliver(net, i, t1), last, t1, until);
  }

  /** A TTL of the distance is not always enough: the destination is two links
      away, but when its only neighbour first hears the copy that came the long
      way round, it has no TTL left to pass on. */
  lemma DistanceIsNotEnough()
    ensures var net, q := Detour(), FirstQuest(1, 4, 2);
            Clean(net, q, 0) && Connects(net, [1, 3, 4], q.o, q.d) && q.reach == 2 && !Succeeds(net, q, 0)
  {
    hide Clean, Launched, Full, Deliver, CanDeliver, Routed, NodeAt;
    var net, q := Detour(), FirstQuest(1, 4, 2);
    DetourIsClean();
    CleanTime(net, q, 0);
    Launch(net, q, 0);
    var net1 := Launched(net, q, 0);
    var i, j := DetourTaken(net1, q);
    var net3 := Deliver(Deliver(net1, i, 0), j, 0);
    var rest := ComesToRest(net3, q, map[2 := 1, 3 := 2], 0);
    SpentNeighborsBlock(net3, q, map[2 := 1, 3 := 2], rest, 0);
    TwoThenRest(net1, i, 0, j, 0, rest, 0, q.until);
  }

  // ---------------------------------------------------------------------
  // The hypotheses can be met

  /** Two seconds lie within every lifetime that nodes with default parameters
      hand out, over any number of hops up to the network diameter. */
  lemma DefaultsLast()
    ensures Lasting(DEFAULTS, 2 * SECOND, DEFAULTS.netDiameter)
  {
  }

  function TwoNodes(f: Iface, g: Iface, lo: Device, jitter: Time): Net {
    Net(map[f.local := Started(DEFAULTS, [f], lo, jitter, 0), g.local := Started(DEFAULTS, [g], lo, jitter, 0)],
        {(f.local, g.local), (g.local, f.local)}, [])
  }

  /** Usable addresses: those of the nodes are no broadcast, loopback or default address. */
  ghost predicate Pair(f: Iface, g: Iface) {
    && f.local != g.local && {f.local, g.local} !! {NO_ADDR, LOOPBACK}
    && {f.broadcast, f.BroadcastTarget(), g.broadcast, g.BroadcastTarget()} !! {f.local, g.local, NO_ADDR, LOOPBACK}
  }

  lemma TwoNodesClean(f: Iface, g: Iface, lo: Device, jitter: Time)
    requires Pair(f, g)
    ensures Clean(TwoNodes(f, g, lo, jitter), Quest(f.local, g.local, 1, 1, 2 * SECOND, 2 * SECOND), 0)
  {
    hide Lasting, Started, Clean;
    var net := TwoNodes(f, g, lo, jitter);
    var q := Quest(f.local, g.local, 1, 1, 2 * SECOND, 2 * SECOND);
    DefaultsLast();
    LastingLess(DEFAULTS, 2 * SECOND, DEFAULTS.netDiameter, 1);
    StartedRest(DEFAULTS, [f], lo, jitter, 0);
    StartedRest(DEFAULTS, [g], lo, jitter, 0);
    assert JustStarted(net.nodes[f.local], DEFAULTS) && JustStarted(net.nodes[g.local], DEFAULTS);
    NewNetworkIsClean(net, DEFAULTS, q);
  }

  /** Two new nodes with default parameters, the hypotheses of `DiscoverySucceeds`
      and `ReachSuffices`: one request, one reply, one route. */
  lemma TwoNodesFindEachOther(f: Iface, g: Iface, lo: Device, jitter: Time, t1: Time, t2: Time)
    requires Pair(f, g) && 0 <= t1 <= t2 <= 2 * SECOND
    ensures var q := Quest(f.local, g.local, 1, 1, 2 * SECOND, 2 * SECOND);
            var net := TwoNodes(f, g, lo, jitter);
            var run: seq<(nat, Time)> := [(0, t1), (0, t2)];
            && Clean(net, q, 0) && Deliveries(Launched(net, q, 0), run, 0, q.until)
            && Connects(net, [q.o, q.d], q.o, q.d) && q.reach >= |net.nodes| - 1
            && After(Launched(net, q, 0), run, 0, q.until).flight == []
            && Routed(After(Launched(net, q, 0), run, 0, q.until), q)
  {
    hide Started, Clean, Launched, Full, Deliver, Aware, Routed, Waiting, Inv;
    var q := Quest(f.local, g.local, 1, 1, 2 * SECOND, 2 * SECOND);
    var net := TwoNodes(f, g, lo, jitter);
    TwoNodesClean(f, g, lo, jitter);
    CleanTime(net, q, 0);
    var net1 := Launched(net, q, 0);
    Launch(net, q, 0);
    assert Neighbors(net, q.o) == {q.d};
    OneRequest(net, q, 0);
    FullCanDeliver(net1, q, map[], 0);
    var r := AnswerFull(net1, q, map[], 0, t1);
    var net2 := Deliver(net1, 0, t1);
    var depth := map[q.d := net1.flight[0].msg.rreq.hopCount + 1];
    assert map[][q.d := net1.flight[0].msg.rreq.hopCount + 1] == depth;
    assert Rest(net1, 0) == [];
    ReplyComesHome(net2, q, depth, r);
    FullCanDeliver(net2, q, depth, 0);
    GetFull(net2, q, depth, 0, t2);
    var net3 := Deliver(net2, 0, t2);
    EndsRouted(net2, q, depth, t2);
    RoutedOrWaiting(net3, q, depth);
    TwoThenRest(net1, 0, t1, 0, t2, [], 0, q.until);
    assert [(0 as nat, t1), (0 as nat, t2)] + [] == [(0 as nat, t1), (0 as nat, t2)];
  }

  lemma ReplyComesHome(net: Net, q: Quest, depth: map<Addr, int>, r: Packet)
    requires Full(net, q, depth) && r in net.flight && r.msg.RREP? && depth.Keys == {q.d}
    ensures r.to == q.o
  {
    hide Frame, Good, Depths, ForwardRoutes, Answers, Levels, Covered, HasRoute;
    assert PacketOk(net, q, depth, r);
  }

  lemma EndsRouted(net: Net, q: Quest, depth: map<Addr, int>, now: Time)
    requires Inv(net, q, depth) && |net.flight| == 1 && Timely(q, now) && CanDeliver(net, 0)
    requires net.flight[0].msg.RREP? && net.flight[0].to == q.o
    ensures !Waiting(Deliver(net, 0, now), q) && Deliver(net, 0, now).flight == []
  {
    hide Inv, Waiting, Deliver;
    GetStep(net, q, depth, 0, now);
    assert Rest(net, 0) == [];
  }

  lemma OneRequest(net: Net, q: Quest, now: Time)
    requires Clean(net, q, now) && Neighbors(net, q.o) == {q.d}
    ensures var flight := Launched(net, q, now).flight;
            |flight| == 1 && flight[0].to == q.d && flight[0].msg.RREQ?
  {
    hide SendRequest, SortedKeys, Lasting, RequestFor, Unaware, GoodNode, Knows, RateLimited, Clean, Steady, Neighbors;
    CleanOriginator(net, q, now);
    var s := net.nodes[q.o];
    LaunchNode(s, q, now);
    var m := Sent(RREQ(RequestFor(s, q.d, q.o, now)), q.reach, s.ifaces[0], s.ifaces[0].BroadcastTarget());
    assert NewSends(s, SendRequest(s, q.d, now)) == [m];
    assert AllCopies(net, q.o, [m]) == Copies(net, q.o, m) + AllCopies(net, q.o, []);
    NoCopies(net, q.o);
    var keys := SortedKeys({q.d});
    assert |keys| == 1 && keys[0] in keys && keys[0] == q.d;
    assert CopiesTo(keys, q.o, m)[0] == Packet(q.d, q.o, m.msg, m.ttl);
  }
}
