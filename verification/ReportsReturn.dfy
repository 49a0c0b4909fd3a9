/** A route error goes back the whole route: from wherever on a discovered route
    a link breaks, the reports lead from precursor to precursor to the
    originator, whose route becomes INVALID (section 6.11 of RFC 3561). */
module ReportsReturn {
  import opened Base
  import opened Messages
  import opened RouteTable
  import opened NodeState
  import opened LinkBreak
  import opened Routes
  import opened NodeEvents
  import opened Frames
  import opened LoopFreedom
  import opened LinkCut
  import opened Network
  import opened Flood
  import opened SteadyNode
  import opened ReplyDelivery
  import opened ReplyRuns
  import opened PathPrecursors
  import PacketDelivery

  // ---------------------------------------------------------------------
  // One node

  /** A report about `d`, of a size that fits its count byte. */
  predicate IsReport(m: Message, d: Addr) {
    m.RERR? && d in m.rerr.unreachable && |m.rerr.unreachable| <= 255
  }

  /** Below the rate limit, a report to the listed precursors reaches each that
      the node has a valid route to over its interface. */
  lemma ReportSent(s: Node, rerr: Rerr, precursors: seq<Addr>, a: Addr, iface: Iface)
    requires a in precursors && IsValid(s.table, a) && s.table[a].info.iface == iface
    requires s.ctr.rerrCount != s.cfg.rerrRateLimit
    ensures var out := RerrSends(s, rerr, precursors);
            exists i :: 0 <= i < |out| && out[i].msg == RERR(rerr) && out[i].ttl == 1 && out[i].iface == iface
                        && (out[i].to == a || out[i].to == iface.BroadcastTarget())
  {
    hide PrecursorIfaces;
    var out := RerrSends(s, rerr, precursors);
    RerrGoesTo(s, rerr, precursors);
    if |precursors| == 1 {
      assert precursors[0] == a;
      assert out[0].to == a;
    } else {
      assert Reaches(s.table, precursors, iface);
      assert BroadcastOn(out, iface);
    }
  }

  /** A node on a discovered route: it routes to `d` over `next` and lists `prev`. */
  ghost predicate OnRoute(s: Node, d: Addr, next: Addr, prev: Addr, q: Quest) {
    && |s.ifaces| == 1 && Steady(s.table, s.ifaces[0], q.until, {}) && s.cfg.activeRouteTimeout >= q.life
    && IsValid(s.table, d) && s.table[d].route.nextHop == next && next in s.table
    && prev in s.table && prev != LOOPBACK && prev in s.table[d].info.precursors
  }

  /** Going from `s` to `s'` the node sent a report about `d` that `prev` hears. */
  ghost predicate ReportsTo(s: Node, s': Node, d: Addr, prev: Addr) {
    && s.ifaces != [] && s.log.sent <= s'.log.sent
    && exists i :: |s.log.sent| <= i < |s'.log.sent| && IsReport(s'.log.sent[i].msg, d) && s'.log.sent[i].ttl == 1
                   && s'.log.sent[i].iface == s.ifaces[0]
                   && (s'.log.sent[i].to == prev || s'.log.sent[i].to == s.ifaces[0].BroadcastTarget())
  }

  lemma SentReports(s: Node, s1: Node, s': Node, rerr: Rerr, precursors: seq<Addr>, d: Addr, prev: Addr)
    requires s.ifaces != [] && s1.log.sent == s.log.sent && s'.log.sent == s1.log.sent + RerrSends(s1, rerr, precursors)
    requires prev in precursors && IsValid(s1.table, prev) && s1.table[prev].info.iface == s.ifaces[0]
    requires s1.ctr.rerrCount != s1.cfg.rerrRateLimit && IsReport(RERR(rerr), d)
    ensures ReportsTo(s, s', d, prev)
  {
    hide RerrSends, IsReport;
    ReportSent(s1, rerr, precursors, prev, s.ifaces[0]);
    var out := RerrSends(s1, rerr, precursors);
    var i :| 0 <= i < |out| && out[i].msg == RERR(rerr) && out[i].ttl == 1 && out[i].iface == s.ifaces[0]
             && (out[i].to == prev || out[i].to == s.ifaces[0].BroadcastTarget());
    assert s'.log.sent[|s.log.sent| + i] == out[i];
  }

  /** It passes a report from its next hop on to the node that it lists. */
  lemma PassesOn(s: Node, rerr: Rerr, ttl: U8, d: Addr, next: Addr, prev: Addr, q: Quest, now: Time)
    requires OnRoute(s, d, next, prev, q) && IsReport(RERR(rerr), d) && s.ctr.rerrCount != s.cfg.rerrRateLimit
    requires now <= q.until <= now + q.life && next != d && next != NO_ADDR
    ensures ReportsTo(s, Receive(s, Some(RERR(rerr)), ttl, next, s.ifaces[0], now), d, prev)
  {
    hide RouteToNeighbor, RecvError, Steady, Purge, RerrSends, Affected, ReportsTo, SortedKeys, CollectPrecursors,
         Meets;
    var iface, s1 := s.ifaces[0], Met(s, next, s.ifaces[0], now);
    MetSteady(s, next, iface, q.until, {}, now);
    MetEntry(s, next, iface, q.until, {}, now, d);
    MeetsAllKeys(s.table, s1.table, next);
    SteadyPurge(s1.table, iface, q.until, {}, now, s.cfg.badLinkLifetime);
    SteadyEntry(s1.table, iface, q.until, {}, prev);
    RecvErrorForwards(s1, rerr, next, now);
    AffectedSize(s1.table, rerr.unreachable, next);
    AffectedIn(s1.table, rerr.unreachable, next, d);
    var affected := Affected(s1.table, rerr.unreachable, next);
    var prec := CollectPrecursors(s1.table, SortedKeys(affected.Keys), []);
    SentReports(s, s1.(table := s1.table), RecvError(s1, rerr, next, now), rerr.(unreachable := affected), prec, d,
        prev);
  }

  lemma AffectedIn(p: Table, unreachable: map<Addr, U32>, src: Addr, d: Addr)
    requires d in p && d in unreachable && p[d].route.nextHop == src
    ensures d in Affected(p, unreachable, src)
  {
  }

  /** The originator loses its route when its next hop reports the destination. */
  lemma OriginatorLoses(s: Node, rerr: Rerr, ttl: U8, d: Addr, next: Addr, q: Quest, now: Time)
    requires s.ifaces != [] && Steady(s.table, s.ifaces[0], q.until, {d}) && s.cfg.activeRouteTimeout >= q.life
    requires IsReport(RERR(rerr), d) && now <= q.until <= now + q.life && next != d && next != NO_ADDR
    requires IsValid(s.table, d) && s.table[d].route.nextHop == next
    ensures !IsValid(Receive(s, Some(RERR(rerr)), ttl, next, s.ifaces[0], now).table, d)
  {
    hide RouteToNeighbor, RecvError, Steady, Purge, Meets;
    var s1 := Met(s, next, s.ifaces[0], now);
    MetSteady(s, next, s.ifaces[0], q.until, {d}, now);
    MetEntry(s, next, s.ifaces[0], q.until, {d}, now, d);
    SteadyPurge(s1.table, s.ifaces[0], q.until, {d}, now, s.cfg.badLinkLifetime);
    RecvErrorTable(s1, rerr, next, now);
  }

  // ---------------------------------------------------------------------
  // The network

  lemma CopyReaches(net: Net, b: Addr, s: Node, s': Node, d: Addr, prev: Addr)
    requires ReportsTo(s, s', d, prev) && prev in net.nodes && (b, prev) in net.links
    requires s.ifaces[0].BroadcastTarget() != prev
    ensures exists c :: c in AllCopies(net, b, NewSends(s, s')) && c.to == prev && c.sender == b && IsReport(c.msg, d)
  {
    hide Copies, IsReport;
    var sends := NewSends(s, s');
    var i :| |s.log.sent| <= i < |s'.log.sent| && IsReport(s'.log.sent[i].msg, d) && s'.log.sent[i].ttl == 1
             && s'.log.sent[i].iface == s.ifaces[0]
             && (s'.log.sent[i].to == prev || s'.log.sent[i].to == s.ifaces[0].BroadcastTarget());
    assert sends[i - |s.log.sent|] == s'.log.sent[i];
    CopyOfSend(net, b, sends, i - |s.log.sent|, prev);
  }

  lemma {:induction false} CopyOfSend(net: Net, b: Addr, sends: seq<Sent>, i: nat, prev: Addr)
    requires i < |sends| && prev in net.nodes && (b, prev) in net.links
    requires sends[i].to == sends[i].iface.BroadcastTarget()
             || (sends[i].to == prev != sends[i].iface.BroadcastTarget())
    ensures Packet(prev, b, sends[i].msg, sends[i].ttl) in AllCopies(net, b, sends)
    decreases |sends|
  {
    hide SortedKeys;
    if i == 0 {
      CopiesMembers(net, b, sends[0]);
      assert prev in Neighbors(net, b);
      if sends[0].to != sends[0].iface.BroadcastTarget() {
        assert CopiesTo([prev], b, sends[0])[0] == Packet(prev, b, sends[0].msg, sends[0].ttl);
      }
    } else {
      CopyOfSend(net, b, sends[1..], i - 1, prev);
    }
  }

  /** The route as the discovery left it: `path[i]` for `i` below `k` is untouched
      and below the rate limit. */
  ghost predicate RouteUpTo(net: Net, q: Quest, path: seq<Addr>, k: nat) {
    && k <= |path| - 1 && |path| >= 2 && path[0] == q.o
    && (forall i :: 0 <= i < k ==> StepOk(net, q, path, i))
  }

  /** The step from `path[i]` to `path[i + 1]`. */
  ghost predicate StepOk(net: Net, q: Quest, path: seq<Addr>, i: nat)
    requires i + 1 < |path|
  {
    && path[i] in net.nodes && path[i + 1] in net.nodes && path[i + 1] != NO_ADDR
    && (path[i + 1], path[i]) in net.links
    && var s := net.nodes[path[i]];
    && |s.ifaces| == 1
    && (if i == 0 then
          Steady(s.table, s.ifaces[0], q.until, {q.d}) && s.cfg.activeRouteTimeout >= q.life
          && IsValid(s.table, q.d) && s.table[q.d].route.nextHop == path[1]
        else
          OnRoute(s, q.d, path[i + 1], path[i - 1], q) && s.ctr.rerrCount != s.cfg.rerrRateLimit
          && s.ifaces[0].BroadcastTarget() != path[i - 1] && (path[i], path[i - 1]) in net.links
             && path[i - 1] in net.nodes)
  }

  /** A report about the destination is on its way from `path[k]` to the node before. */
  ghost predicate Reported(net: Net, d: Addr, path: seq<Addr>, k: nat)
    requires 1 <= k < |path|
  {
    exists c :: c in net.flight && c.to == path[k - 1] && c.sender == path[k] && IsReport(c.msg, d)
  }

  /** What the other nodes do does not matter for the part of the route that they are not on. */
  lemma RouteKept(net: Net, net': Net, q: Quest, path: seq<Addr>, k: nat)
    requires RouteUpTo(net, q, path, k) && net'.nodes.Keys == net.nodes.Keys && net'.links == net.links
    requires forall i :: 0 <= i < k ==> path[i] in net'.nodes && net'.nodes[path[i]] == net.nodes[path[i]]
    ensures RouteUpTo(net', q, path, k)
  {
    hide Steady;
    forall i | 0 <= i < k ensures StepOk(net', q, path, i) {
      assert StepOk(net, q, path, i);
    }
  }

  lemma RouteLess(net: Net, q: Quest, path: seq<Addr>, k: nat, j: nat)
    requires RouteUpTo(net, q, path, k) && j <= k
    ensures RouteUpTo(net, q, path, j)
  {
    hide StepOk;
  }

  /** A node on the way passes the report on. */
  lemma PassedBack(net: Net, q: Quest, path: seq<Addr>, k: nat, i: nat, now: Time)
    requires RouteUpTo(net, q, path, k) && Distinct(path) && 2 <= k < |path| - 1 && path[k] != q.d
    requires CanDeliver(net, i) && net.flight[i].to == path[k - 1] && net.flight[i].sender == path[k]
    requires IsReport(net.flight[i].msg, q.d) && now <= q.until <= now + q.life
    ensures var net' := Deliver(net, i, now); RouteUpTo(net', q, path, k - 1) && Reported(net', q.d, path, k - 1)
  {
    hide Receive, Steady, IsReport, AllCopies, Distinct, RouteUpTo, ReportsTo, OnRoute;
    var c, net' := net.flight[i], Deliver(net, i, now);
    var s := net.nodes[c.to];
    StepAt(net, q, path, k, k - 1);
    ReportIs(c.msg, q.d);
    PassesOn(s, c.msg.rerr, c.ttl, q.d, path[k], path[k - 2], q, now);
    CopyReaches(net, c.to, s, net'.nodes[c.to], q.d, path[k - 2]);
    RouteLess(net, q, path, k, k - 1);
    DistinctBelow(path, k - 1);
    RouteIn(net, q, path, k - 1);
    RouteKept(net, net', q, path, k - 1);
  }

  lemma RouteIn(net: Net, q: Quest, path: seq<Addr>, k: nat)
    requires RouteUpTo(net, q, path, k)
    ensures k <= |path| - 1 && forall i :: 0 <= i < k ==> path[i] in net.nodes
  {
    hide OnRoute, Steady;
    forall i | 0 <= i < k ensures path[i] in net.nodes {
      assert StepOk(net, q, path, i);
    }
  }

  lemma StepAt(net: Net, q: Quest, path: seq<Addr>, k: nat, i: nat)
    requires RouteUpTo(net, q, path, k) && i < k
    ensures i + 1 < |path| && StepOk(net, q, path, i)
  {
    hide StepOk;
  }

  lemma ReportIs(m: Message, d: Addr)
    requires IsReport(m, d)
    ensures m.RERR? && IsReport(RERR(m.rerr), d)
  {
  }

  lemma DistinctBelow(path: seq<Addr>, k: nat)
    requires Distinct(path) && k < |path|
    ensures forall i :: 0 <= i < k ==> path[i] != path[k]
  {
  }

  lemma LastReport(net: Net, q: Quest, path: seq<Addr>, i: nat, now: Time)
    requires RouteUpTo(net, q, path, 1) && |path| > 2 && path[1] != q.d
    requires CanDeliver(net, i) && net.flight[i].to == path[0] && net.flight[i].sender == path[1]
    requires IsReport(net.flight[i].msg, q.d) && now <= q.until <= now + q.life
    ensures var net' := Deliver(net, i, now); q.o in net'.nodes && !IsValid(net'.nodes[q.o].table, q.d)
  {
    hide Receive, Steady, IsReport, AllCopies;
    var c := net.flight[i];
    StepAt(net, q, path, 1, 0);
    ReportIs(c.msg, q.d);
    OriginatorLoses(net.nodes[c.to], c.msg.rerr, c.ttl, q.d, path[1], q, now);
  }

  /** Delivered one after the other, the reports come back to the originator. */
  lemma {:induction false} ReportComesBack(net: Net, q: Quest, path: seq<Addr>, k: nat, now: Time)
    returns (run: seq<(nat, Time)>)
    requires RouteUpTo(net, q, path, k) && Distinct(path) && 1 <= k < |path| - 1 && path[|path| - 1] == q.d
    requires Reported(net, q.d, path, k) && now <= q.until <= now + q.life
    ensures Deliveries(net, run, now, q.until) && |run| == k
    ensures var end := After(net, run, now, q.until); q.o in end.nodes && !IsValid(end.nodes[q.o].table, q.d)
    decreases k
  {
    hide RouteUpTo, Deliver, IsReport, CanDeliver;
    var c :| c in net.flight && c.to == path[k - 1] && c.sender == path[k] && IsReport(c.msg, q.d);
    var i :| 0 <= i < |net.flight| && net.flight[i] == c;
    CanReport(net, q, path, k, i);
    DistinctEnd(path, k);
    if k == 1 {
      RouteStart(net, q, path, k);
      LastReport(net, q, path, i, now);
      run := [(i, now)];
      assert run[1..] == [];
    } else {
      PassedBack(net, q, path, k, i, now);
      var rest := ReportComesBack(Deliver(net, i, now), q, path, k - 1, now);
      run := [(i, now)] + rest;
      assert run[1..] == rest;
    }
  }

  lemma RouteStart(net: Net, q: Quest, path: seq<Addr>, k: nat)
    requires RouteUpTo(net, q, path, k)
    ensures |path| >= 2 && path[0] == q.o
  {
  }

  lemma DistinctEnd(path: seq<Addr>, k: nat)
    requires Distinct(path) && k < |path| - 1
    ensures path[k] != path[|path| - 1]
  {
  }

  lemma CanReport(net: Net, q: Quest, path: seq<Addr>, k: nat, i: nat)
    requires RouteUpTo(net, q, path, k) && 1 <= k && i < |net.flight| && net.flight[i].to == path[k - 1]
    ensures CanDeliver(net, i)
  {
    hide Steady;
    StepAt(net, q, path, k, k - 1);
  }

  // ---------------------------------------------------------------------
  // A broken link

  /** The link failure callback at `a` for its neighbour `b`. */
  function LinkBroken(net: Net, a: Addr, b: Addr, now: Time): Net
    requires a in net.nodes
  {
    var s := net.nodes[a];
    var s' := BreakLink(s, b, now);
    net.(nodes := net.nodes[a := s'], flight := net.flight + AllCopies(net, a, NewSends(s, s')))
  }

  lemma BreakReports(s: Node, d: Addr, next: Addr, prev: Addr, q: Quest, now: Time)
    requires OnRoute(s, d, next, prev, q) && s.ctr.rerrCount != s.cfg.rerrRateLimit && now <= q.until
    requires |LostDestinations(s.table, next)| <= 255
    ensures ReportsTo(s, BreakLink(s, next, now), d, prev)
  {
    hide Steady, Purge, RerrSends, LostDestinations, LostPrecursors, ReportsTo, BreakLink;
    SteadyPurge(s.table, s.ifaces[0], q.until, {}, now, s.cfg.badLinkLifetime);
    SteadyOk(s.table, s.ifaces[0], q.until, {});
    SteadyEntry(s.table, s.ifaces[0], q.until, {}, prev);
    EntryAt(s.table, d);
    BreakLinkReports(s, next, now);
    LostExactly(s.table, next);
    assert Uses(s.table[d], next) && prev in s.table[d].info.precursors;
    SentReports(s, s.(table := s.table), BreakLink(s, next, now), Rerr(0, 0, LostDestinations(s.table, next)),
                LostPrecursors(s.table, next), d, prev);
  }

  lemma BreakIsReported(net: Net, q: Quest, path: seq<Addr>, k: nat, now: Time)
    requires RouteUpTo(net, q, path, k + 1) && Distinct(path) && 1 <= k < |path| - 1 && now <= q.until
    requires path[k] in net.nodes && path[k + 1] in net.nodes[path[k]].table
    requires |LostDestinations(net.nodes[path[k]].table, path[k + 1])| <= 255
    ensures var net' := LinkBroken(net, path[k], path[k + 1], now);
            RouteUpTo(net', q, path, k) && Reported(net', q.d, path, k)
  {
    hide BreakLink, Steady, IsReport, AllCopies, Distinct, RouteUpTo, ReportsTo, OnRoute, LostDestinations;
    var net' := LinkBroken(net, path[k], path[k + 1], now);
    var s := net.nodes[path[k]];
    StepAt(net, q, path, k + 1, k);
    BreakReports(s, q.d, path[k + 1], path[k - 1], q, now);
    CopyReaches(net, path[k], s, net'.nodes[path[k]], q.d, path[k - 1]);
    RouteLess(net, q, path, k + 1, k);
    DistinctBelow(path, k);
    RouteIn(net, q, path, k);
    RouteKept(net, net', q, path, k);
  }

  // ---------------------------------------------------------------------
  // The route that a discovery leaves

  /** The nodes of the route before `path[k]` may still report. */
  ghost predicate MayReport(net: Net, path: seq<Addr>, k: nat) {
    forall i :: 1 <= i < k && i < |path| && path[i] in net.nodes ==>
      net.nodes[path[i]].ctr.rerrCount != net.nodes[path[i]].cfg.rerrRateLimit
  }

  lemma RouteStep(net: Net, q: Quest, path: seq<Addr>, i: nat)
    requires Frame(net, q) && Good(net, q) && LeadsTo(net, path, q.o, q.d) && ListedAlong(net, path, q.d)
    requires Distinct(path) && i < |path| - 1 && MayReport(net, path, i + 1)
    ensures StepOk(net, q, path, i)
  {
    hide Steady, OpenUntil, Knows, Unaware, Distinct;
    var s := net.nodes[path[i]];
    assert GoodNode(s, q, Sought(q, path[i]));
    assert path[i + 1] in net.nodes by { assert i + 1 == |path| - 1 || path[i + 1] in net.nodes; }
    if i > 0 {
      DistinctBelow(path, i);
      assert path[i - 1] in net.nodes && (path[i - 1], path[i]) in net.links;
      assert ListsBefore(net, path[i - 1], path[i], q.d);
      assert i < |path| - 2 ==> ListsBefore(net, path[i], path[i + 1], q.d);
    }
  }

  lemma RouteStands(net: Net, q: Quest, path: seq<Addr>, k: nat)
    requires Frame(net, q) && Good(net, q) && LeadsTo(net, path, q.o, q.d) && ListedAlong(net, path, q.d)
    requires k < |path| && |path| >= 2 && MayReport(net, path, k) && Distinct(path) && path[0] == q.o
    ensures RouteUpTo(net, q, path, k)
  {
    hide Frame, Good, LeadsTo, ListedAlong, StepOk, Distinct;
    forall i | 0 <= i < k ensures StepOk(net, q, path, i) {
      RouteStep(net, q, path, i);
    }
  }

  lemma FullFrame(net: Net, q: Quest, depth: map<Addr, int>)
    requires Full(net, q, depth)
    ensures Frame(net, q) && Good(net, q)
  {
    hide Frame, Good, Depths, ForwardRoutes, Flying, Answers, Levels, Covered;
  }

  /** The link behind `path[k]`, before the last node, may break: the nodes back to
      the originator may report, and the list is not too long for its count byte. */
  ghost predicate Reportable(net: Net, path: seq<Addr>, k: nat) {
    && 1 <= k < |path| - 1 && path[k] in net.nodes && path[k + 1] in net.nodes[path[k]].table
    && MayReport(net, path, k + 1) && |LostDestinations(net.nodes[path[k]].table, path[k + 1])| <= 255
  }

  ghost predicate LostAt(net: Net, o: Addr, d: Addr) { o in net.nodes && !IsValid(net.nodes[o].table, d) }

  /** Wherever on a discovered route a link breaks, the reports reach the
      originator in as many deliveries as there are hops back, and its route to
      the destination is not VALID any more. */
  lemma BreakComesBack(net: Net, q: Quest, start: Time, run: seq<(nat, Time)>, path: seq<Addr>, k: nat, now: Time)
    returns (back: seq<(nat, Time)>)
    requires Clean(net, q, start) && Deliveries(Launched(net, q, start), run, start, q.until)
    requires var end := After(Launched(net, q, start), run, start, q.until);
             LeadsTo(end, path, q.o, q.d) && ListedAlong(end, path, q.d) && Reportable(end, path, k)
    requires start <= now <= q.until
    ensures var broken := LinkBroken(After(Launched(net, q, start), run, start, q.until), path[k], path[k + 1], now);
            && Deliveries(broken, back, now, q.until) && |back| == k
            && LostAt(After(broken, back, now, q.until), q.o, q.d)
  {
    hide Launched, Full, Clean, Deliver, LeadsTo, ListedAlong, LinkBroken, LostAt;
    CleanTime(net, q, start);
    var depth := RunFromLaunch(net, q, start, run);
    var end := After(Launched(net, q, start), run, start, q.until);
    PacketDelivery.PathEnds(end, q, depth, path);
    FullFrame(end, q, depth);
    back := ComesBack(end, q, path, k, now);
  }

  lemma ComesBack(net: Net, q: Quest, path: seq<Addr>, k: nat, now: Time) returns (back: seq<(nat, Time)>)
    requires Frame(net, q) && Good(net, q) && LeadsTo(net, path, q.o, q.d) && ListedAlong(net, path, q.d)
    requires path[|path| - 1] == q.d && path[0] == q.o && now <= q.until <= now + q.life
    requires Reportable(net, path, k)
    ensures var broken := LinkBroken(net, path[k], path[k + 1], now);
            && Deliveries(broken, back, now, q.until) && |back| == k
            && LostAt(After(broken, back, now, q.until), q.o, q.d)
  {
    hide Frame, Good, Deliver, LeadsTo, ListedAlong, RouteUpTo, LostDestinations, LinkBroken, Distinct, MayReport,
         Reported;
    PacketDelivery.PathDistinct(net, path, q.o, q.d);
    RouteStands(net, q, path, k + 1);
    BreakIsReported(net, q, path, k, now);
    back := ReportComesBack(LinkBroken(net, path[k], path[k + 1], now), q, path, k, now);
  }
}
