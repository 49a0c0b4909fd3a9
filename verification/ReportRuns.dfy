/** Reports on their way home, in whatever order they are delivered: when only
    the destination is lost, every run that comes to rest has told the originator. */
module ReportRuns {
  import opened Base
  import opened Messages
  import opened RouteTable
  import opened NodeState
  import opened LinkBreak
  import opened Routes
  import opened NodeEvents
  import opened LoopFreedom
  import opened LinkCut
  import opened Network
  import opened SteadyNode
  import opened ReplyDelivery
  import opened ReplyRuns
  import opened PathPrecursors
  import opened ReportsReturn
  import PacketDelivery
  import Flood

  /** A report that lists at most `d`. */
  predicate Names(m: Message, d: Addr) { m.RERR? && m.rerr.unreachable.Keys <= {d} }

  /** What is in flight are reports about `d`, and `d`, which knows no route to
      itself, sent none of them. */
  ghost predicate OnlyAbout(net: Net, d: Addr) {
    && d in net.nodes && d !in net.nodes[d].table && NO_ADDR !in net.nodes
    && forall c :: c in net.flight ==> Names(c.msg, d) && c.sender != d && c.sender != NO_ADDR
  }

  // ---------------------------------------------------------------------
  // One node

  lemma NamesSize(m: Message, d: Addr)
    requires Names(m, d)
    ensures |m.rerr.unreachable| <= 255
  {
    assert |m.rerr.unreachable| == |m.rerr.unreachable.Keys|;
    SubsetSize(m.rerr.unreachable.Keys, {d});
  }

  lemma AffectedNames(p: Table, rerr: Rerr, src: Addr, d: Addr)
    requires Names(RERR(rerr), d)
    ensures Names(RERR(rerr.(unreachable := Affected(p, rerr.unreachable, src))), d)
    ensures d !in p || d !in rerr.unreachable || p[d].route.nextHop != src ==>
              Affected(p, rerr.unreachable, src) == map[]
  {
  }

  /** Reports lead to reports about the same destination; without an entry for it to none. */
  lemma ReportsOnly(s: Node, rerr: Rerr, ttl: U8, sender: Addr, rcv: Iface, now: Time, d: Addr)
    requires Names(RERR(rerr), d) && sender != d
    ensures var s' := Receive(s, Some(RERR(rerr)), ttl, sender, rcv, now);
            && (forall i :: 0 <= i < |NewSends(s, s')| ==> Names(NewSends(s, s')[i].msg, d))
            && (d !in s.table ==> NewSends(s, s') == [] && d !in s'.table)
  {
    hide RecvError, Purge, RerrSends, Affected, SortedKeys, CollectPrecursors, Names;
    var s1 := Met(s, sender, rcv, now);
    var p := s1.Purged(now);
    var s' := RecvError(s1, rerr, sender, now);
    NamesSize(RERR(rerr), d);
    AffectedNames(p, rerr, sender, d);
    RecvErrorForwards(s1, rerr, sender, now);
    var affected := Affected(p, rerr.unreachable, sender);
    var prec := CollectPrecursors(p, SortedKeys(affected.Keys), []);
    RerrGoesTo(s1.(table := p), rerr.(unreachable := affected), prec);
    var out := RerrSends(s1.(table := p), rerr.(unreachable := affected), prec);
    assert NewSends(s, s') == out;
    if d !in s.table {
      MetNot(s, sender, rcv, now, d);
      RecvErrorTable(s1, rerr, sender, now);
      NoSends(s1.(table := p), rerr.(unreachable := affected));
    }
  }

  lemma MetNot(s: Node, sender: Addr, rcv: Iface, now: Time, d: Addr)
    requires d !in s.table && sender != d
    ensures d !in Met(s, sender, rcv, now).table && d !in Met(s, sender, rcv, now).Purged(now)
  {
  }

  /** A report does not bring a route back. */
  lemma StaysLost(s: Node, rerr: Rerr, ttl: U8, sender: Addr, rcv: Iface, now: Time, d: Addr)
    requires !IsValid(s.table, d) && sender != d
    ensures !IsValid(Receive(s, Some(RERR(rerr)), ttl, sender, rcv, now).table, d)
  {
    hide RecvError;
    var s1 := Met(s, sender, rcv, now);
    RecvErrorTable(s1, rerr, sender, now);
  }

  /** A report that does not come from the next hop, or does not list the
      destination, leaves the route as it is. */
  lemma OtherKeeps(s: Node, rerr: Rerr, ttl: U8, sender: Addr, until: Time, sought: set<Addr>, now: Time, d: Addr)
    requires s.ifaces != [] && Steady(s.table, s.ifaces[0], until, sought) && now <= until
    requires now + s.cfg.activeRouteTimeout >= until && Names(RERR(rerr), d) && sender != d && sender != NO_ADDR
    requires d in s.table && (d !in rerr.unreachable || s.table[d].route.nextHop != sender)
    ensures var s' := Receive(s, Some(RERR(rerr)), ttl, sender, s.ifaces[0], now);
            && s'.cfg == s.cfg && s'.ifaces == s.ifaces && s'.ctr == s.ctr
            && Steady(s'.table, s.ifaces[0], until, sought) && Get(s'.table, d) == Get(s.table, d)
            && (forall k :: k in s.table ==> k in s'.table)
  {
    hide RouteToNeighbor, Steady, Purge, Meets, Affected, SendRerrMessage, CollectPrecursors, SortedKeys;
    var iface, s1 := s.ifaces[0], Met(s, sender, s.ifaces[0], now);
    MetSteady(s, sender, iface, until, sought, now);
    MetEntry(s, sender, iface, until, sought, now, d);
    MeetsAllKeys(s.table, s1.table, sender);
    SteadyPurge(s1.table, iface, until, sought, now, s.cfg.badLinkLifetime);
    AffectedNames(s1.table, rerr, sender, d);
    assert |Affected(s1.table, rerr.unreachable, sender)| == 0;
    assert InvalidateAll(s1.table, {}, now, s.cfg.badLinkLifetime) == s1.table;
  }

  // ---------------------------------------------------------------------
  // One delivery

  lemma OnlyStep(net: Net, d: Addr, i: nat, now: Time)
    requires OnlyAbout(net, d) && CanDeliver(net, i)
    ensures OnlyAbout(Deliver(net, i, now), d)
  {
    hide Receive, AllCopies, Names;
    var c, net' := net.flight[i], Deliver(net, i, now);
    var s, s' := net.nodes[c.to], net'.nodes[c.to];
    NamesReport(c.msg, d);
    ReportsOnly(s, c.msg.rerr, c.ttl, c.sender, s.ifaces[0], now, d);
    AllCopiesMembers(net, c.to, NewSends(s, s'));
    RestMembers(net, i);
  }

  lemma NamesReport(m: Message, d: Addr)
    requires Names(m, d)
    ensures m.RERR? && m == RERR(m.rerr) && |m.rerr.unreachable| <= 255 && (IsReport(m, d) <==> d in m.rerr.unreachable)
  {
    NamesSize(m, d);
  }

  lemma RestMembers(net: Net, i: nat)
    requires i < |net.flight|
    ensures forall c :: c in Rest(net, i) ==> c in net.flight
    ensures forall c :: c in net.flight && c != net.flight[i] ==> c in Rest(net, i)
  {
    forall c | c in net.flight && c != net.flight[i] ensures c in Rest(net, i) {
      var j :| 0 <= j < |net.flight| && net.flight[j] == c;
      if j < i { assert Rest(net, i)[j] == c; } else { assert Rest(net, i)[j - 1] == c; }
    }
  }

  /** The originator has lost its route, or a report is on its way along the rest of it. */
  ghost predicate Returning(net: Net, q: Quest, path: seq<Addr>) {
    || LostAt(net, q.o, q.d)
    || (exists k :: 1 <= k < |path| - 1 && RouteUpTo(net, q, path, k) && Reported(net, q.d, path, k))
  }

  /** What a delivery that is no report from the next hop does to the route. */
  lemma StepKept(net: Net, q: Quest, path: seq<Addr>, k: nat, j: nat, i: nat, now: Time)
    requires OnlyAbout(net, q.d) && RouteUpTo(net, q, path, k) && j < k && CanDeliver(net, i)
             && now <= q.until <= now + q.life
    requires net.flight[i].to == path[j] && Names(net.flight[i].msg, q.d)
    requires net.flight[i].sender != path[j + 1] || q.d !in net.flight[i].msg.rerr.unreachable
    ensures StepOk(Deliver(net, i, now), q, path, j)
  {
    hide Receive, Steady, AllCopies, Names, RouteUpTo;
    var c := net.flight[i];
    var s := net.nodes[c.to];
    StepAt(net, q, path, k, j);
    NamesReport(c.msg, q.d);
    OtherKeeps(s, c.msg.rerr, c.ttl, c.sender, q.until, if j == 0 then {q.d} else {}, now, q.d);
  }

  lemma OthersKept(net: Net, q: Quest, path: seq<Addr>, k: nat, i: nat, now: Time)
    requires RouteUpTo(net, q, path, k) && CanDeliver(net, i)
    requires forall j :: 0 <= j < k && j < |path| && path[j] == net.flight[i].to ==>
             StepOk(Deliver(net, i, now), q, path, j)
    ensures RouteUpTo(Deliver(net, i, now), q, path, k)
  {
    hide Receiver, Steady, AllCopies, OnRoute;
    var net' := Deliver(net, i, now);
    forall j | 0 <= j < k ensures StepOk(net', q, path, j) {
      assert StepOk(net, q, path, j);
    }
  }

  lemma StillReported(net: Net, d: Addr, path: seq<Addr>, k: nat, i: nat, now: Time)
    requires CanDeliver(net, i) && 1 <= k < |path| && Reported(net, d, path, k)
    requires var c := net.flight[i]; c.to != path[k - 1] || c.sender != path[k] || !IsReport(c.msg, d)
    ensures Reported(Deliver(net, i, now), d, path, k)
  {
    hide Receiver, AllCopies, IsReport;
    RestMembers(net, i);
  }

  lemma ReturningStep(net: Net, q: Quest, path: seq<Addr>, k: nat, i: nat, now: Time)
    requires OnlyAbout(net, q.d) && Distinct(path) && path != [] && path[|path| - 1] == q.d
    requires 1 <= k < |path| - 1 && RouteUpTo(net, q, path, k) && Reported(net, q.d, path, k)
    requires CanDeliver(net, i) && now <= q.until <= now + q.life
    ensures Returning(Deliver(net, i, now), q, path)
  {
    hide Deliver, Distinct, RouteUpTo, StepOk, Reported, Names, IsReport;
    var c := net.flight[i];
    FlightNames(net, q.d, i);
    NamesReport(c.msg, q.d);
    if j: nat :| j < k && path[j] == c.to {
      if c.sender == path[j + 1] && q.d in c.msg.rerr.unreachable {
        HomeStep(net, q, path, k, j, i, now);
      } else {
        StepKept(net, q, path, k, j, i, now);
        DistinctBefore(path, k, j);
        OthersKept(net, q, path, k, i, now);
        StillReported(net, q.d, path, k, i, now);
      }
    } else {
      OthersKept(net, q, path, k, i, now);
      StillReported(net, q.d, path, k, i, now);
    }
  }

  lemma FlightNames(net: Net, d: Addr, i: nat)
    requires OnlyAbout(net, d) && CanDeliver(net, i)
    ensures i < |net.flight| && Names(net.flight[i].msg, d) && net.flight[i].to in net.nodes
            && net.flight[i].sender != d
  {
    hide Names;
  }

  lemma DistinctBefore(path: seq<Addr>, k: nat, j: nat)
    requires Distinct(path) && j < k <= |path|
    ensures forall x :: 0 <= x < k && path[x] == path[j] ==> x == j
  {
  }

  /** A report from the next hop takes the news one node back. */
  lemma HomeStep(net: Net, q: Quest, path: seq<Addr>, k: nat, j: nat, i: nat, now: Time)
    requires Distinct(path) && path != [] && path[|path| - 1] == q.d
    requires j < k < |path| - 1 && RouteUpTo(net, q, path, k)
    requires CanDeliver(net, i) && now <= q.until <= now + q.life
    requires net.flight[i].to == path[j] && net.flight[i].sender == path[j + 1] && IsReport(net.flight[i].msg, q.d)
    ensures Returning(Deliver(net, i, now), q, path)
  {
    hide Deliver, Distinct, RouteUpTo, Reported, IsReport, CanDeliver;
    RouteLess(net, q, path, k, j + 1);
    DistinctEnd(path, j + 1);
    if j == 0 {
      LastReport(net, q, path, i, now);
    } else {
      PassedBack(net, q, path, j + 1, i, now);
    }
  }

  lemma ReturnedStep(net: Net, q: Quest, i: nat, now: Time)
    requires OnlyAbout(net, q.d) && CanDeliver(net, i) && LostAt(net, q.o, q.d)
    ensures LostAt(Deliver(net, i, now), q.o, q.d)
  {
    hide Receive, AllCopies, Names;
    FlightNames(net, q.d, i);
    var c := net.flight[i];
    NamesReport(c.msg, q.d);
    if c.to == q.o {
      StaysLost(net.nodes[c.to], c.msg.rerr, c.ttl, c.sender, net.nodes[c.to].ifaces[0], now, q.d);
    }
  }

  // ---------------------------------------------------------------------
  // Whole runs

  /** Whatever is delivered when, the originator has lost its route or a report is on its way to it. */
  lemma {:induction false} RunReturns(net: Net, q: Quest, path: seq<Addr>, run: seq<(nat, Time)>, from: Time)
    requires OnlyAbout(net, q.d) && Returning(net, q, path) && Distinct(path) && path != [] && path[|path| - 1] == q.d
    requires Deliveries(net, run, from, q.until) && q.until <= from + q.life
    ensures Returning(After(net, run, from, q.until), q, path)
    decreases |run|
  {
    hide OnlyAbout, Deliver, Distinct, RouteUpTo, Reported, CanDeliver, LostAt;
    if run != [] {
      var i, now := run[0].0, run[0].1;
      OnlyStep(net, q.d, i, now);
      if LostAt(net, q.o, q.d) {
        ReturnedStep(net, q, i, now);
      } else {
        var k :| 1 <= k < |path| - 1 && RouteUpTo(net, q, path, k) && Reported(net, q.d, path, k);
        ReturningStep(net, q, path, k, i, now);
      }
      RunReturns(Deliver(net, i, now), q, path, run[1..], now);
    }
  }

  lemma RestMeansLost(net: Net, q: Quest, path: seq<Addr>)
    requires Returning(net, q, path) && net.flight == []
    ensures LostAt(net, q.o, q.d)
  {
    hide RouteUpTo, LostAt;
  }

  // ---------------------------------------------------------------------
  // The last link of a discovered route breaks

  /** Nothing is in flight, nothing else is lost, and `d` knows no route to itself. */
  ghost predicate OnlyLost(net: Net, a: Addr, d: Addr) {
    && net.flight == [] && a in net.nodes && a != d && d in net.nodes && d !in net.nodes[d].table
    && d in net.nodes[a].table && LostDestinations(net.nodes[a].table, d).Keys == {d}
  }

  lemma BreakOnly(net: Net, q: Quest, a: Addr, now: Time)
    requires Frame(net, q) && Good(net, q) && OnlyLost(net, a, q.d) && a != q.o && now <= q.until
    ensures OnlyAbout(LinkBroken(net, a, q.d, now), q.d)
  {
    hide BreakLink, AllCopies, LostDestinations, Steady, Purge, RerrSends, LostPrecursors, OpenUntil, Flood.Knows,
         Flood.Unaware;
    var s, s' := net.nodes[a], BreakLink(net.nodes[a], q.d, now);
    assert GoodNode(s, q, {});
    SteadyPurge(s.table, s.ifaces[0], q.until, {}, now, s.cfg.badLinkLifetime);
    LostNames(s, q.d);
    BreakLinkReports(s, q.d, now);
    RerrGoesTo(s.(table := s.table), Rerr(0, 0, LostDestinations(s.table, q.d)), LostPrecursors(s.table, q.d));
    AllCopiesMembers(net, a, NewSends(s, s'));
  }

  lemma LostNames(s: Node, d: Addr)
    requires d in s.table && LostDestinations(s.table, d).Keys == {d}
    ensures var m := RERR(Rerr(0, 0, LostDestinations(s.table, d))); Names(m, d) && |m.rerr.unreachable| <= 255
  {
    hide LostDestinations;
    NamesSize(RERR(Rerr(0, 0, LostDestinations(s.table, d))), d);
  }

  lemma LastBreak(net: Net, q: Quest, path: seq<Addr>, k: nat, run: seq<(nat, Time)>, now: Time)
    requires Frame(net, q) && Good(net, q) && LeadsTo(net, path, q.o, q.d) && ListedAlong(net, path, q.d)
    requires path[0] == q.o && now <= q.until <= now + q.life && 1 <= k == |path| - 2 && path[k + 1] == q.d
    requires Reportable(net, path, k) && OnlyLost(net, path[k], q.d)
    requires Deliveries(LinkBroken(net, path[k], q.d, now), run, now, q.until)
    requires After(LinkBroken(net, path[k], q.d, now), run, now, q.until).flight == []
    ensures LostAt(After(LinkBroken(net, path[k], q.d, now), run, now, q.until), q.o, q.d)
  {
    hide Frame, Good, Deliver, LeadsTo, ListedAlong, RouteUpTo, LostDestinations, LinkBroken, Distinct, MayReport,
         Reported, OnlyAbout, Returning, LostAt;
    PacketDelivery.PathDistinct(net, path, q.o, q.d);
    DistinctBefore(path, k + 1, k);
    RouteStands(net, q, path, k + 1);
    BreakIsReported(net, q, path, k, now);
    BreakOnly(net, q, path[k], now);
    var broken := LinkBroken(net, path[k], q.d, now);
    NowReturning(broken, q, path, k);
    RunReturns(broken, q, path, run, now);
    RestMeansLost(After(broken, run, now, q.until), q, path);
  }

  lemma NowReturning(net: Net, q: Quest, path: seq<Addr>, k: nat)
    requires 1 <= k < |path| - 1 && RouteUpTo(net, q, path, k) && Reported(net, q.d, path, k)
    ensures Returning(net, q, path)
  {
    hide RouteUpTo, Reported;
  }

  /** When the link to the destination itself breaks at the end of a discovered
      route and only the destination is lost, then however the reports are
      delivered, once nothing is in flight the originator has no VALID route. */
  lemma LastBreakIsKnown(net: Net, q: Quest, start: Time, run: seq<(nat, Time)>, path: seq<Addr>, k: nat, now: Time,
                         back: seq<(nat, Time)>)
    requires Clean(net, q, start) && Deliveries(Launched(net, q, start), run, start, q.until)
    requires var end := After(Launched(net, q, start), run, start, q.until);
             LeadsTo(end, path, q.o, q.d) && ListedAlong(end, path, q.d) && k == |path| - 2
             && Reportable(end, path, k) && OnlyLost(end, path[k], q.d)
    requires start <= now <= q.until
    requires var broken := LinkBroken(After(Launched(net, q, start), run, start, q.until), path[k], q.d, now);
             Deliveries(broken, back, now, q.until) && After(broken, back, now, q.until).flight == []
    ensures var broken := LinkBroken(After(Launched(net, q, start), run, start, q.until), path[k], q.d, now);
            LostAt(After(broken, back, now, q.until), q.o, q.d)
  {
    hide Launched, Full, Clean, Deliver, LeadsTo, ListedAlong, LinkBroken, LostAt, OnlyLost, MayReport;
    CleanTime(net, q, start);
    var depth := RunFromLaunch(net, q, start, run);
    var end := After(Launched(net, q, start), run, start, q.until);
    PacketDelivery.PathEnds(end, q, depth, path);
    FullFrame(end, q, depth);
    LastBreak(end, q, path, k, back, now);
  }
}
