/** Route errors do not run in circles: when hop counts decrease along next
    hops, a report about one destination that is forwarded from node to node
    never comes back to a node that forwarded it. */
module RerrCascade {
  import opened Base
  import opened Messages
  import opened RouteTable
  import opened NodeState
  import opened LinkBreak
  import opened Routes
  import opened NodeEvents
  import opened Frames
  import opened TableSteps
  import opened LinkCut
  import opened NodeRuns
  import opened LoopFreedom

  // ---------------------------------------------------------------------
  // One node

  /** Going from `s` to `s'` the node reported `d` unreachable. */
  ghost predicate Reports(s: Node, s': Node, d: Addr) {
    exists i ::
      && |s.log.sent| <= i < |s'.log.sent|
      && s'.log.sent[i].msg.RERR? && d in s'.log.sent[i].msg.rerr.unreachable
  }

  lemma RerrSendsAre(s: Node, rerr: Rerr, precursors: seq<Addr>)
    ensures forall i :: 0 <= i < |RerrSends(s, rerr, precursors)| ==>
              RerrSends(s, rerr, precursors)[i].msg == RERR(rerr)
  {
    hide PrecursorIfaces;
  }

  lemma RecvErrorReports(s: Node, rerr: Rerr, src: Addr, now: Time, d: Addr)
    ensures Reports(s, RecvError(s, rerr, src, now), d) ==> d in Affected(s.Purged(now), rerr.unreachable, src)
  {
    hide SendRerrMessage, RerrSends, Purge, SortedKeys, CollectPrecursors, InvalidateAll, Affected;
    var p := s.Purged(now);
    var affected := Affected(p, rerr.unreachable, src);
    var prec := CollectPrecursors(p, SortedKeys(affected.Keys), []);
    SendRerrSends(s.(table := p), rerr.(unreachable := affected), prec);
    RerrSendsAre(s.(table := p), rerr.(unreachable := affected), prec);
  }

  /** A node passes on what a RERR says about `d` only if its own next hop
      towards `d` is the sender: as the message finds the table, and before it
      came, unless `d` itself is the sender. */
  lemma ReportsOwnRoute(s: Node, rerr: Rerr, ttl: U8, src: Addr, rcv: Iface, now: Time, d: Addr)
    requires Reports(s, Receive(s, Some(RERR(rerr)), ttl, src, rcv, now), d)
    ensures var p := Met(s, src, rcv, now).Purged(now); d in p && p[d].route.nextHop == src
    ensures src != d ==> d in s.table && s.table[d].route.nextHop == src
  {
    hide RouteToNeighbor, RecvError, Purge, Reports, Evolves;
    var s1 := Met(s, src, rcv, now);
    NeighborEvolves(s.cfg, s.table, src, rcv, now);
    EvolvesSpares(s.table, s1.table, {});
    PurgeSpares(s1.table, now, s.cfg.badLinkLifetime, {});
    assert Calm(s.table, s1.table, d) && Calm(s1.table, s1.Purged(now), d);
    SameLogReports(s, s1, RecvError(s1, rerr, src, now), d);
    RecvErrorReports(s1, rerr, src, now, d);
  }

  lemma SameLogReports(s: Node, s1: Node, s': Node, d: Addr)
    requires s1.log == s.log
    ensures Reports(s, s', d) <==> Reports(s1, s', d)
  {
  }

  /** Nothing else stops a report: the route that it made INVALID is reported
      again when the same RERR comes again. */
  lemma RepeatedRerrAffectsAgain(s: Node, rerr: Rerr, src: Addr, now: Time, d: Addr)
    requires s.cfg.badLinkLifetime >= 0 && d in Affected(s.Purged(now), rerr.unreachable, src)
    ensures d in Affected(RecvError(s, rerr, src, now).Purged(now), rerr.unreachable, src)
  {
    hide RecvError;
    RecvErrorTable(s, rerr, src, now);
    var cfg := RecvError(s, rerr, src, now).cfg;
    assert cfg == s.cfg by { RecvErrorConfig(s, rerr, src, now); }
  }

  lemma RecvErrorConfig(s: Node, rerr: Rerr, src: Addr, now: Time)
    ensures RecvError(s, rerr, src, now).cfg == s.cfg
  {
    hide Purge, InvalidateAll, Affected, CollectPrecursors, PrecursorIfaces, SortedKeys;
  }

  // ---------------------------------------------------------------------
  // Runs of many nodes

  /** One event at one node; messages may come from anywhere. */
  datatype Act = Act(at: Addr, event: Event, now: Time)

  ghost predicate Possible(nodes: map<Addr, Node>, run: seq<Act>, d: Addr) {
    forall t :: 0 <= t < |run| ==> run[t].at in nodes && d !in Subjects(run[t].event)
  }

  /** The nodes after the first `t` events. */
  ghost function After(nodes: map<Addr, Node>, run: seq<Act>, t: nat): (r: map<Addr, Node>)
    requires t <= |run| && forall i :: 0 <= i < |run| ==> run[i].at in nodes
    ensures r.Keys == nodes.Keys
  {
    if t == 0 then nodes
    else
      var before := After(nodes, run, t - 1);
      var a := run[t - 1];
      before[a.at := Apply(before[a.at], a.event, a.now)]
  }

  /** Towards `d`, every next hop is `d` or has a shorter route. */
  ghost predicate Descending(nodes: map<Addr, Node>, d: Addr) {
    forall x :: x in nodes && x != d && d in nodes[x].table ==>
      var e := nodes[x].table[d];
      var via := e.route.nextHop;
      via in nodes && via != d && d in nodes[via].table ==> nodes[via].table[d].info.hops < e.info.hops
  }

  ghost predicate TablesOk(nodes: map<Addr, Node>) { forall x :: x in nodes ==> TableOk(nodes[x].table) }

  /** A route to `d` that is not a direct one has been there from the start. */
  lemma {:induction false} KeptFromStart(nodes: map<Addr, Node>, run: seq<Act>, d: Addr, x: Addr, t: nat)
    requires Possible(nodes, run, d) && TablesOk(nodes) && t <= |run| && x in nodes
    ensures var s, s' := nodes[x], After(nodes, run, t)[x];
            && TableOk(s'.table)
            && (d in s'.table && s'.table[d].route.nextHop != d ==>
                  d in s.table && s.table[d].route.nextHop == s'.table[d].route.nextHop)
  {
    hide Apply, TableOk, Spares;
    if t > 0 {
      KeptFromStart(nodes, run, d, x, t - 1);
      var a := run[t - 1];
      if a.at == x {
        var before := After(nodes, run, t - 1)[x];
        StepTableOk(before, a.event, a.now);
        EventSpares(before, a.event, a.now);
        SparesAt(before.table, Apply(before, a.event, a.now).table, Subjects(a.event), d);
      }
    }
  }

  lemma SparesAt(t: Table, t': Table, about: set<Addr>, k: Addr)
    requires Spares(t, t', about) && k !in about
    ensures Calm(t, t', k)
  {
  }

  /** At moment `t` node `x` hears a RERR from `from` and passes on what it says about `d`. */
  ghost predicate PassesOn(nodes: map<Addr, Node>, run: seq<Act>, t: nat, from: Addr, d: Addr)
    requires t < |run| && forall i :: 0 <= i < |run| ==> run[i].at in nodes
  {
    var e := run[t].event;
    && e.Receipt? && e.msg.Some? && e.msg.value.RERR? && e.sender == from
    && Reports(After(nodes, run, t)[run[t].at], After(nodes, run, t + 1)[run[t].at], d)
  }

  /** A report about `d` goes from node to node: each hears it later from the one before and passes it on. */
  ghost predicate Chain(nodes: map<Addr, Node>, run: seq<Act>, d: Addr, moments: seq<nat>)
    requires forall i :: 0 <= i < |run| ==> run[i].at in nodes
  {
    && (forall k :: 0 <= k < |moments| ==> moments[k] < |run| && run[moments[k]].at != d)
    && (forall k :: 0 < k < |moments| ==>
          moments[k - 1] < moments[k] && PassesOn(nodes, run, moments[k], run[moments[k - 1]].at, d))
  }

  lemma LinkIsNextHop(nodes: map<Addr, Node>, run: seq<Act>, d: Addr, moments: seq<nat>, k: nat)
    requires Possible(nodes, run, d) && TablesOk(nodes) && Chain(nodes, run, d, moments) && 0 < k < |moments|
    ensures var x := run[moments[k]].at;
            d in nodes[x].table && nodes[x].table[d].route.nextHop == run[moments[k - 1]].at
  {
    hide TableOk, Receive, Reports;
    var t, from := moments[k], run[moments[k - 1]].at;
    var x, e := run[t].at, run[t].event;
    assert PassesOn(nodes, run, t, from, d);
    KeptFromStart(nodes, run, d, x, t);
    ReportsOwnRoute(After(nodes, run, t)[x], e.msg.value.rerr, e.ttl, e.sender, e.rcv, run[t].now, d);
  }

  ghost function HopsAt(nodes: map<Addr, Node>, x: Addr, d: Addr): int {
    if x in nodes && d in nodes[x].table then nodes[x].table[d].info.hops else 0
  }

  lemma {:induction false} HopsRise(nodes: map<Addr, Node>, run: seq<Act>, d: Addr, moments: seq<nat>, j: nat, k: nat)
    requires Possible(nodes, run, d) && TablesOk(nodes) && Descending(nodes, d) && Chain(nodes, run, d, moments)
    requires j < k < |moments| && d in nodes[run[moments[j]].at].table
    ensures HopsAt(nodes, run[moments[j]].at, d) < HopsAt(nodes, run[moments[k]].at, d)
    decreases k
  {
    hide TableOk, PassesOn;
    LinkIsNextHop(nodes, run, d, moments, k);
    if j < k - 1 {
      LinkIsNextHop(nodes, run, d, moments, k - 1);
      HopsRise(nodes, run, d, moments, j, k - 1);
    }
  }

  lemma {:induction false} DistinctAtMost(s: seq<Addr>, all: set<Addr>)
    requires Distinct(s) && forall i :: 0 <= i < |s| ==> s[i] in all
    ensures |s| <= |all|
  {
    if s != [] {
      assert forall i :: 0 < i < |s| ==> s[i] != s[0] && s[1..][i - 1] == s[i];
      DistinctAtMost(s[1..], all - {s[0]});
    }
  }

  ghost function Places(run: seq<Act>, moments: seq<nat>): (r: seq<Addr>)
    requires forall k :: 0 <= k < |moments| ==> moments[k] < |run|
    ensures |r| == |moments| && forall k :: 0 <= k < |r| ==> r[k] == run[moments[k]].at
  {
    if moments == [] then [] else [run[moments[0]].at] + Places(run, moments[1..])
  }

  /** If hop counts towards `d` decrease along next hops at the start, then in
      every run without a discovery about `d`, whatever else happens, no node
      occurs twice in a chain of forwards, which is at most as long as there are nodes. */
  lemma CascadeEnds(nodes: map<Addr, Node>, run: seq<Act>, d: Addr, moments: seq<nat>)
    requires Possible(nodes, run, d) && TablesOk(nodes) && Descending(nodes, d) && Chain(nodes, run, d, moments)
    ensures Distinct(Places(run, moments)) && |moments| <= |nodes|
  {
    hide TableOk, PassesOn, Descending;
    var places := Places(run, moments);
    forall j, k | 0 <= j < k < |places| ensures places[j] != places[k] {
      LinkIsNextHop(nodes, run, d, moments, k);
      if places[j] == places[k] {
        HopsRise(nodes, run, d, moments, j, k);
      }
    }
    DistinctAtMost(places, nodes.Keys);
    assert |nodes| == |nodes.Keys|;
  }
}
