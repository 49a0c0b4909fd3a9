/** The expanding ring search of one destination (section 6.4 of RFC 3561): how
    many requests go out, how long it takes, and how it ends. */
module RingSearch {
  import opened Base
  import opened RouteTable
  import opened NodeState
  import opened Discovery
  import opened NodeEvents
  import opened Flush
  import PacketQueue

  /** Parameters for which the search is meant to work. */
  predicate Sensible(cfg: Config) {
    && cfg.ttlIncrement >= 1
    && cfg.ttlStart <= cfg.ttlThreshold < cfg.netDiameter < 0x1_0000
    && 1 <= cfg.rreqRetries <= 31
  }

  /** How many requests stay at or below the threshold. */
  function Rings(cfg: Config): nat
    requires Sensible(cfg)
  {
    (cfg.ttlThreshold - cfg.ttlStart) / cfg.ttlIncrement + 1
  }

  function Attempts(cfg: Config): nat
    requires Sensible(cfg)
  {
    Rings(cfg) + cfg.rreqRetries
  }

  /** The first ring value past the threshold, before any 16-bit wrap. */
  function Overshoot(cfg: Config): int
    requires Sensible(cfg)
  {
    cfg.ttlStart + Rings(cfg) * cfg.ttlIncrement
  }

  /** A request at the network diameter passes the threshold again. */
  predicate StaysAtDiameter(cfg: Config) { Wrap16(cfg.netDiameter + cfg.ttlIncrement) > cfg.ttlThreshold }

  /** The step out of the ring does not wrap around in 16 bits, and the steps at
      the diameter, if there are any, pass the threshold. */
  predicate NoWrap(cfg: Config)
    requires Sensible(cfg)
  {
    Overshoot(cfg) < 0x1_0000 && (cfg.rreqRetries > 1 ==> StaysAtDiameter(cfg))
  }

  /** The hop field after `i` expiries: the TTL of request number `i + 1`. */
  function TtlAt(cfg: Config, i: nat): int
    requires Sensible(cfg)
  {
    if i < Rings(cfg) then cfg.ttlStart + i * cfg.ttlIncrement else cfg.netDiameter
  }

  /** The retry count after `i` expiries. */
  function CountAt(cfg: Config, i: nat): int
    requires Sensible(cfg)
  {
    if i < Rings(cfg) then 0 else i - Rings(cfg) + 1
  }

  /** The wait after request number `i + 1`. */
  function WaitAt(cfg: Config, i: nat): Time
    requires Sensible(cfg)
  {
    if i < Rings(cfg) then 2 * cfg.nodeTraversalTime * (TtlAt(cfg, i) + cfg.timeoutBuffer)
    else cfg.netTraversalTime * Pow2(i - Rings(cfg))
  }

  function TotalWait(cfg: Config, n: nat): Time
    requires Sensible(cfg)
  {
    if n == 0 then 0 else TotalWait(cfg, n - 1) + WaitAt(cfg, n - 1)
  }

  // ---------------------------------------------------------------------
  // One step

  /** The node has sent request number `i + 1` for `dst` at `t` and waits. */
  ghost predicate Waiting(s: Node, dst: Addr, i: nat, t: Time)
    requires Sensible(s.cfg)
  {
    && dst in s.table && s.table[dst].info.flag == IN_SEARCH
    && s.table[dst].info.hops == TtlAt(s.cfg, i)
    && s.table[dst].info.reqCnt == CountAt(s.cfg, i)
    && dst in s.search.timers && s.search.timers[dst] == Some(t + WaitAt(s.cfg, i))
    && !s.search.aborted
  }

  lemma RingBounds(cfg: Config, i: nat)
    requires Sensible(cfg)
    ensures i < Rings(cfg) ==> cfg.ttlStart + i * cfg.ttlIncrement <= cfg.ttlThreshold
    ensures i < Rings(cfg) ==> cfg.ttlStart <= cfg.ttlStart + i * cfg.ttlIncrement
    ensures Overshoot(cfg) > cfg.ttlThreshold
    ensures Overshoot(cfg) - cfg.ttlIncrement <= cfg.ttlThreshold
  {
    var d, inc := cfg.ttlThreshold - cfg.ttlStart, cfg.ttlIncrement;
    DivBounds(d, inc);
    if i < Rings(cfg) {
      MulMonotone(i, Rings(cfg) - 1, inc);
    }
    Distribute(Rings(cfg) - 1, inc);
  }

  lemma DivBounds(d: int, inc: int)
    requires d >= 0 && inc >= 1
    ensures 0 <= d / inc && (d / inc) * inc <= d < (d / inc + 1) * inc
  {
    assert d == (d / inc) * inc + d % inc;
  }

  lemma MulMonotone(a: int, b: int, m: int)
    requires 0 <= a <= b && m >= 0
    ensures 0 <= a * m <= b * m
  {
  }

  lemma Distribute(a: int, m: int)
    ensures (a + 1) * m == a * m + m
  {
  }

  /** The TTL after one of `ttl` in a running search. */
  function Widened(cfg: Config, ttl: int): int {
    var w := Wrap16(ttl + cfg.ttlIncrement);
    if w > cfg.ttlThreshold then Wrap16(cfg.netDiameter) else w
  }

  lemma RingStep(cfg: Config, i: nat)
    requires Sensible(cfg) && NoWrap(cfg) && i + 1 < Attempts(cfg)
    ensures TtlAt(cfg, i + 1) == Widened(cfg, TtlAt(cfg, i))
  {
    hide Rings, TtlAt, Overshoot, Widened;
    TtlBounds(cfg, i);
    TtlBounds(cfg, i + 1);
    OvershootBound(cfg);
    if i + 1 < Rings(cfg) {
      InnerRing(cfg, i);
      WidenedIs(cfg, TtlAt(cfg, i));
    } else if i + 1 == Rings(cfg) {
      LastRing(cfg);
      WidenedIs(cfg, TtlAt(cfg, i));
    } else {
      DiameterStays(cfg);
    }
  }

  lemma TtlBounds(cfg: Config, i: nat)
    requires Sensible(cfg)
    ensures if i < Rings(cfg) then cfg.ttlStart <= TtlAt(cfg, i) <= cfg.ttlThreshold
            else TtlAt(cfg, i) == cfg.netDiameter
  {
    hide Rings, Overshoot;
    RingBounds(cfg, i);
  }

  lemma OvershootBound(cfg: Config)
    requires Sensible(cfg)
    ensures Overshoot(cfg) > cfg.ttlThreshold
  {
    hide Rings, Overshoot;
    RingBounds(cfg, 0);
  }

  lemma WidenedIs(cfg: Config, ttl: int)
    requires Sensible(cfg) && 0 <= ttl && ttl + cfg.ttlIncrement < 0x1_0000
    ensures Widened(cfg, ttl) ==
              if ttl + cfg.ttlIncrement > cfg.ttlThreshold then cfg.netDiameter else ttl + cfg.ttlIncrement
  {
  }

  lemma DiameterStays(cfg: Config)
    requires Sensible(cfg)
    ensures Widened(cfg, cfg.netDiameter) == cfg.netDiameter <==> StaysAtDiameter(cfg)
  {
  }

  lemma InnerRing(cfg: Config, i: nat)
    requires Sensible(cfg) && i + 1 < Rings(cfg)
    ensures TtlAt(cfg, i + 1) == TtlAt(cfg, i) + cfg.ttlIncrement
  {
    hide Rings;
    Distribute(i, cfg.ttlIncrement);
  }

  /** The step out of the ring. */
  lemma LastRing(cfg: Config)
    requires Sensible(cfg)
    ensures Rings(cfg) >= 1 && TtlAt(cfg, Rings(cfg) - 1) + cfg.ttlIncrement == Overshoot(cfg)
  {
    Distribute(Rings(cfg) - 1, cfg.ttlIncrement);
  }

  /** An undisturbed entry under search moves to the next ring. */
  lemma NextInfo(cfg: Config, e: Info, i: nat, now: Time)
    requires Sensible(cfg) && NoWrap(cfg) && i + 1 < Attempts(cfg)
    requires e.flag == IN_SEARCH && e.hops == TtlAt(cfg, i) && e.reqCnt == CountAt(cfg, i)
    ensures var x := Discovery.Searching(cfg, e, now);
            x.flag == IN_SEARCH && x.hops == TtlAt(cfg, i + 1) && x.reqCnt == CountAt(cfg, i + 1)
            && RetryDelay(cfg, x) == Some(WaitAt(cfg, i + 1))
  {
    RingStep(cfg, i);
    RingBounds(cfg, i + 1);
  }

  /** Two states of an entry, as far as its search is concerned. */
  predicate SameSearch(e: Info, e': Info) { e'.flag == e.flag && e'.hops == e.hops && e'.reqCnt == e.reqCnt }

  /** Before the expiry of the timer of `dst`: whatever else happened in the
      meantime, the search and the timer of `dst` are as they were left. */
  ghost predicate Undisturbed(s: Node, u: Node, dst: Addr) {
    && u.cfg == s.cfg
    && dst in s.table && dst in u.table && SameSearch(s.table[dst].info, u.table[dst].info)
    && dst in s.search.timers && dst in u.search.timers && u.search.timers[dst] == s.search.timers[dst]
    && !u.search.aborted && u.ifaces != []
  }

  function Expire(u: Node, dst: Addr, now: Time): Node { Apply(u, RetryTimer(dst), now) }

  lemma FirstRequest(s: Node, dst: Addr, now: Time)
    requires Sensible(s.cfg) && dst !in s.table && !RateLimited(s) && !s.search.aborted
    ensures Waiting(SendRequest(s, dst, now), dst, 0, now)
    ensures SendRequest(s, dst, now) == Originate(s, dst, now)
  {
    hide Requests, RecordOwn;
    RingBounds(s.cfg, 0);
  }

  /** The node as the handler of the timer of `dst` finds it. */
  function Fired(u: Node, dst: Addr, now: Time): Node {
    u.(search := u.search.(timers := u.search.timers[dst := None]), table := u.Purged(now))
  }

  /** A request for a destination under search moves its entry on. */
  lemma OriginateMoves(s: Node, dst: Addr, now: Time)
    requires dst in s.table && s.table[dst].info.flag == IN_SEARCH
    ensures var s' := Originate(s, dst, now);
            dst in s'.table && s'.table[dst].info == Discovery.Searching(s.cfg, s.table[dst].info, now)
  {
    hide RecordOwn, Requests, ScheduleRreqRetry, Discovery.Searching;
    var p := s.Purged(now);
    assert dst in p && p[dst] == s.table[dst];
  }

  /** An expiry that finds the search running and the limit not reached sends a request. */
  lemma ExpiryResends(u: Node, dst: Addr, now: Time)
    requires dst in u.table && u.table[dst].info.flag == IN_SEARCH && u.table[dst].info.reqCnt != u.cfg.rreqRetries
    requires !RateLimited(u)
    ensures var s' := Expire(u, dst, now);
            && s' == Originate(Fired(u, dst, now), dst, now)
            && dst in s'.table && s'.table[dst].info == Discovery.Searching(u.cfg, u.table[dst].info, now)
            && s'.search == ScheduleRreqRetry(
                 u.search.(timers := u.search.timers[dst := None], rreqCount := Wrap16(u.search.rreqCount + 1)),
                 u.cfg, dst, s'.table[dst].info, now)
            && |s'.log.sent| == |u.log.sent| + |u.ifaces|
            && s'.cfg == u.cfg
  {
    hide RecordOwn, Requests, ScheduleRreqRetry, Discovery.Searching;
    var p := u.Purged(now);
    assert dst in p && p[dst] == u.table[dst];
    var pp := Purge(p, now, u.cfg.badLinkLifetime);
    assert dst in pp && pp[dst] == u.table[dst];
  }

  /** One expiry below the retry limit sends the next request of the ring. */
  lemma NextRequest(s: Node, u: Node, dst: Addr, i: nat, t: Time)
    requires Sensible(s.cfg) && NoWrap(s.cfg) && i + 1 < Attempts(s.cfg)
    requires Waiting(s, dst, i, t) && Undisturbed(s, u, dst) && !RateLimited(u)
    ensures var now := t + WaitAt(s.cfg, i); var s' := Expire(u, dst, now);
            && s'.cfg == s.cfg
            && s' == Originate(Fired(u, dst, now), dst, now)
            && |s'.log.sent| == |u.log.sent| + |u.ifaces|
            && Waiting(s', dst, i + 1, now)
  {
    hide Originate, Expire, Discovery.Searching, TtlAt, CountAt, WaitAt, Rings, RetryDelay, NoWrap;
    var now := t + WaitAt(s.cfg, i);
    NextInfo(s.cfg, u.table[dst].info, i, now);
    CountBelow(s.cfg, i);
    ExpiryResends(u, dst, now);
  }

  lemma CountBelow(cfg: Config, i: nat)
    requires Sensible(cfg)
    ensures i + 1 < Attempts(cfg) ==> CountAt(cfg, i) != cfg.rreqRetries
    ensures i + 1 == Attempts(cfg) ==> CountAt(cfg, i) == cfg.rreqRetries
  {
  }

  /** The expiry at the retry limit ends the search. */
  lemma LastExpiry(s: Node, u: Node, dst: Addr, i: nat, t: Time)
    requires Sensible(s.cfg) && i + 1 == Attempts(s.cfg)
    requires Waiting(s, dst, i, t) && Undisturbed(s, u, dst)
    ensures var s' := Expire(u, dst, t + WaitAt(s.cfg, i));
            && Over(s', dst) && !s'.search.aborted
            && s'.cfg == s.cfg && s'.log.sent == u.log.sent
  {
    hide Filter, TtlAt, WaitAt, Rings, CountAt;
    var now := t + WaitAt(s.cfg, i);
    CountBelow(s.cfg, i);
    var p := u.Purged(now);
    assert dst in p && p[dst] == u.table[dst];
    var live := PacketQueue.Purge(u.queue, now).queue;
    FilterMembers(PacketQueue.IsNotFor(dst), live);
    FilterNone(PacketQueue.IsFor(dst), Filter(PacketQueue.IsNotFor(dst), live));
  }

  // ---------------------------------------------------------------------
  // The whole search

  /** `steps[i]` is the node just before the `i`-th expiry of the timer of `dst`
      and the instant of that expiry. */
  ghost predicate SearchTrace(s: Node, dst: Addr, steps: seq<(Node, Time)>)
    decreases |steps|
  {
    steps != [] ==>
      && Undisturbed(s, steps[0].0, dst) && !RateLimited(steps[0].0)
      && s.search.timers[dst] == Some(steps[0].1)
      && SearchTrace(Expire(steps[0].0, dst, steps[0].1), dst, steps[1..])
  }

  /** The node after all expiries of the trace. */
  ghost function SearchEnd(s: Node, dst: Addr, steps: seq<(Node, Time)>): Node
    decreases |steps|
  {
    if steps == [] then s else SearchEnd(Expire(steps[0].0, dst, steps[0].1), dst, steps[1..])
  }

  /** How many of the expiries sent a request. */
  ghost function Resent(dst: Addr, steps: seq<(Node, Time)>): nat {
    if steps == [] then 0
    else
      var u, now := steps[0].0, steps[0].1;
      (if |Expire(u, dst, now).log.sent| > |u.log.sent| then 1 else 0) + Resent(dst, steps[1..])
  }

  /** The instant of the last expiry, or `t` when there was none. */
  ghost function LastAt(t: Time, steps: seq<(Node, Time)>): Time {
    if steps == [] then t else steps[|steps| - 1].1
  }

  /** No entry, no timer and no packet is left for `dst`. */
  ghost predicate Over(s: Node, dst: Addr) {
    dst !in s.table && dst !in s.search.timers && For(s.queue, dst) == []
  }

  lemma OverEnds(s: Node, dst: Addr, steps: seq<(Node, Time)>)
    requires Over(s, dst) && SearchTrace(s, dst, steps)
    ensures steps == []
  {
    hide Expire, Filter;
  }

  /** What a trace from the `i`-th wait on can amount to. */
  ghost predicate Goes(s: Node, dst: Addr, i: nat, t: Time, steps: seq<(Node, Time)>)
    requires Sensible(s.cfg) && i < Attempts(s.cfg)
  {
    var n, end := |steps|, SearchEnd(s, dst, steps);
    && n <= Attempts(s.cfg) - i
    && LastAt(t, steps) == t + TotalWait(s.cfg, i + n) - TotalWait(s.cfg, i)
    && end.cfg == s.cfg && !end.search.aborted
    && (n < Attempts(s.cfg) - i ==> Resent(dst, steps) == n && Waiting(end, dst, i + n, LastAt(t, steps)))
    && (n == Attempts(s.cfg) - i ==> Resent(dst, steps) == n - 1 && Over(end, dst))
  }

  lemma GoesOn(s: Node, dst: Addr, i: nat, t: Time, steps: seq<(Node, Time)>)
    requires Sensible(s.cfg) && i + 1 < Attempts(s.cfg) && steps != [] && steps[0].1 == t + WaitAt(s.cfg, i)
    requires var s1 := Expire(steps[0].0, dst, steps[0].1);
             s1.cfg == s.cfg && |s1.log.sent| > |steps[0].0.log.sent| && Goes(s1, dst, i + 1, steps[0].1, steps[1..])
    ensures Goes(s, dst, i, t, steps)
  {
    hide Expire, WaitAt, Over, Sensible, Waiting, Attempts;
    assert TotalWait(s.cfg, i + 1) == TotalWait(s.cfg, i) + WaitAt(s.cfg, i);
    assert LastAt(steps[0].1, steps[1..]) == LastAt(t, steps);
  }

  lemma {:induction false} SearchFrom(s: Node, dst: Addr, i: nat, t: Time, steps: seq<(Node, Time)>)
    requires Sensible(s.cfg) && NoWrap(s.cfg) && i < Attempts(s.cfg)
    requires Waiting(s, dst, i, t) && SearchTrace(s, dst, steps)
    ensures Goes(s, dst, i, t, steps)
    decreases |steps|
  {
    hide Expire, TtlAt, CountAt, Rings, RateLimited, NoWrap, Sensible, Goes, Over, Attempts;
    if steps == [] {
      SearchStops(s, dst, i, t);
    } else {
      var u, now := steps[0].0, steps[0].1;
      if i + 1 < Attempts(s.cfg) {
        NextRequest(s, u, dst, i, t);
        SearchFrom(Expire(u, dst, now), dst, i + 1, now, steps[1..]);
        GoesOn(s, dst, i, t, steps);
      } else {
        LastExpiry(s, u, dst, i, t);
        OverEnds(Expire(u, dst, now), dst, steps[1..]);
        SearchFinishes(s, dst, i, t, steps);
      }
    }
  }

  lemma SearchStops(s: Node, dst: Addr, i: nat, t: Time)
    requires Sensible(s.cfg) && i < Attempts(s.cfg) && Waiting(s, dst, i, t)
    ensures Goes(s, dst, i, t, [])
  {
    hide Rings, TtlAt, CountAt, WaitAt;
  }

  lemma SearchFinishes(s: Node, dst: Addr, i: nat, t: Time, steps: seq<(Node, Time)>)
    requires Sensible(s.cfg) && i + 1 == Attempts(s.cfg) && |steps| == 1 && steps[0].1 == t + WaitAt(s.cfg, i)
    requires var s1 := Expire(steps[0].0, dst, steps[0].1);
             s1.cfg == s.cfg && s1.log.sent == steps[0].0.log.sent && Over(s1, dst) && !s1.search.aborted
    ensures Goes(s, dst, i, t, steps)
  {
    hide Expire, Rings, TtlAt, CountAt, WaitAt, Over, Sensible;
    assert TotalWait(s.cfg, i + 1) == TotalWait(s.cfg, i) + WaitAt(s.cfg, i);
    assert steps[1..] == [];
    assert SearchEnd(s, dst, steps) == SearchEnd(Expire(steps[0].0, dst, steps[0].1), dst, []);
    assert Resent(dst, steps) == Resent(dst, []);
    assert LastAt(t, steps) == steps[0].1;
  }

  /** The search of a fresh destination that nobody answers and that is never
      postponed: it makes exactly floor((threshold - start) / increment) + 1
      requests inside the ring and then `retries` at the network diameter, takes
      exactly the sum of the ring waits and of the doubling waits, never aborts,
      and ends with the packets failed and every trace of the search gone. */
  lemma SearchExactly(s: Node, dst: Addr, t0: Time, steps: seq<(Node, Time)>)
    requires Sensible(s.cfg) && NoWrap(s.cfg)
    requires dst !in s.table && !RateLimited(s) && !s.search.aborted
    requires SearchTrace(SendRequest(s, dst, t0), dst, steps)
    ensures |steps| <= Attempts(s.cfg)
    ensures !SearchEnd(SendRequest(s, dst, t0), dst, steps).search.aborted
    ensures |steps| == Attempts(s.cfg) ==>
      && 1 + Resent(dst, steps) == (s.cfg.ttlThreshold - s.cfg.ttlStart) / s.cfg.ttlIncrement + 1 + s.cfg.rreqRetries
      && LastAt(t0, steps) - t0
         == RingWait(s.cfg, Rings(s.cfg)) + s.cfg.netTraversalTime * (Pow2(s.cfg.rreqRetries) - 1)
      && Over(SearchEnd(SendRequest(s, dst, t0), dst, steps), dst)
  {
    hide Expire, SendRequest, TtlAt, CountAt, WaitAt, RateLimited, Over, NoWrap, RingWait, Waiting;
    FirstRequest(s, dst, t0);
    SendRequestConfig(s, dst, t0);
    SearchFrom(SendRequest(s, dst, t0), dst, 0, t0, steps);
    TotalWaitIs(s.cfg, s.cfg.rreqRetries);
  }

  lemma SendRequestConfig(s: Node, dst: Addr, now: Time)
    ensures SendRequest(s, dst, now).cfg == s.cfg
  {
    hide Requests, RecordOwn, ScheduleRreqRetry;
  }

  /** The waits inside the ring: n requests at start, start + increment, ... */
  function RingWait(cfg: Config, n: nat): Time {
    cfg.nodeTraversalTime * (2 * n * (cfg.ttlStart + cfg.timeoutBuffer) + cfg.ttlIncrement * n * (n - 1))
  }

  lemma {:induction false} RingWaitIs(cfg: Config, n: nat)
    requires Sensible(cfg) && n <= Rings(cfg)
    ensures TotalWait(cfg, n) == RingWait(cfg, n)
  {
    if n != 0 {
      RingWaitIs(cfg, n - 1);
      RingWaitStep(cfg.nodeTraversalTime, cfg.ttlStart + cfg.timeoutBuffer, cfg.ttlIncrement, n - 1);
    }
  }

  lemma RingWaitStep(node: int, base: int, inc: int, m: int)
    ensures node * (2 * m * base + inc * m * (m - 1)) + 2 * node * (base + m * inc)
         == node * (2 * (m + 1) * base + inc * (m + 1) * m)
  {
    var a := 2 * m * base + inc * m * (m - 1);
    var b := 2 * (base + m * inc);
    assert inc * m * (m - 1) == inc * m * m - inc * m;
    assert inc * (m + 1) * m == inc * m * m + inc * m;
    assert 2 * (m + 1) * base == 2 * m * base + 2 * base;
    assert a + b == 2 * (m + 1) * base + inc * (m + 1) * m;
    assert node * a + node * b == node * (a + b);
    assert 2 * node * (base + m * inc) == node * b;
  }

  lemma {:induction false} TotalWaitIs(cfg: Config, k: nat)
    requires Sensible(cfg)
    ensures TotalWait(cfg, Rings(cfg) + k) == RingWait(cfg, Rings(cfg)) + cfg.netTraversalTime * (Pow2(k) - 1)
  {
    hide Rings, RingWait;
    if k == 0 {
      RingWaitIs(cfg, Rings(cfg));
    } else {
      TotalWaitIs(cfg, k - 1);
      DoubleWait(cfg.netTraversalTime, Pow2(k - 1));
    }
  }

  lemma DoubleWait(net: int, p: int)
    ensures net * (p - 1) + net * p == net * (2 * p - 1)
  {
  }

  // ---------------------------------------------------------------------
  // Where the count goes wrong

  /** With the default parameters: six requests, and after 10.32 s the packets fail. */
  lemma DefaultSearch()
    ensures Sensible(DEFAULTS) && NoWrap(DEFAULTS) && Attempts(DEFAULTS) == 6
    ensures RingWait(DEFAULTS, Rings(DEFAULTS)) + DEFAULTS.netTraversalTime * (Pow2(DEFAULTS.rreqRetries) - 1)
            == 10_320 * MILLISECOND
  {
    assert Rings(DEFAULTS) == 4 && Pow2(2) == 4;
    assert RingWait(DEFAULTS, 4) == 1920 * MILLISECOND;
  }

  /** The request that should leave the ring does so exactly when the ring value
      does not wrap around in 16 bits; otherwise the ring starts over below the
      threshold. */
  lemma LeavesRingExactly(cfg: Config, e: Info)
    requires Sensible(cfg) && e.flag == IN_SEARCH && e.hops == TtlAt(cfg, Rings(cfg) - 1)
    ensures NextTtl(cfg, e) == cfg.netDiameter <==> Overshoot(cfg) < 0x1_0000
    ensures Overshoot(cfg) >= 0x1_0000 ==> NextTtl(cfg, e) < e.hops <= cfg.ttlThreshold
  {
    hide Rings, TtlAt, Overshoot, NextTtl, Widened;
    NextIsWidened(cfg, e);
    LastRing(cfg);
    TtlBounds(cfg, Rings(cfg) - 1);
    OvershootBound(cfg);
    if Overshoot(cfg) < 0x1_0000 { WidenedIs(cfg, e.hops); } else { WidenedWraps(cfg, e.hops); }
  }

  lemma NextIsWidened(cfg: Config, e: Info)
    requires e.flag == IN_SEARCH
    ensures NextTtl(cfg, e) == Widened(cfg, e.hops)
  {
  }

  /** A request at the diameter is followed by another one exactly when the sum
      with the increment, cut to 16 bits, passes the threshold; otherwise the ring
      starts over below the threshold. */
  lemma StaysAtDiameterExactly(cfg: Config, e: Info)
    requires Sensible(cfg) && e.flag == IN_SEARCH && e.hops == cfg.netDiameter
    ensures NextTtl(cfg, e) == cfg.netDiameter <==> StaysAtDiameter(cfg)
    ensures !StaysAtDiameter(cfg) ==> NextTtl(cfg, e) == Wrap16(cfg.netDiameter + cfg.ttlIncrement) <= cfg.ttlThreshold
  {
  }

  /** The TTLs of the search are the ones `TtlAt` lists exactly when `NoWrap`. */
  lemma RingsExactly(cfg: Config)
    requires Sensible(cfg)
    ensures (forall i: nat :: i + 1 < Attempts(cfg) ==> TtlAt(cfg, i + 1) == Widened(cfg, TtlAt(cfg, i)))
            <==> NoWrap(cfg)
  {
    hide Rings, Widened;
    if NoWrap(cfg) {
      forall i: nat | i + 1 < Attempts(cfg) ensures TtlAt(cfg, i + 1) == Widened(cfg, TtlAt(cfg, i)) {
        RingStep(cfg, i);
      }
    } else {
      LastRing(cfg);
      RingBreaks(cfg);
      var i: nat := if Overshoot(cfg) >= 0x1_0000 then Rings(cfg) - 1 else Rings(cfg);
      assert TtlAt(cfg, i + 1) != Widened(cfg, TtlAt(cfg, i));
    }
  }

  lemma RingBreaks(cfg: Config)
    requires Sensible(cfg) && Rings(cfg) >= 1
    ensures Overshoot(cfg) >= 0x1_0000 ==> Widened(cfg, TtlAt(cfg, Rings(cfg) - 1)) != cfg.netDiameter
    ensures !StaysAtDiameter(cfg) ==> Widened(cfg, cfg.netDiameter) != cfg.netDiameter
  {
    hide Rings, TtlAt, Overshoot, Widened;
    LastRing(cfg);
    TtlBounds(cfg, Rings(cfg) - 1);
    DiameterStays(cfg);
    if Overshoot(cfg) >= 0x1_0000 {
      WidenedWraps(cfg, TtlAt(cfg, Rings(cfg) - 1));
    }
  }

  lemma WidenedWraps(cfg: Config, ttl: int)
    requires Sensible(cfg) && 0 <= ttl <= cfg.ttlThreshold && ttl + cfg.ttlIncrement >= 0x1_0000
    ensures Widened(cfg, ttl) < ttl && Widened(cfg, ttl) < cfg.netDiameter
  {
  }

  /** The counter is compared with `==`: an entry that a second, postponed
      request has pushed past the limit is never given up.  Its timer sends one
      more request at every expiry until the 8-bit counter wraps to zero, and
      that one aborts the simulation. */
  lemma PastTheLimitEndsInAbort(u: Node, dst: Addr, now: Time)
    requires Sensible(u.cfg) && StaysAtDiameter(u.cfg) && !RateLimited(u) && !u.search.aborted
    requires dst in u.table && u.table[dst].info.flag == IN_SEARCH && u.table[dst].info.hops == u.cfg.netDiameter
    requires u.table[dst].info.reqCnt > u.cfg.rreqRetries
    ensures var s' := Expire(u, dst, now);
            && dst in s'.table && s'.table[dst].info.flag == IN_SEARCH && s'.table[dst].info.hops == u.cfg.netDiameter
            && (if u.table[dst].info.reqCnt < 255
                then s'.table[dst].info.reqCnt == u.table[dst].info.reqCnt + 1 && !s'.search.aborted
                else s'.table[dst].info.reqCnt == 0 && s'.search.aborted)
  {
    hide Originate, Expire, Pow2, Discovery.Searching;
    ExpiryResends(u, dst, now);
    AtDiameter(u.cfg, u.table[dst].info, now);
  }

  lemma AtDiameter(cfg: Config, e: Info, now: Time)
    requires Sensible(cfg) && StaysAtDiameter(cfg) && e.flag == IN_SEARCH && e.hops == cfg.netDiameter
    ensures var x := Discovery.Searching(cfg, e, now);
            x.flag == IN_SEARCH && x.hops == cfg.netDiameter && x.reqCnt == Wrap8(e.reqCnt + 1)
  {
  }

  /** The whole of it: past the limit every expiry sends one more request, as
      long as nothing else disturbs the entry, and the one at which the counter
      wraps aborts. */
  lemma {:induction false} PastTheLimitRun(s: Node, dst: Addr, steps: seq<(Node, Time)>)
    requires Sensible(s.cfg) && StaysAtDiameter(s.cfg) && SearchTrace(s, dst, steps)
    requires dst in s.table && s.table[dst].info.flag == IN_SEARCH && s.table[dst].info.hops == s.cfg.netDiameter
    requires s.table[dst].info.reqCnt > s.cfg.rreqRetries && !s.search.aborted
    ensures |steps| <= 256 - s.table[dst].info.reqCnt && Resent(dst, steps) == |steps|
    ensures SearchEnd(s, dst, steps).search.aborted <==> |steps| == 256 - s.table[dst].info.reqCnt
    decreases |steps|
  {
    hide Expire, Sensible, RateLimited;
    if steps != [] {
      var u, now := steps[0].0, steps[0].1;
      PastTheLimitEndsInAbort(u, dst, now);
      PastTheLimitSends(u, dst, now);
      if s.table[dst].info.reqCnt < 255 {
        PastTheLimitRun(Expire(u, dst, now), dst, steps[1..]);
      } else {
        AbortStopsTrace(u, dst, now, steps[1..]);
      }
    }
  }

  lemma PastTheLimitSends(u: Node, dst: Addr, now: Time)
    requires dst in u.table && u.table[dst].info.flag == IN_SEARCH && u.table[dst].info.reqCnt != u.cfg.rreqRetries
    requires !RateLimited(u) && u.ifaces != []
    ensures var s' := Expire(u, dst, now); |s'.log.sent| > |u.log.sent| && s'.cfg == u.cfg
  {
    hide Originate, Expire;
    ExpiryResends(u, dst, now);
  }

  lemma AbortStopsTrace(u: Node, dst: Addr, now: Time, rest: seq<(Node, Time)>)
    requires dst in u.table && u.table[dst].info.flag == IN_SEARCH && u.table[dst].info.reqCnt == 255
    requires u.cfg.rreqRetries != 255 && !RateLimited(u) && !u.search.aborted
    requires Expire(u, dst, now).search.aborted && SearchTrace(Expire(u, dst, now), dst, rest)
    ensures rest == []
  {
    hide Originate, Expire, Pow2;
    ExpiryResends(u, dst, now);
  }

  lemma LastState(cfg: Config)
    requires Sensible(cfg)
    ensures TtlAt(cfg, Attempts(cfg) - 1) == cfg.netDiameter && CountAt(cfg, Attempts(cfg) - 1) == cfg.rreqRetries
  {
    hide Rings;
  }

  /** A postponed request that comes due while a regular search waits pushes it
      past the limit exactly when it goes out, the wait is the last one, and the
      search stays at the diameter. */
  lemma PostponedRequestPassesLimit(s: Node, dst: Addr, i: nat, t: Time, now: Time)
    requires Sensible(s.cfg) && NoWrap(s.cfg) && i < Attempts(s.cfg)
    requires Waiting(s, dst, i, t) && Enabled(s, Postponed(dst, now), now)
    ensures var s' := Apply(s, Postponed(dst, now), now);
            && dst in s'.table && s'.table[dst].info.flag == IN_SEARCH
            && (s'.table[dst].info.reqCnt > s.cfg.rreqRetries
                <==> !RateLimited(s) && i + 1 == Attempts(s.cfg) && StaysAtDiameter(s.cfg))
  {
    hide Originate, Pow2, Discovery.Searching, Rings, WaitAt, TtlAt, CountAt, NoWrap, StaysAtDiameter;
    var s1 := s.(search := s.search.(postponed := s.search.postponed - multiset{(dst, now)}));
    OriginateMoves(s1, dst, now);
    CountWithin(s.cfg, i);
    if i + 1 < Attempts(s.cfg) {
      NextInfo(s.cfg, s.table[dst].info, i, now);
      CountWithin(s.cfg, i + 1);
    } else {
      LastState(s.cfg);
      AtDiameterExactly(s.cfg, s.table[dst].info, now);
    }
  }

  lemma CountWithin(cfg: Config, i: nat)
    requires Sensible(cfg) && i < Attempts(cfg)
    ensures CountAt(cfg, i) <= cfg.rreqRetries
  {
    hide Rings;
  }

  lemma AtDiameterExactly(cfg: Config, e: Info, now: Time)
    requires Sensible(cfg) && e.flag == IN_SEARCH && e.hops == cfg.netDiameter && e.reqCnt == cfg.rreqRetries
    ensures var x := Discovery.Searching(cfg, e, now);
            x.flag == IN_SEARCH && x.reqCnt == (if StaysAtDiameter(cfg) then cfg.rreqRetries + 1 else cfg.rreqRetries)
  {
  }

  lemma AbortsWith(s: Node, dst: Addr, now: Time)
    requires !RateLimited(s) && !s.search.aborted
    ensures var e := SearchEntry(s.cfg, s.Purged(now), dst, now).info;
            SendRequest(s, dst, now).search.aborted <==> e.hops >= s.cfg.netDiameter && e.reqCnt == 0
  {
    hide Requests, RecordOwn, SearchEntry, Purge, Pow2;
  }

  /** SendRequest aborts exactly when the TTL reaches the diameter while the retry
      counter then reads zero: for a new destination, when the first TTL is
      beyond the diameter; for a known one, when the next TTL is beyond it and
      nothing was counted yet, or is the diameter and the counter wraps. */
  lemma AbortsExactly(s: Node, dst: Addr, now: Time)
    requires !RateLimited(s) && !s.search.aborted
    ensures var p := s.Purged(now);
            SendRequest(s, dst, now).search.aborted <==>
              if dst !in p then s.cfg.ttlStart > s.cfg.netDiameter
              else
                var ttl := NextTtl(s.cfg, p[dst].info);
                if ttl == s.cfg.netDiameter then p[dst].info.reqCnt == 255
                else ttl > s.cfg.netDiameter && p[dst].info.reqCnt == 0
  {
    hide SendRequest, NextTtl, Purge;
    AbortsWith(s, dst, now);
  }
}
