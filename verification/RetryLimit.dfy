/** How a search gets past its retry limit: packets for one destination that
    come while requests are rate limited postpone one call each, and all those
    calls go out after the reset. */
module RetryLimit {
  import opened Base
  import opened RouteTable
  import opened NodeState
  import opened Discovery
  import opened NodeEvents
  import opened NodeRuns
  import PacketQueue
  import RingSearch

  const HERE := Iface(99, 0xFFFF_FFFF, false, 1)

  /** The instant at which the postponed calls come due. */
  const DUE: Time := SECOND + 100 * MICROSECOND

  function PacketTo(uid: nat, dst: Addr): PacketQueue.QueueEntry {
    PacketQueue.QueueEntry(uid, PacketQueue.Header(99, dst, 64), -1, 0)
  }

  /** Packets with the identities from `n` on for `k` destinations that follow `n`. */
  function ToOthers(n: nat, k: nat): seq<(Event, Time)>
    requires n + k < 99
    decreases k
  {
    if k == 0 then [] else [(Output(PacketTo(n, n + 1)), 0)] + ToOthers(n + 1, k - 1)
  }

  /** `k` packets with the identities from `n` on for `d`. */
  function ToOne(n: nat, k: nat, d: Addr): seq<(Event, Time)>
    decreases k
  {
    if k == 0 then [] else [(Output(PacketTo(n, d)), 0)] + ToOne(n + 1, k - 1, d)
  }

  function Calls(k: nat, d: Addr): seq<(Event, Time)> {
    if k == 0 then [] else [(Postponed(d, DUE), DUE)] + Calls(k - 1, d)
  }

  // ---------------------------------------------------------------------
  // Up to the rate limit

  /** `count` requests are out, and the packets so far have identities below `uids`. */
  ghost predicate Busy(s: Node, count: nat, uids: nat, postponed: multiset<(Addr, Time)>) {
    && s.cfg == DEFAULTS && !s.search.aborted
    && s.search.rreqCount == count && s.search.rateReset == SECOND && s.search.postponed == postponed
    && (forall k :: k in s.table ==> k > 99 || k <= count)
    && (forall e :: e in s.queue ==> e.uid < uids)
  }

  lemma NewPacketAccepted(q: seq<PacketQueue.QueueEntry>, e: PacketQueue.QueueEntry, now: Time)
    requires forall x :: x in q ==> x.uid != e.uid
    ensures PacketQueue.Accepts(q, e, now)
    ensures forall x :: x in PacketQueue.Enqueue(q, e, 64, 30 * SECOND, now).queue ==> x in q || x.uid == e.uid
  {
    hide Filter;
    FilterMembers(PacketQueue.IsLive(now), q);
    var live := PacketQueue.Purge(q, now).queue;
    assert forall i :: 0 <= i < |live| ==> live[i] in live;
  }

  lemma OtherOutput(s: Node, n: nat, d: Addr)
    requires Busy(s, n, n, multiset{}) && n < 10
    ensures Busy(Apply(s, Output(PacketTo(n, n + 1)), 0), n + 1, n + 1, multiset{})
  {
    hide RecordOwn, Requests, PacketQueue.Enqueue, PacketQueue.Accepts;
    NewPacketAccepted(s.queue, PacketTo(n, n + 1), 0);
  }

  lemma LimitedOutput(s: Node, n: nat, d: Addr, postponed: multiset<(Addr, Time)>)
    requires Busy(s, 10, n, postponed) && 10 < d <= 99
    ensures Busy(Apply(s, Output(PacketTo(n, d)), 0), 10, n + 1, postponed + multiset{(d, DUE)})
  {
    hide PacketQueue.Enqueue, PacketQueue.Accepts, Originate;
    NewPacketAccepted(s.queue, PacketTo(n, d), 0);
  }

  lemma {:induction false} ManyOthers(s: Node, n: nat, k: nat, d: Addr)
    requires Busy(s, n, n, multiset{}) && n + k == 10
    ensures ValidRun(s, ToOthers(n, k), 0) && Busy(RunAll(s, ToOthers(n, k)), 10, 10, multiset{})
    decreases k
  {
    hide Apply, Busy;
    BusyGoesOn(s, n, n, multiset{});
    if k > 0 {
      OtherOutput(s, n, d);
      ManyOthers(Apply(s, Output(PacketTo(n, n + 1)), 0), n + 1, k - 1, d);
      assert ToOthers(n, k)[1..] == ToOthers(n + 1, k - 1);
    }
  }

  lemma BusyGoesOn(s: Node, count: nat, uids: nat, postponed: multiset<(Addr, Time)>)
    requires Busy(s, count, uids, postponed)
    ensures !s.search.aborted
  {
  }

  function Times(k: nat, d: Addr): multiset<(Addr, Time)> { multiset{}[(d, DUE) := k] }

  lemma {:induction false} ManyLimited(s: Node, n: nat, m: nat, k: nat, d: Addr)
    requires Busy(s, 10, n, Times(m, d)) && 10 < d <= 99
    ensures ValidRun(s, ToOne(n, k, d), 0) && Busy(RunAll(s, ToOne(n, k, d)), 10, n + k, Times(m + k, d))
    decreases k
  {
    hide Apply, Busy;
    BusyGoesOn(s, 10, n, Times(m, d));
    if k > 0 {
      LimitedOutput(s, n, d, Times(m, d));
      assert Times(m, d) + multiset{(d, DUE)} == Times(m + 1, d);
      ManyLimited(Apply(s, Output(PacketTo(n, d)), 0), n + 1, m + 1, k - 1, d);
      assert ToOne(n, k, d)[1..] == ToOne(n + 1, k - 1, d);
    }
  }

  // ---------------------------------------------------------------------
  // After the reset

  /** The TTL and the retry counter after the `j`-th call. */
  function TtlAfter(j: nat): int { if j <= 4 then 2 * j - 1 else 35 }

  function CountAfter(j: nat): int { if j <= 4 then 0 else j - 4 }

  /** `j` calls have gone out and `left` are still to come. */
  ghost predicate CalledBack(s: Node, j: nat, left: nat, d: Addr) {
    && s.cfg == DEFAULTS && !s.search.aborted && s.search.rreqCount == j && s.search.postponed == Times(left, d)
    && (if j == 0 then d !in s.table
        else d in s.table && s.table[d].info.flag == IN_SEARCH
             && s.table[d].info.hops == TtlAfter(j) && s.table[d].info.reqCnt == CountAfter(j))
  }

  lemma CallStep(s: Node, j: nat, left: nat, d: Addr)
    requires CalledBack(s, j, left, d) && left >= 1 && j < 7
    ensures Enabled(s, Postponed(d, DUE), DUE)
    ensures CalledBack(Apply(s, Postponed(d, DUE), DUE), j + 1, left - 1, d)
  {
    hide Originate, SearchEntry, ScheduleRreqRetry, Purge, TtlAfter, CountAfter, Times;
    var s1 := s.(search := s.search.(postponed := s.search.postponed - multiset{(d, DUE)}));
    OneLess(left, d);
    CallEntry(s1, j, d);
    OriginatedParts(s1, d, DUE);
    CallGoesOn(s1.search, d, SearchEntry(s.cfg, s1.Purged(DUE), d, DUE).info, j + 1);
  }

  lemma OneLess(k: nat, d: Addr)
    requires k >= 1
    ensures Times(k, d)[(d, DUE)] > 0 && Times(k, d) - multiset{(d, DUE)} == Times(k - 1, d)
  {
  }

  lemma OriginatedParts(s: Node, dst: Addr, now: Time)
    ensures var e := SearchEntry(s.cfg, s.Purged(now), dst, now);
            var s' := Originate(s, dst, now);
            && s'.cfg == s.cfg && dst in s'.table && s'.table[dst] == e
            && s'.search
               == ScheduleRreqRetry(s.search.(rreqCount := Wrap16(s.search.rreqCount + 1)), s.cfg, dst, e.info, now)
  {
    hide Purge, SearchEntry, ScheduleRreqRetry, RecordOwn, Requests;
  }

  lemma CallEntry(s: Node, j: nat, d: Addr)
    requires s.cfg == DEFAULTS && j < 7
    requires if j == 0 then d !in s.table
             else d in s.table && s.table[d].info.flag == IN_SEARCH
                  && s.table[d].info.hops == TtlAfter(j) && s.table[d].info.reqCnt == CountAfter(j)
    ensures var x := SearchEntry(s.cfg, s.Purged(DUE), d, DUE).info;
            x.flag == IN_SEARCH && x.hops == TtlAfter(j + 1) && x.reqCnt == CountAfter(j + 1)
  {
    hide Discovery.Searching;
    if j > 0 {
      assert d in s.Purged(DUE) && s.Purged(DUE)[d] == s.table[d];
      NextCall(s.table[d].info, j);
    }
  }

  lemma NextCall(e: Info, j: nat)
    requires 1 <= j < 7 && e.flag == IN_SEARCH && e.hops == TtlAfter(j) && e.reqCnt == CountAfter(j)
    ensures var x := Discovery.Searching(DEFAULTS, e, DUE);
            x.flag == IN_SEARCH && x.hops == TtlAfter(j + 1) && x.reqCnt == CountAfter(j + 1)
  {
  }

  lemma CallGoesOn(search: Search, d: Addr, e: Info, j: nat)
    requires 1 <= j <= 7 && e.hops == TtlAfter(j) && e.reqCnt == CountAfter(j) && !search.aborted
    ensures var s' := ScheduleRreqRetry(search.(rreqCount := Wrap16(search.rreqCount + 1)), DEFAULTS, d, e, DUE);
            && !s'.aborted && s'.rreqCount == Wrap16(search.rreqCount + 1) && s'.postponed == search.postponed
  {
    hide Pow2;
  }

  lemma {:induction false} ManyCalls(s: Node, j: nat, k: nat, d: Addr)
    requires CalledBack(s, j, k, d) && j + k == 7
    ensures ValidRun(s, Calls(k, d), DUE) && CalledBack(RunAll(s, Calls(k, d)), 7, 0, d)
    decreases k
  {
    hide Apply, CalledBack, Enabled;
    if k > 0 {
      CallStep(s, j, k, d);
      ManyCalls(Apply(s, Postponed(d, DUE), DUE), j + 1, k - 1, d);
      assert Calls(k, d)[1..] == Calls(k - 1, d);
    }
  }

  lemma ResetStep(s: Node, uids: nat, d: Addr)
    requires Busy(s, 10, uids, Times(7, d)) && 10 < d <= 99
    ensures Enabled(s, RreqReset, SECOND) && CalledBack(Apply(s, RreqReset, SECOND), 0, 7, d)
  {
  }

  // ---------------------------------------------------------------------
  // The run

  /** Two runs one after the other. */
  lemma {:induction false} Joined(s: Node, a: seq<(Event, Time)>, b: seq<(Event, Time)>, start: Time, mid: Time)
    requires ValidRun(s, a, start) && ValidRun(RunAll(s, a), b, mid)
    requires start <= mid && forall i :: 0 <= i < |a| ==> a[i].1 <= mid
    ensures ValidRun(s, a + b, start) && RunAll(s, a + b) == RunAll(RunAll(s, a), b)
    decreases |a|
  {
    hide Apply, Enabled;
    if a == [] {
      assert a + b == b;
      EarlierStart(s, b, start, mid);
    } else {
      assert (a + b)[1..] == a[1..] + b;
      Joined(Apply(s, a[0].0, a[0].1), a[1..], b, a[0].1, mid);
    }
  }

  lemma EarlierStart(s: Node, run: seq<(Event, Time)>, start: Time, mid: Time)
    requires ValidRun(s, run, mid) && start <= mid
    ensures ValidRun(s, run, start)
  {
  }

  lemma {:induction false} OutputsAtZero(n: nat, k: nat, d: Addr)
    ensures n + k < 99 ==> forall i :: 0 <= i < |ToOthers(n, k)| ==> ToOthers(n, k)[i].1 == 0
    ensures forall i :: 0 <= i < |ToOne(n, k, d)| ==> ToOne(n, k, d)[i].1 == 0
    decreases k
  {
    if k > 0 {
      OutputsAtZero(n + 1, k - 1, d);
    }
  }

  /** Ten packets to other destinations use up the rate limit, seven more go to `d`,
      and one second later the counter is reset. */
  function FloodedRun(d: Addr): seq<(Event, Time)> {
    ToOthers(0, 10) + (ToOne(10, 7, d) + ([(RreqReset, SECOND)] + Calls(7, d)))
  }

  lemma AfterReset(s: Node, d: Addr)
    requires Busy(s, 10, 17, Times(7, d)) && 10 < d <= 99
    ensures var rest := [(RreqReset, SECOND)] + Calls(7, d);
            ValidRun(s, rest, 0) && CalledBack(RunAll(s, rest), 7, 0, d)
  {
    hide Apply, Busy, CalledBack, Enabled, Calls;
    ResetStep(s, 17, d);
    ManyCalls(Apply(s, RreqReset, SECOND), 0, 7, d);
    var rest := [(RreqReset, SECOND)] + Calls(7, d);
    assert rest[1..] == Calls(7, d);
    EarlierStart(Apply(s, RreqReset, SECOND), Calls(7, d), SECOND, DUE);
  }

  lemma StartedBusy(lo: Device, jitter: Time)
    ensures Busy(Started(DEFAULTS, [HERE], lo, jitter, 0), 0, 0, multiset{})
  {
    hide Started;
    StartedTable(DEFAULTS, HERE, lo, jitter);
    StartedRest(DEFAULTS, [HERE], lo, jitter, 0);
  }

  /** A started node with default parameters, whose retry limit is 2, can reach a
      retry counter of 3: seven packets for a new destination while requests are
      rate limited become seven requests after the reset.  `RingSearch.PastTheLimitRun`
      says what happens then. */
  lemma RetryLimitPassed(lo: Device, jitter: Time, d: Addr)
    requires 10 < d < 99
    ensures var s := Started(DEFAULTS, [HERE], lo, jitter, 0);
            && ValidRun(s, FloodedRun(d), 0)
            && var end := RunAll(s, FloodedRun(d));
            && d in end.table && end.table[d].info.flag == IN_SEARCH && !end.search.aborted
            && end.table[d].info.hops == DEFAULTS.netDiameter
            && end.table[d].info.reqCnt == 3 > DEFAULTS.rreqRetries
            && end.cfg == DEFAULTS && RingSearch.Sensible(DEFAULTS) && RingSearch.StaysAtDiameter(DEFAULTS)
  {
    hide Started, Apply, Busy, Enabled, ToOthers, ToOne, Calls;
    var s := Started(DEFAULTS, [HERE], lo, jitter, 0);
    StartedBusy(lo, jitter);
    ManyOthers(s, 0, 10, d);
    var s1 := RunAll(s, ToOthers(0, 10));
    assert multiset{} == Times(0, d);
    ManyLimited(s1, 10, 0, 7, d);
    var s2 := RunAll(s1, ToOne(10, 7, d));
    AfterReset(s2, d);
    OutputsAtZero(0, 10, d);
    OutputsAtZero(10, 7, d);
    Joined(s1, ToOne(10, 7, d), [(RreqReset, SECOND)] + Calls(7, d), 0, 0);
    Joined(s, ToOthers(0, 10), ToOne(10, 7, d) + ([(RreqReset, SECOND)] + Calls(7, d)), 0, 0);
  }
}
