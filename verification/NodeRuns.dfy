/** Invariants of one node over every run: the table's representation, the RREQ
    rate limit and the spacing of hello messages. */
module NodeRuns {
  import opened Base
  import opened Messages
  import opened RouteTable
  import opened NodeState
  import opened Discovery
  import opened LinkBreak
  import opened Routes
  import opened NodeEvents
  import opened Frames
  import opened NodeFrames
  import opened NoStrandedPacket
  import PacketQueue

  // ---------------------------------------------------------------------
  // What one event does to the counters, the clocks and the table

  /** An event originates no request, or exactly one within the rate limit, and
      no postponed request is lost. */
  ghost predicate Steps(s: Node, s': Node, now: Time) {
    && (TableOk(s.table) ==> TableOk(s'.table))
    && s'.cfg == s.cfg && s'.ifaces == s.ifaces
    && s'.hello.timer == s.hello.timer && (s'.hello.lastBcast == s.hello.lastBcast || s'.hello.lastBcast == now)
    && s'.search.rateReset == s.search.rateReset
    && s.search.postponed <= s'.search.postponed
    && (|| (s'.ctr.requestId == s.ctr.requestId && s'.search.rreqCount == s.search.rreqCount)
        || (s'.ctr.requestId == Wrap32(s.ctr.requestId + 1) && !RateLimited(s)
            && s'.search.rreqCount == Wrap16(s.search.rreqCount + 1)))
  }

  lemma QuietSteps(s: Node, s': Node, about: set<Addr>, now: Time)
    requires Quiet(s, s', about, now)
    ensures Steps(s, s', now)
  {
  }

  /** A part that leaves counters and clocks alone, then one that may originate. */
  lemma ThenSteps(a: Node, b: Node, c: Node, now: Time)
    requires Steps(a, b, now) && b.ctr.requestId == a.ctr.requestId && b.hello == a.hello && Steps(b, c, now)
    ensures Steps(a, c, now)
  {
    hide TableOk;
  }

  lemma SendRequestSteps(s: Node, dst: Addr, now: Time)
    ensures Steps(s, SendRequest(s, dst, now), now)
  {
    hide Purge, SearchEntry, Requests, RecordOwn, RetryDelay, TableOk;
    if !RateLimited(s) && TableOk(s.table) {
      OriginateTableOk(s, dst, now);
    }
  }

  lemma OriginateTableOk(s: Node, dst: Addr, now: Time)
    requires TableOk(s.table)
    ensures TableOk(Originate(s, dst, now).table)
  {
    hide Purge, SearchEntry, Requests, RecordOwn, ScheduleRreqRetry;
    PurgeEvolves(s.table, now, s.cfg.badLinkLifetime);
    SearchEntryOk(s.cfg, s.Purged(now), dst, now);
  }

  lemma PurgedSteps(s: Node, now: Time)
    ensures Steps(s, s.(table := s.Purged(now)), now)
  {
    hide Purge, TableOk;
    PurgedQuiet(s, now);
    QuietSteps(s, s.(table := s.Purged(now)), {}, now);
  }

  lemma FlushSteps(s: Node, dst: Addr, route: Route, now: Time)
    ensures Steps(s, SendPacketFromQueue(s, dst, route, now), now)
  {
    hide TableOk, Filter, WithoutFirst, ForwardedAll, Matching;
  }

  lemma GiveUpSteps(s: Node, dst: Addr, now: Time)
    ensures Steps(s, GiveUp(s, dst, now), now)
  {
    hide Purge, Filter;
    PurgeEvolves(s.table, now, s.cfg.badLinkLifetime);
  }

  lemma RetrySteps(s: Node, dst: Addr, now: Time)
    ensures Steps(s, RouteRequestTimerExpire(s, dst, now), now)
  {
    hide Purge, Steps, SendPacketFromQueue, GiveUp, SendRequest;
    var s1 := s.(table := s.Purged(now));
    PurgedSteps(s, now);
    if IsValid(s1.table, dst) {
      FlushSteps(s1, dst, s1.table[dst].route, now);
      ThenSteps(s, s1, SendPacketFromQueue(s1, dst, s1.table[dst].route, now), now);
    }
    GiveUpSteps(s, dst, now);
    SendRequestSteps(s1, dst, now);
    ThenSteps(s, s1, SendRequest(s1, dst, now), now);
  }

  lemma OutputSteps(s: Node, packet: PacketQueue.QueueEntry, now: Time)
    ensures Steps(s, DeferredRouteOutput(s, packet, now), now)
  {
    hide Purge, SendRequest, PacketQueue.Enqueue, PacketQueue.Accepts, TableOk;
    var s1 := s.WithQueue(PacketQueue.Enqueue(s.queue, packet, s.cfg.maxQueueLen, s.cfg.queueTimeout, now));
    var s2 := s1.(table := s.Purged(now));
    PurgedSteps(s, now);
    SendRequestSteps(s2, packet.header.dst, now);
    ThenSteps(s, s2, SendRequest(s2, packet.header.dst, now), now);
  }

  lemma PostponedSteps(s: Node, dst: Addr, at: Time, now: Time)
    ensures Steps(s.(search := s.search.(postponed := s.search.postponed - multiset{(dst, at)})),
                  PostponedRequest(s, dst, at, now), now)
    ensures PostponedRequest(s, dst, at, now).ctr.requestId == s.ctr.requestId ==>
      (dst, s.search.rateReset + 100 * MICROSECOND) in PostponedRequest(s, dst, at, now).search.postponed
  {
    hide Originate, TableOk;
    var s1 := s.(search := s.search.(postponed := s.search.postponed - multiset{(dst, at)}));
    SendRequestSteps(s1, dst, now);
    OriginateId(s1, dst, now);
  }

  lemma OriginateId(s: Node, dst: Addr, now: Time)
    ensures Originate(s, dst, now).ctr.requestId == Wrap32(s.ctr.requestId + 1) != s.ctr.requestId
  {
    hide Purge, SearchEntry, Requests, RecordOwn, ScheduleRreqRetry;
  }

  lemma AcceptSteps(s: Node, h: Rrep, hop: U8, sender: Addr, rcv: Iface, before: Entry, now: Time)
    ensures Steps(s, AcceptReply(s, h, hop, sender, rcv, before, now), now)
  {
    hide SendPacketFromQueue, Purge, TableOk, Update;
    var searching := before.info.flag == IN_SEARCH;
    var s1 := EndSearch(s, h, hop, sender, rcv, searching, now);
    var e := ForwardEntry(h, hop, sender, rcv, now);
    UpdateEvolves(s.table, e);
    var u := if searching then Update(s.table, e) else s.table;
    PurgeEvolves(u, now, s.cfg.badLinkLifetime);
    if TableOk(s.table) {
      EvolvesSame(s.table);
      EvolvesOk(s.table, u, {h.dst});
      EvolvesOk(u, s1.table, {});
    }
    FlushSteps(s1, h.dst, GetOr(s1.table, h.dst, before).route, now);
    ThenSteps(s, s1, AcceptReply(s, h, hop, sender, rcv, before, now), now);
  }

  lemma RecvReplySteps(s: Node, h: Rrep, ttl: U8, sender: Addr, rcv: Iface, now: Time)
    requires TableOk(s.table)
    ensures Steps(s, RecvReply(s, h, ttl, sender, rcv, now), now)
  {
    if h.dst == h.origin {
      HelloReplySteps(s, h, rcv, now);
    } else if !s.IsMyOwnAddress(h.origin) {
      PassedReplyQuiet(s, h, ttl, sender, rcv, now);
      QuietSteps(s, RecvReply(s, h, ttl, sender, rcv, now), {h.dst, NO_ADDR}, now);
    } else {
      OwnReplySteps(s, h, ttl, sender, rcv, now);
    }
  }

  lemma HelloReplySteps(s: Node, h: Rrep, rcv: Iface, now: Time)
    requires TableOk(s.table)
    ensures Steps(s, ProcessHello(s, h, rcv, now), now)
  {
    hide Steps, ProcessHello, Quiet;
    ProcessHelloQuiet(s, h, rcv, now);
    QuietSteps(s, ProcessHello(s, h, rcv, now), {}, now);
  }

  lemma OwnReplySteps(s: Node, h: Rrep, ttl: U8, sender: Addr, rcv: Iface, now: Time)
    requires TableOk(s.table) && h.dst != h.origin && s.IsMyOwnAddress(h.origin)
    ensures Steps(s, RecvReply(s, h, ttl, sender, rcv, now), now)
  {
    hide Steps, AcceptReply, LearnFromReply, Purge, TableOk;
    var hop := Wrap8(h.hopCount + 1);
    var before := GetOr(s.Purged(now), h.dst, DefaultEntry(now));
    var s2 := LearnFromReply(s, h, hop, sender, rcv, now);
    LearnFromReplyQuiet(s, h, hop, sender, rcv, now);
    QuietSteps(s, s2, {h.dst}, now);
    LearnHello(s, h, hop, sender, rcv, now);
    AcceptSteps(s2, h, hop, sender, rcv, before, now);
    ThenSteps(s, s2, AcceptReply(s2, h, hop, sender, rcv, before, now), now);
  }

  lemma LearnHello(s: Node, h: Rrep, hop: U8, sender: Addr, rcv: Iface, now: Time)
    ensures LearnFromReply(s, h, hop, sender, rcv, now).hello == s.hello
  {
    hide ForwardRoute, Purge, GetOr;
  }

  lemma ReceiptSteps(s: Node, msg: Option<Message>, ttl: U8, sender: Addr, rcv: Iface, now: Time)
    requires TableOk(s.table)
    ensures Steps(s, Receive(s, msg, ttl, sender, rcv, now), now)
  {
    hide Steps, Evolves, RouteToNeighbor, RecvRequest, RecvReply, RecvError, RecvReplyAck, TableOk;
    var s1 := s.(table := RouteToNeighbor(s.cfg, s.table, sender, rcv, now));
    NeighborEvolves(s.cfg, s.table, sender, rcv, now);
    QuietSteps(s, s1, {}, now);
    QuietOk(s, s1, {}, now);
    match msg
    case None =>
    case Some(RREQ(h)) =>
      RecvRequestQuiet(s1, h, ttl, sender, rcv, now);
      QuietSteps(s1, RecvRequest(s1, h, ttl, sender, rcv, now), {h.origin, NO_ADDR}, now);
      ThenSteps(s, s1, RecvRequest(s1, h, ttl, sender, rcv, now), now);
    case Some(RREP(h)) =>
      RecvReplySteps(s1, h, ttl, sender, rcv, now);
      ThenSteps(s, s1, RecvReply(s1, h, ttl, sender, rcv, now), now);
    case Some(RERR(h)) =>
      RecvErrorQuiet(s1, h, sender, now);
      QuietSteps(s1, RecvError(s1, h, sender, now), {}, now);
      ThenSteps(s, s1, RecvError(s1, h, sender, now), now);
    case Some(RREP_ACK) =>
      RecvReplyAckQuiet(s1, sender, now);
      QuietSteps(s1, RecvReplyAck(s1, sender, now), {}, now);
      ThenSteps(s, s1, RecvReplyAck(s1, sender, now), now);
  }

  /** Every event but the reset, the hello timer and the return of a postponed call. */
  lemma EventSteps(s: Node, e: Event, now: Time)
    requires TableOk(s.table) && !e.RreqReset? && !e.HelloTimer? && !e.Postponed?
    ensures Steps(s, Apply(s, e, now), now)
  {
    hide Evolves, TableOk, Receive, RouteRequestTimerExpire, PurgeNeighbors, RouteOutput, Forwarding, DeliverLocally,
         DeferredRouteOutput, PostponedRequest, CloseNeighbors;
    match e
    case Receipt(msg, ttl, sender, rcv) => ReceiptSteps(s, msg, ttl, sender, rcv, now);
    case Output(packet) => OutputSteps(s, packet, now);
    case RetryTimer(dst) => RetrySteps(s.(search := s.search.(timers := s.search.timers[dst := None])), dst, now);
    case RerrReset =>
    case NeighborTimer =>
      PurgeNeighborsQuiet(s.(neighborTimer := None), now);
      NeighborsOk(s.(neighborTimer := None), now);
    case TxError(hit) =>
      PurgeNeighborsQuiet(s.(neighbors := CloseNeighbors(s.neighbors, hit)), now);
      NeighborsOk(s.(neighbors := CloseNeighbors(s.neighbors, hit)), now);
    case RouteRequest(dst, oif) =>
      RouteOutputQuiet(s, dst, oif, now);
      QuietSteps(s, Apply(s, e, now), {}, now);
    case Forward(uid, header) =>
      ForwardingQuiet(s, uid, header, now);
      QuietSteps(s, Apply(s, e, now), {}, now);
    case Delivered(origin) =>
      DeliverLocallyQuiet(s, origin, now);
      QuietSteps(s, Apply(s, e, now), {}, now);
  }

  lemma NeighborsOk(s: Node, now: Time)
    requires TableOk(s.table)
    ensures TableOk(PurgeNeighbors(s, now).table)
  {
    hide PurgeNeighbors;
    PurgeNeighborsQuiet(s, now);
    QuietOk(s, PurgeNeighbors(s, now), {}, now);
  }

  // ---------------------------------------------------------------------
  // The table

  lemma StepTableOk(s: Node, e: Event, now: Time)
    requires TableOk(s.table)
    ensures TableOk(Apply(s, e, now).table)
  {
    hide Receive, RouteRequestTimerExpire, PurgeNeighbors, RouteOutput, Forwarding, DeliverLocally,
         DeferredRouteOutput, PostponedRequest, CloseNeighbors, ProcessTxError, TableOk;
    if e.Postponed? {
      PostponedSteps(s, e.dst, e.at, now);
    } else if !e.RreqReset? && !e.HelloTimer? {
      EventSteps(s, e, now);
    }
  }

  /** In every reachable table each key is its entry's destination, retry
      counters live only under search, and precursor lists have no duplicates. */
  lemma {:induction false} RunTableOk(s: Node, run: seq<(Event, Time)>)
    requires TableOk(s.table)
    ensures TableOk(RunAll(s, run).table)
    decreases |run|
  {
    hide Apply, TableOk;
    if run != [] {
      StepTableOk(s, run[0].0, run[0].1);
      RunTableOk(Apply(s, run[0].0, run[0].1), run[1..]);
    }
  }

  // ---------------------------------------------------------------------
  // The rate limit

  /** No running deadline has passed: timers fire when they are due. */
  predicate OnTime(s: Node, now: Time) {
    now <= s.search.rateReset && (s.hello.timer.Some? ==> now <= s.hello.timer.value)
  }

  ghost predicate PunctualRun(s: Node, run: seq<(Event, Time)>, start: Time)
    decreases |run|
  {
    run != [] ==>
      && start <= run[0].1 && OnTime(s, run[0].1) && Enabled(s, run[0].0, run[0].1)
      && PunctualRun(Apply(s, run[0].0, run[0].1), run[1..], run[0].1)
  }

  predicate Originates(s: Node, e: Event, now: Time) { Apply(s, e, now).ctr.requestId != s.ctr.requestId }

  /** One event, as the rate limit sees it. */
  lemma RateStep(s: Node, e: Event, now: Time)
    requires TableOk(s.table) && s.search.rreqCount <= s.cfg.rreqRateLimit && Enabled(s, e, now)
    ensures var s' := Apply(s, e, now);
            && TableOk(s'.table) && s'.cfg == s.cfg
            && s'.search.rreqCount == (if e.RreqReset? then 0
                                       else s.search.rreqCount + if Originates(s, e, now) then 1 else 0)
            && s'.search.rreqCount <= s.cfg.rreqRateLimit
            && s'.search.rateReset == (if e.RreqReset? then now + SECOND else s.search.rateReset)
            && (e.RreqReset? ==> !Originates(s, e, now) && s.search.rateReset == now)
  {
    hide Receive, RouteRequestTimerExpire, PurgeNeighbors, RouteOutput, Forwarding, Hellos, DeliverLocally,
         DeferredRouteOutput, PostponedRequest, CloseNeighbors, ProcessTxError, TableOk;
    StepTableOk(s, e, now);
    if e.Postponed? {
      PostponedSteps(s, e.dst, e.at, now);
    } else if !e.RreqReset? && !e.HelloTimer? {
      EventSteps(s, e, now);
    }
  }

  /** The originations of the run since its last reset, on top of `count`. */
  ghost function SinceReset(s: Node, run: seq<(Event, Time)>, count: nat): nat
    decreases |run|
  {
    if run == [] then count
    else
      var e, now := run[0].0, run[0].1;
      SinceReset(Apply(s, e, now), run[1..],
                 if e.RreqReset? then 0 else if Originates(s, e, now) then count + 1 else count)
  }

  /** The counter counts the originations since the last reset, and stays within the limit. */
  lemma {:induction false} CounterIsOriginations(s: Node, run: seq<(Event, Time)>, start: Time)
    requires TableOk(s.table) && s.search.rreqCount <= s.cfg.rreqRateLimit && ValidRun(s, run, start)
    ensures RunAll(s, run).search.rreqCount == SinceReset(s, run, s.search.rreqCount)
    ensures RunAll(s, run).search.rreqCount <= s.cfg.rreqRateLimit
    decreases |run|
  {
    hide Apply, Enabled, TableOk;
    if run != [] {
      RateStep(s, run[0].0, run[0].1);
      CounterIsOriginations(Apply(s, run[0].0, run[0].1), run[1..], run[0].1);
    }
  }

  /** The originations of the run in the window [lo, hi). */
  ghost function OriginationsIn(s: Node, run: seq<(Event, Time)>, lo: Time, hi: Time): nat
    decreases |run|
  {
    if run == [] then 0
    else
      var e, now := run[0].0, run[0].1;
      (if Originates(s, e, now) && lo <= now < hi then 1 else 0) + OriginationsIn(Apply(s, e, now), run[1..], lo, hi)
  }

  lemma {:induction false} NoneAfterWindow(s: Node, run: seq<(Event, Time)>, start: Time, lo: Time, hi: Time)
    requires PunctualRun(s, run, start) && start >= hi
    ensures OriginationsIn(s, run, lo, hi) == 0
    decreases |run|
  {
    hide Apply, Enabled, Originates;
    if run != [] {
      NoneAfterWindow(Apply(s, run[0].0, run[0].1), run[1..], run[0].1, lo, hi);
    }
  }

  /** What the counter and the next reset still allow inside the window. */
  function Allowance(s: Node, lo: Time, hi: Time): int {
    var limit := s.cfg.rreqRateLimit;
    if hi <= s.search.rateReset then limit - s.search.rreqCount
    else if lo <= s.search.rateReset then 2 * limit - s.search.rreqCount
    else 2 * limit
  }

  lemma {:induction false} WithinAllowance(s: Node, run: seq<(Event, Time)>, start: Time, lo: Time, hi: Time)
    requires TableOk(s.table) && s.search.rreqCount <= s.cfg.rreqRateLimit && PunctualRun(s, run, start)
    requires hi <= lo + SECOND
    ensures OriginationsIn(s, run, lo, hi) <= Allowance(s, lo, hi)
    decreases |run|
  {
    hide Apply, Enabled, TableOk, Originates;
    if run != [] {
      var e, now := run[0].0, run[0].1;
      var s' := Apply(s, e, now);
      RateStep(s, e, now);
      WithinAllowance(s', run[1..], now, lo, hi);
      if now >= hi {
        NoneAfterWindow(s', run[1..], now, lo, hi);
      }
    }
  }

  /** Any half-open window of one second holds at most twice the limit. */
  lemma WindowBound(s: Node, run: seq<(Event, Time)>, start: Time, lo: Time)
    requires TableOk(s.table) && s.search.rreqCount <= s.cfg.rreqRateLimit && PunctualRun(s, run, start)
    ensures OriginationsIn(s, run, lo, lo + SECOND) <= 2 * s.cfg.rreqRateLimit
  {
    hide Apply, TableOk, OriginationsIn, PunctualRun;
    WithinAllowance(s, run, start, lo, lo + SECOND);
  }

  /** A postponed request stays pending until its call comes due, and then it is
      sent or postponed again to just after the next reset. */
  lemma PostponedIsKept(s: Node, e: Event, now: Time, dst: Addr, at: Time)
    requires TableOk(s.table) && Enabled(s, e, now) && (dst, at) in s.search.postponed
    ensures var s' := Apply(s, e, now);
            || s'.search.postponed[(dst, at)] >= s.search.postponed[(dst, at)]
            || (e == Postponed(dst, at) && s'.search.postponed[(dst, at)] == s.search.postponed[(dst, at)] - 1
                && (Originates(s, e, now) || (dst, s.search.rateReset + 100 * MICROSECOND) in s'.search.postponed))
  {
    hide Receive, RouteRequestTimerExpire, PurgeNeighbors, RouteOutput, Forwarding, Hellos, DeliverLocally,
         DeferredRouteOutput, PostponedRequest, CloseNeighbors, ProcessTxError, TableOk;
    if e.Postponed? {
      PostponedSteps(s, e.dst, e.at, now);
    } else if !e.RreqReset? && !e.HelloTimer? {
      EventSteps(s, e, now);
    }
  }

  // ---------------------------------------------------------------------
  // Hello messages

  /** `b` is the instant of the last broadcast: `lastBcast` remembers it until
      the hello timer looks, and the timer is due within one interval of it. */
  ghost predicate HelloPaced(s: Node, b: Time) {
    && s.hello.timer.Some? && s.hello.timer.value <= b + s.cfg.helloInterval
    && (s.hello.lastBcast > 0 ==> s.hello.lastBcast == b)
  }

  /** The instant of the last broadcast after the event: a request sent or
      relayed, or a hello when the timer finds none to stand in for it. */
  function LastBroadcast(s: Node, e: Event, now: Time, b: Time): Time {
    if e.HelloTimer? then (if s.hello.lastBcast > 0 then b else now)
    else if Apply(s, e, now).hello.lastBcast == now then now else b
  }

  lemma HelloStep(s: Node, e: Event, now: Time, b: Time)
    requires TableOk(s.table) && s.cfg.helloInterval >= 0 && HelloPaced(s, b) && b <= now
    requires OnTime(s, now) && Enabled(s, e, now)
    ensures var s' := Apply(s, e, now); var b' := LastBroadcast(s, e, now, b);
            TableOk(s'.table) && s'.cfg == s.cfg && HelloPaced(s', b') && b <= b' <= now
  {
    hide Receive, RouteRequestTimerExpire, PurgeNeighbors, RouteOutput, Forwarding, Hellos, DeliverLocally,
         DeferredRouteOutput, PostponedRequest, CloseNeighbors, ProcessTxError, TableOk;
    StepTableOk(s, e, now);
    if e.Postponed? {
      PostponedSteps(s, e.dst, e.at, now);
    } else if !e.RreqReset? && !e.HelloTimer? {
      EventSteps(s, e, now);
    }
  }

  ghost function LastBroadcastOf(s: Node, run: seq<(Event, Time)>, b: Time): Time
    decreases |run|
  {
    if run == [] then b
    else LastBroadcastOf(Apply(s, run[0].0, run[0].1), run[1..], LastBroadcast(s, run[0].0, run[0].1, b))
  }

  /** Once paced, always paced: no event of any run comes more than one hello
      interval after the last broadcast before it, so neither does a broadcast. */
  lemma {:induction false} HelloGap(s: Node, run: seq<(Event, Time)>, start: Time, b: Time)
    requires TableOk(s.table) && s.cfg.helloInterval >= 0 && HelloPaced(s, b) && b <= start
    requires PunctualRun(s, run, start)
    ensures HelloPaced(RunAll(s, run), LastBroadcastOf(s, run, b))
    ensures run != [] ==> run[|run| - 1].1 <= LastBroadcastOf(s, run[..|run| - 1], b) + s.cfg.helloInterval
    decreases |run|
  {
    hide Apply, Enabled, TableOk, LastBroadcast;
    if run != [] {
      var e, now := run[0].0, run[0].1;
      HelloStep(s, e, now, b);
      HelloGap(Apply(s, e, now), run[1..], now, LastBroadcast(s, e, now, b));
      if |run| > 1 {
        assert run[..|run| - 1][1..] == run[1..][..|run| - 2];
      }
    }
  }

  /** The first expiry establishes the pace exactly when it does not come more
      than one interval after a request that went out before it. */
  lemma FirstHelloExactly(s: Node, now: Time)
    requires s.cfg.helloInterval >= 0 && 0 <= s.hello.lastBcast <= now
    ensures var s' := HelloTimerExpire(s, now);
            HelloPaced(s', if s.hello.lastBcast > 0 then s.hello.lastBcast else now)
            <==> (s.hello.lastBcast > 0 ==> now <= s.hello.lastBcast + s.cfg.helloInterval)
  {
    hide Hellos;
  }

  // ---------------------------------------------------------------------
  // From the start

  lemma AddLocalOk(t: Table, dst: Addr, iface: Iface, now: Time, bad: Time)
    requires TableOk(t)
    ensures var t' := Add(t, LocalRoute(dst, iface, now), now, bad);
            TableOk(t') && forall k :: UnderSearch(t', k) ==> UnderSearch(t, k)
  {
    hide Purge;
    PurgeEvolves(t, now, bad);
    EvolvesOk(t, Purge(t, now, bad), {});
  }

  lemma {:induction false} BroadcastRoutesOk(t: Table, ifaces: seq<Iface>, now: Time, bad: Time)
    requires TableOk(t)
    ensures var t' := AddBroadcastRoutes(t, ifaces, now, bad);
            TableOk(t') && forall k :: UnderSearch(t', k) ==> UnderSearch(t, k)
    decreases |ifaces|
  {
    hide TableOk, Add;
    if ifaces != [] {
      AddLocalOk(t, ifaces[0].broadcast, ifaces[0], now, bad);
      BroadcastRoutesOk(Add(t, LocalRoute(ifaces[0].broadcast, ifaces[0], now), now, bad), ifaces[1..], now, bad);
    }
  }

  lemma StartedOk(cfg: Config, ifaces: seq<Iface>, lo: Device, jitter: Time, now: Time)
    ensures var s := Started(cfg, ifaces, lo, jitter, now);
            NoStranded(s) && TableOk(s.table) && s.search.rreqCount == 0 && s.cfg == cfg
  {
    hide AddBroadcastRoutes, Add;
    var bad := cfg.badLinkLifetime;
    AddLocalOk(map[], LOOPBACK, LoopbackIface(lo), now, bad);
    BroadcastRoutesOk(Add(map[], LocalRoute(LOOPBACK, LoopbackIface(lo), now), now, bad), ifaces, now, bad);
  }

  /** Every run of a node from its start: the table keeps its invariant, the
      counter is the number of originations since the last reset and stays within
      the limit, and no packet is ever left unattended exactly when every flush settles. */
  lemma FromStart(cfg: Config, ifaces: seq<Iface>, lo: Device, jitter: Time, start: Time, run: seq<(Event, Time)>)
    requires ValidRun(Started(cfg, ifaces, lo, jitter, start), run, start)
    ensures var s := Started(cfg, ifaces, lo, jitter, start);
            && TableOk(RunAll(s, run).table)
            && RunAll(s, run).search.rreqCount == SinceReset(s, run, 0) <= cfg.rreqRateLimit
            && (NeverStranded(s, run) <==> RunSettles(s, run))
  {
    hide Started, ValidRun, RunAll, SinceReset, TableOk, NoStranded, NeverStranded, RunSettles;
    var s := Started(cfg, ifaces, lo, jitter, start);
    StartedOk(cfg, ifaces, lo, jitter, start);
    RunTableOk(s, run);
    CounterIsOriginations(s, run, start);
    RunExactly(s, run, start);
  }

  lemma StartedTable(cfg: Config, iface: Iface, lo: Device, jitter: Time)
    requires iface.broadcast != LOOPBACK
    ensures Started(cfg, [iface], lo, jitter, 0).table
         == map[LOOPBACK := LocalRoute(LOOPBACK, LoopbackIface(lo), 0),
                iface.broadcast := LocalRoute(iface.broadcast, iface, 0)]
  {
    var bad := cfg.badLinkLifetime;
    var first := LocalRoute(LOOPBACK, LoopbackIface(lo), 0);
    var t := Add(map[], first, 0, bad);
    assert Purge(map[], 0, bad) == map[];
    assert t == map[LOOPBACK := first];
    assert Purge(t, 0, bad) == t;
    assert [iface][1..] == [];
    assert AddBroadcastRoutes(t, [iface], 0, bad)
        == AddBroadcastRoutes(Add(t, LocalRoute(iface.broadcast, iface, 0), 0, bad), [], 0, bad);
  }

  lemma StartedRest(cfg: Config, ifaces: seq<Iface>, lo: Device, jitter: Time, now: Time)
    ensures var s := Started(cfg, ifaces, lo, jitter, now);
            && s.neighbors == [] && s.ids == [] && s.ctr.requestId == 0
            && s.search == Search(map[], multiset{}, 0, now + SECOND, false) && s.queue == []
            && s.cfg == cfg && s.ifaces == ifaces
  {
    hide AddBroadcastRoutes, Add;
  }

  /** The first packet for a destination starts a search. */
  lemma FirstOutput(s: Node, packet: PacketQueue.QueueEntry, now: Time)
    requires s.queue == [] && packet.header.dst !in s.table && !RateLimited(s) && s.cfg.ttlStart < s.cfg.netDiameter
    ensures var s' := DeferredRouteOutput(s, packet, now);
            && s'.queue == [packet.(expire := s.cfg.queueTimeout + now)] && s'.cfg == s.cfg && s'.ifaces == s.ifaces
            && UnderSearch(s'.table, packet.header.dst)
            && s'.search.postponed == s.search.postponed && s'.search.aborted == s.search.aborted
  {
    hide RecordOwn, Requests;
    assert PacketQueue.Purge(s.queue, now) == PacketQueue.Outcome([], []);
  }

  /** The second one is only queued. */
  lemma NextOutput(s: Node, packet: PacketQueue.QueueEntry, now: Time)
    requires |s.queue| == 1 && !PacketQueue.Expired(s.queue[0], now) && s.queue[0].uid != packet.uid
    requires UnderSearch(s.table, packet.header.dst) && s.cfg.maxQueueLen >= 2
    ensures var s' := DeferredRouteOutput(s, packet, now);
            && s'.queue == s.queue + [packet.(expire := s.cfg.queueTimeout + now)]
            && s'.search == s.search && s'.ifaces == s.ifaces
            && UnderSearch(s'.table, packet.header.dst)
  {
    hide SendRequest;
    assert s.queue == [s.queue[0]];
    assert PacketQueue.Purge(s.queue, now) == PacketQueue.Outcome(s.queue, []) by {
      FilterAll(PacketQueue.IsLive(now), s.queue);
      FilterNone(PacketQueue.IsExpired(now), s.queue);
    }
  }

  lemma SearchStays(t: Table, k: Addr, now: Time, bad: Time)
    requires UnderSearch(t, k)
    ensures UnderSearch(Purge(t, now, bad), k)
  {
  }

  /** A started node gets a packet for `d` that is pinned to another interface and
      one that is not, and then the reply: the second packet stays in the queue,
      and neither a timer nor a postponed request will ever take it out. */
  lemma PinnedPacketStrands(f: Iface, lo: Device, jitter: Time, pinned: PacketQueue.QueueEntry,
                            free: PacketQueue.QueueEntry, h: Rrep, ttl: U8, sender: Addr, now: Time)
    requires h.dst !in {LOOPBACK, f.broadcast, sender} && f.broadcast != LOOPBACK && h.dst != h.origin == f.local
    requires pinned.header.dst == free.header.dst == h.dst && pinned.uid != free.uid
    requires pinned.oif != -1 && pinned.oif != f.dev && now >= 0
    ensures var s := Started(DEFAULTS, [f], lo, jitter, 0);
            var run := [(Output(pinned), now), (Output(free), now), (Receipt(Some(RREP(h)), ttl, sender, f), now)];
            && NoStranded(s) && ValidRun(s, run, 0)
            && !RunAll(s, run).search.aborted && !NoStranded(RunAll(s, run))
  {
    hide Started, NoStranded, DeferredRouteOutput, Receive, FlushSettles, UnderSearch, Purge;
    var s := Started(DEFAULTS, [f], lo, jitter, 0);
    StartedOk(DEFAULTS, [f], lo, jitter, 0);
    StartedTable(DEFAULTS, f, lo, jitter);
    StartedRest(DEFAULTS, [f], lo, jitter, 0);
    var reply := Receipt(Some(RREP(h)), ttl, sender, f);
    var s1 := Apply(s, Output(pinned), now);
    var s2 := Apply(s1, Output(free), now);
    var s3 := Apply(s2, reply, now);
    FirstOutput(s, pinned, now);
    OutputKeeps(s, pinned, now);
    NextOutput(s1, free, now);
    OutputKeeps(s1, free, now);
    SearchStays(s2.table, h.dst, now, s2.cfg.badLinkLifetime);
    UnderSearchIs(s2.Purged(now), h.dst);
    OwnAddress(s2, f);
    PinnedPacketStopsFlush(s2, h, ttl, sender, f, now);
    StepExactly(s2, reply, now);
    ReplyNeverAborts(s2, h, ttl, sender, f, now);
    ThreeSteps(s, Output(pinned), Output(free), reply, now);
  }

  lemma UnderSearchIs(t: Table, k: Addr)
    requires UnderSearch(t, k)
    ensures k in t && t[k].info.flag == IN_SEARCH
  {
  }

  lemma OwnAddress(s: Node, f: Iface)
    requires s.ifaces == [f]
    ensures s.IsMyOwnAddress(f.local)
  {
    assert s.ifaces[0].local == f.local;
  }

  /** No reply to an own request aborts the simulation. */
  lemma ReplyNeverAborts(s: Node, h: Rrep, ttl: U8, sender: Addr, rcv: Iface, now: Time)
    requires h.dst != h.origin && s.IsMyOwnAddress(h.origin)
    ensures Receive(s, Some(RREP(h)), ttl, sender, rcv, now).search.aborted == s.search.aborted
  {
    hide Purge, RouteToNeighbor, ForwardRoute, Update, ConnectPrecursors, Matching, Filter, WithoutFirst, ForwardedAll;
  }

  lemma ThreeSteps(s: Node, a: Event, b: Event, c: Event, now: Time)
    requires var s1 := Apply(s, a, now); var s2 := Apply(s1, b, now);
             Enabled(s, a, now) && Enabled(s1, b, now) && Enabled(s2, c, now) && now >= 0
    ensures var run := [(a, now), (b, now), (c, now)];
            ValidRun(s, run, 0) && RunAll(s, run) == Apply(Apply(Apply(s, a, now), b, now), c, now)
  {
    hide Apply, Enabled;
    var run, run1, run2 := [(a, now), (b, now), (c, now)], [(b, now), (c, now)], [(c, now)];
    assert run[1..] == run1 && run1[1..] == run2 && run2[1..] == [];
    var s1 := Apply(s, a, now);
    var s2 := Apply(s1, b, now);
    assert ValidRun(s2, run2, now) && RunAll(s2, run2) == Apply(s2, c, now);
    assert ValidRun(s1, run1, now) && RunAll(s1, run1) == Apply(s2, c, now);
  }
}
