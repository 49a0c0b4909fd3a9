/** No packet waits for an answer that nobody is going to ask for again. */
module NoStrandedPacket {
  import opened Base
  import opened Messages
  import opened RouteTable
  import opened NodeState
  import opened Discovery
  import opened LinkBreak
  import opened Routes
  import opened NodeEvents
  import opened Frames
  import opened NodeFrames
  import opened Flush
  import PacketQueue

  /** Something will act for `d`: its retry timer runs, or a postponed request is due. */
  ghost predicate Awaited(search: Search, d: Addr) {
    (d in search.timers && search.timers[d].Some?) || (exists t :: (d, t) in search.postponed)
  }

  /** Every destination under search, and every one with a queued packet, is awaited. */
  ghost predicate NoStranded(s: Node) {
    && TableOk(s.table)
    && (forall d :: UnderSearch(s.table, d) ==> Awaited(s.search, d))
    && (forall e :: e in s.queue ==> Awaited(s.search, e.header.dst))
  }

  /** The same for all destinations but one, which a handler is dealing with. */
  ghost predicate NoStrandedBut(s: Node, dst: Addr) {
    && TableOk(s.table)
    && (forall d :: d != dst && UnderSearch(s.table, d) ==> Awaited(s.search, d))
    && (forall e :: e in s.queue && e.header.dst != dst ==> Awaited(s.search, e.header.dst))
  }

  lemma QuietKeeps(s: Node, s': Node, about: set<Addr>, now: Time)
    requires NoStranded(s) && Quiet(s, s', about, now)
    ensures NoStranded(s')
  {
  }

  lemma PurgedButKeeps(s: Node, dst: Addr, now: Time)
    requires NoStrandedBut(s, dst)
    ensures NoStrandedBut(s.(table := s.Purged(now)), dst)
  {
    hide Purge;
    PurgeEvolves(s.table, now, s.cfg.badLinkLifetime);
  }

  // ---------------------------------------------------------------------
  // Sending a request

  lemma SearchEntryOk(cfg: Config, p: Table, dst: Addr, now: Time)
    requires TableOk(p)
    ensures EntryOk(dst, SearchEntry(cfg, p, dst, now)) && SearchEntry(cfg, p, dst, now).info.flag == IN_SEARCH
  {
    if dst in p { EntryAt(p, dst); }
  }

  lemma RetryAwaits(search: Search, cfg: Config, dst: Addr, e: Info, now: Time)
    ensures var s' := ScheduleRreqRetry(search, cfg, dst, e, now);
            && (s'.aborted || Awaited(s', dst))
            && (forall d :: d != dst && Awaited(search, d) ==> Awaited(s', d))
  {
    hide RetryDelay;
  }

  /** After SendRequest the destination is awaited, whether it was sent or postponed. */
  lemma SendRequestAwaits(s: Node, dst: Addr, now: Time)
    requires NoStrandedBut(s, dst)
    ensures var s' := SendRequest(s, dst, now); s'.search.aborted || NoStranded(s')
  {
    if RateLimited(s) {
      PostponeAwaits(s, dst);
    } else {
      OriginateAwaits(s, dst, now);
    }
  }

  lemma PostponeAwaits(s: Node, dst: Addr)
    requires NoStrandedBut(s, dst)
    ensures NoStranded(Postpone(s, dst))
  {
    var at := s.search.rateReset + 100 * MICROSECOND;
    var s' := Postpone(s, dst);
    assert (dst, at) in s'.search.postponed;
    assert forall x :: x in s.search.postponed ==> x in s'.search.postponed;
  }

  lemma OriginateAwaits(s: Node, dst: Addr, now: Time)
    requires NoStrandedBut(s, dst)
    ensures var s' := Originate(s, dst, now); s'.search.aborted || NoStranded(s')
  {
    hide Purge, SearchEntry, ScheduleRreqRetry, Requests, RecordOwn, Awaited;
    var p := s.Purged(now);
    PurgedButKeeps(s, dst, now);
    SearchEntryOk(s.cfg, p, dst, now);
    var e := SearchEntry(s.cfg, p, dst, now);
    var counted := s.search.(rreqCount := Wrap16(s.search.rreqCount + 1));
    forall d ensures Awaited(s.search, d) <==> Awaited(counted, d) {
      AwaitedSame(s.search, counted, d);
    }
    RetryAwaits(counted, s.cfg, dst, e.info, now);
  }

  lemma AwaitedSame(a: Search, b: Search, d: Addr)
    requires a.timers == b.timers && a.postponed == b.postponed
    ensures Awaited(a, d) <==> Awaited(b, d)
  {
  }

  // ---------------------------------------------------------------------
  // Flushing and giving up

  /** The flush finishes, or something will still act for the packets it leaves. */
  ghost predicate Settles(search: Search, q: seq<PacketQueue.QueueEntry>, dst: Addr, dev: Device, now: Time) {
    Finishes(q, dst, dev, now) || Awaited(search, dst)
  }

  /** After a flush the packets of its destination are awaited exactly when the
      flush has finished or something is still going to act for them. */
  lemma FlushExactly(s: Node, dst: Addr, route: Route, now: Time)
    requires NoStrandedBut(s, dst) && !UnderSearch(s.table, dst)
    ensures NoStranded(SendPacketFromQueue(s, dst, route, now)) <==> Settles(s.search, s.queue, dst, route.dev, now)
  {
    hide Filter, WithoutFirst, ForwardedAll, Finishes, Awaited;
    var s' := SendPacketFromQueue(s, dst, route, now);
    FlushClearsExactly(s, dst, route, now);
    ForMembers(s'.queue, dst);
    if !Finishes(s.queue, dst, route.dev, now) {
      assert For(s'.queue, dst)[0] in For(s'.queue, dst);
    }
  }

  lemma ForMembers(q: seq<PacketQueue.QueueEntry>, dst: Addr)
    ensures forall e :: e in For(q, dst) <==> e in q && e.header.dst == dst
  {
    hide Filter;
    FilterMembers(PacketQueue.IsFor(dst), q);
  }

  lemma GiveUpKeeps(s: Node, dst: Addr, now: Time)
    requires NoStrandedBut(s, dst)
    ensures NoStranded(GiveUp(s, dst, now))
  {
    hide Purge, Filter;
    var s' := GiveUp(s, dst, now);
    PurgedButKeeps(s, dst, now);
    var live := PacketQueue.Purge(s.queue, now).queue;
    FilterMembers(PacketQueue.IsLive(now), s.queue);
    FilterMembers(PacketQueue.IsNotFor(dst), live);
    assert forall e :: e in s'.queue ==> e in s.queue && e.header.dst != dst;
    assert forall d :: d != dst && Awaited(s.search, d) ==> Awaited(s'.search, d);
  }

  /** When the retry timer finds a route, the packets of its destination end up
      awaited exactly when the flush settles. */
  lemma RetryFlushExactly(s: Node, dst: Addr, now: Time)
    requires NoStrandedBut(s, dst) && IsValid(s.Purged(now), dst)
    ensures NoStranded(RouteRequestTimerExpire(s, dst, now)) <==>
            Settles(s.search, s.queue, dst, s.Purged(now)[dst].route.dev, now)
  {
    hide Purge, NoStranded, NoStrandedBut, SendPacketFromQueue, Settles;
    var p := s.Purged(now);
    PurgedButKeeps(s, dst, now);
    FlushExactly(s.(table := p), dst, p[dst].route, now);
  }

  lemma RetryTimerKeeps(s: Node, dst: Addr, now: Time)
    requires NoStrandedBut(s, dst) && !IsValid(s.Purged(now), dst)
    ensures var s' := RouteRequestTimerExpire(s, dst, now); s'.search.aborted || NoStranded(s')
  {
    hide Purge, NoStranded, NoStrandedBut, GiveUp, SendRequest;
    PurgedButKeeps(s, dst, now);
    GiveUpKeeps(s, dst, now);
    SendRequestAwaits(s.(table := s.Purged(now)), dst, now);
  }

  lemma OutputKeeps(s: Node, packet: PacketQueue.QueueEntry, now: Time)
    requires NoStranded(s)
    ensures var s' := DeferredRouteOutput(s, packet, now); s'.search.aborted || NoStranded(s')
  {
    hide Purge, PacketQueue.Enqueue, PacketQueue.Accepts, SendRequest, Awaited, TableOk;
    var q := PacketQueue.Enqueue(s.queue, packet, s.cfg.maxQueueLen, s.cfg.queueTimeout, now).queue;
    EnqueueMembers(s.queue, packet, s.cfg.maxQueueLen, s.cfg.queueTimeout, now);
    var dst := packet.header.dst;
    PurgeEvolves(s.table, now, s.cfg.badLinkLifetime);
    EvolvesOk(s.table, s.Purged(now), {});
    if PacketQueue.Accepts(s.queue, packet, now) {
      var s1 := s.WithQueue(PacketQueue.Enqueue(s.queue, packet, s.cfg.maxQueueLen, s.cfg.queueTimeout, now))
                 .(table := s.Purged(now));
      SendRequestAwaits(s1, dst, now);
    }
  }

  lemma EnqueueMembers(q: seq<PacketQueue.QueueEntry>, e: PacketQueue.QueueEntry, maxLen: nat, timeout: Time, now: Time)
    ensures var r := PacketQueue.Enqueue(q, e, maxLen, timeout, now).queue;
            forall x :: x in r ==> x in q || (PacketQueue.Accepts(q, e, now) && x.header.dst == e.header.dst)
  {
    hide Filter;
    FilterMembers(PacketQueue.IsLive(now), q);
  }

  lemma PostponedKeeps(s: Node, dst: Addr, at: Time, now: Time)
    requires NoStranded(s)
    ensures var s' := PostponedRequest(s, dst, at, now); s'.search.aborted || NoStranded(s')
  {
    hide SendRequest, TableOk;
    var s1 := s.(search := s.search.(postponed := s.search.postponed - multiset{(dst, at)}));
    forall d | d != dst && Awaited(s.search, d) ensures Awaited(s1.search, d) {
      if t :| (d, t) in s.search.postponed {
        assert (d, t) in s1.search.postponed;
      }
    }
    SendRequestAwaits(s1, dst, now);
  }

  // ---------------------------------------------------------------------
  // Replies

  /** After the reply that ends a search at its originator, the packets of its
      destination end up awaited exactly when the flush settles. */
  lemma ReplyFlushExactly(s: Node, h: Rrep, hop: U8, sender: Addr, rcv: Iface, before: Entry, now: Time)
    requires NoStranded(s)
    requires before.info.flag != IN_SEARCH ==> !UnderSearch(s.table, h.dst)
    ensures var s1 := EndSearch(s, h, hop, sender, rcv, before.info.flag == IN_SEARCH, now);
            NoStranded(AcceptReply(s, h, hop, sender, rcv, before, now)) <==>
            Settles(s1.search, s.queue, h.dst, GetOr(s1.table, h.dst, before).route.dev, now)
  {
    hide Settles, NoStranded, NoStrandedBut, SendPacketFromQueue, EndSearch;
    EndSearchKeeps(s, h, hop, sender, rcv, before.info.flag == IN_SEARCH, now);
    var s1 := EndSearch(s, h, hop, sender, rcv, before.info.flag == IN_SEARCH, now);
    FlushExactly(s1, h.dst, GetOr(s1.table, h.dst, before).route, now);
  }

  lemma EndSearchKeeps(s: Node, h: Rrep, hop: U8, sender: Addr, rcv: Iface, searching: bool, now: Time)
    requires NoStranded(s)
    requires !searching ==> !UnderSearch(s.table, h.dst)
    ensures var s1 := EndSearch(s, h, hop, sender, rcv, searching, now);
            NoStrandedBut(s1, h.dst) && !UnderSearch(s1.table, h.dst) && s1.queue == s.queue
  {
    hide Purge, TableOk;
    var e := ForwardEntry(h, hop, sender, rcv, now);
    UpdateEvolves(s.table, e);
    var u := if searching then Update(s.table, e) else s.table;
    assert !UnderSearch(u, h.dst);
    EvolvesSame(s.table);
    PurgeEvolves(u, now, s.cfg.badLinkLifetime);
    EvolvesOk(s.table, u, {h.dst});
    EvolvesOk(u, Purge(u, now, s.cfg.badLinkLifetime), {});
    var s1 := EndSearch(s, h, hop, sender, rcv, searching, now);
    forall d | d != h.dst && Awaited(s.search, d) ensures Awaited(s1.search, d) {
    }
  }

  /** The flush that this reply sets off, if any, settles. */
  ghost predicate ReplySettles(s: Node, h: Rrep, sender: Addr, rcv: Iface, now: Time) {
    h.dst != h.origin && s.IsMyOwnAddress(h.origin) ==>
      var hop := Wrap8(h.hopCount + 1);
      var before := GetOr(s.Purged(now), h.dst, DefaultEntry(now));
      var s1 := EndSearch(LearnFromReply(s, h, hop, sender, rcv, now), h, hop, sender, rcv,
                          before.info.flag == IN_SEARCH, now);
      Settles(s1.search, s.queue, h.dst, GetOr(s1.table, h.dst, before).route.dev, now)
  }

  /** Any reply keeps every packet awaited exactly when its flush settles. */
  lemma RecvReplyExactly(s: Node, h: Rrep, ttl: U8, sender: Addr, rcv: Iface, now: Time)
    requires NoStranded(s)
    ensures NoStranded(RecvReply(s, h, ttl, sender, rcv, now)) <==> ReplySettles(s, h, sender, rcv, now)
  {
    if h.dst == h.origin {
      hide ProcessHello, NoStranded;
      assert TableOk(s.table) by { NoStrandedOk(s); }
      ProcessHelloQuiet(s, h, rcv, now);
      QuietKeeps(s, ProcessHello(s, h, rcv, now), {}, now);
    } else if !s.IsMyOwnAddress(h.origin) {
      PassedReplyQuiet(s, h, ttl, sender, rcv, now);
      QuietKeeps(s, RecvReply(s, h, ttl, sender, rcv, now), {h.dst, NO_ADDR}, now);
    } else {
      OwnReplyExactly(s, h, ttl, sender, rcv, now);
    }
  }

  lemma NoStrandedOk(s: Node)
    requires NoStranded(s)
    ensures TableOk(s.table)
  {
  }

  lemma OwnReplyExactly(s: Node, h: Rrep, ttl: U8, sender: Addr, rcv: Iface, now: Time)
    requires NoStranded(s) && h.dst != h.origin && s.IsMyOwnAddress(h.origin)
    ensures NoStranded(RecvReply(s, h, ttl, sender, rcv, now)) <==> ReplySettles(s, h, sender, rcv, now)
  {
    hide LearnFromReply, AcceptReply, EndSearch, Settles, Purge, NoStranded;
    NoStrandedOk(s);
    var hop := Wrap8(h.hopCount + 1);
    var before := GetOr(s.Purged(now), h.dst, DefaultEntry(now));
    var s2 := LearnFromReply(s, h, hop, sender, rcv, now);
    LearnFromReplyQuiet(s, h, hop, sender, rcv, now);
    QuietKeeps(s, s2, {h.dst}, now);
    LearnSearching(s, h, hop, sender, rcv, now);
    ReplyFlushExactly(s2, h, hop, sender, rcv, before, now);
  }

  lemma LearnSearching(s: Node, h: Rrep, hop: U8, sender: Addr, rcv: Iface, now: Time)
    requires TableOk(s.table)
    ensures UnderSearch(LearnFromReply(s, h, hop, sender, rcv, now).table, h.dst)
            ==> GetOr(s.Purged(now), h.dst, DefaultEntry(now)).info.flag == IN_SEARCH
  {
    hide Purge;
    var p := s.Purged(now);
    var f := ForwardRoute(p, h, hop, sender, rcv, now);
    PurgeEvolves(f, now, s.cfg.badLinkLifetime);
    assert UnderSearch(f, h.dst) ==> UnderSearch(p, h.dst);
  }

  // ---------------------------------------------------------------------
  // Every event, every run

  /** A flush that this event sets off finishes, or its destination is still awaited. */
  ghost predicate FlushSettles(s: Node, e: Event, now: Time) {
    match e
    case RetryTimer(dst) =>
      IsValid(s.Purged(now), dst) ==>
        Settles(s.search.(timers := s.search.timers[dst := None]), s.queue, dst, s.Purged(now)[dst].route.dev, now)
    case Receipt(Some(RREP(h)), _, sender, rcv) =>
      ReplySettles(s.(table := RouteToNeighbor(s.cfg, s.table, sender, rcv, now)), h, sender, rcv, now)
    case _ => true
  }

  lemma ReceiptExactly(s: Node, msg: Option<Message>, ttl: U8, sender: Addr, rcv: Iface, now: Time)
    requires NoStranded(s)
    ensures NoStranded(Receive(s, msg, ttl, sender, rcv, now)) <==>
            FlushSettles(s, Receipt(msg, ttl, sender, rcv), now)
  {
    hide NoStranded, Evolves, RouteToNeighbor, RecvRequest, RecvReply, RecvError, RecvReplyAck, ReplySettles;
    var s1 := s.(table := RouteToNeighbor(s.cfg, s.table, sender, rcv, now));
    NoStrandedOk(s);
    NeighborEvolves(s.cfg, s.table, sender, rcv, now);
    QuietKeeps(s, s1, {}, now);
    NoStrandedOk(s1);
    match msg
    case None =>
    case Some(RREQ(h)) =>
      RecvRequestQuiet(s1, h, ttl, sender, rcv, now);
      QuietKeeps(s1, RecvRequest(s1, h, ttl, sender, rcv, now), {h.origin, NO_ADDR}, now);
    case Some(RREP(h)) => RecvReplyExactly(s1, h, ttl, sender, rcv, now);
    case Some(RERR(h)) =>
      RecvErrorQuiet(s1, h, sender, now);
      QuietKeeps(s1, RecvError(s1, h, sender, now), {}, now);
    case Some(RREP_ACK) =>
      RecvReplyAckQuiet(s1, sender, now);
      QuietKeeps(s1, RecvReplyAck(s1, sender, now), {}, now);
  }

  lemma TimerButKeeps(s: Node, dst: Addr)
    requires NoStranded(s)
    ensures NoStrandedBut(s.(search := s.search.(timers := s.search.timers[dst := None])), dst)
  {
    hide TableOk;
    var s1 := s.(search := s.search.(timers := s.search.timers[dst := None]));
    assert forall d :: d != dst && Awaited(s.search, d) ==> Awaited(s1.search, d);
  }

  lemma TimerExactly(s: Node, dst: Addr, now: Time)
    requires NoStrandedBut(s, dst)
    ensures var s' := RouteRequestTimerExpire(s, dst, now);
            !s'.search.aborted ==>
              (NoStranded(s') <==> (IsValid(s.Purged(now), dst) ==>
                                      Settles(s.search, s.queue, dst, s.Purged(now)[dst].route.dev, now)))
  {
    hide NoStranded, NoStrandedBut, RouteRequestTimerExpire, Settles, Purge;
    if IsValid(s.Purged(now), dst) {
      RetryFlushExactly(s, dst, now);
    } else {
      RetryTimerKeeps(s, dst, now);
    }
  }

  lemma SameKeeps(s: Node, s': Node)
    requires NoStranded(s) && s'.table == s.table && s'.search == s.search && s'.queue == s.queue
    ensures NoStranded(s')
  {
  }

  lemma ResetKeeps(s: Node, search: Search)
    requires NoStranded(s) && search.timers == s.search.timers && search.postponed == s.search.postponed
    ensures NoStranded(s.(search := search))
  {
    assert forall d :: Awaited(s.search, d) ==> Awaited(search, d);
  }

  /** Unless it aborts the simulation, an event keeps every packet awaited exactly
      when the flush it sets off, if any, settles. */
  lemma StepExactly(s: Node, e: Event, now: Time)
    requires NoStranded(s) && Enabled(s, e, now)
    ensures !Apply(s, e, now).search.aborted ==> (NoStranded(Apply(s, e, now)) <==> FlushSettles(s, e, now))
  {
    hide NoStranded, NoStrandedBut, Evolves, Receive, RouteRequestTimerExpire, PurgeNeighbors, RouteOutput, Settles,
         Forwarding, DeliverLocally, DeferredRouteOutput, PostponedRequest, Hellos, CloseNeighbors, ReplySettles;
    NoStrandedOk(s);
    EvolvesSame(s.table);
    match e
    case Receipt(msg, ttl, sender, rcv) => ReceiptExactly(s, msg, ttl, sender, rcv, now);
    case Output(packet) => OutputKeeps(s, packet, now);
    case RetryTimer(dst) =>
      TimerButKeeps(s, dst);
      TimerExactly(s.(search := s.search.(timers := s.search.timers[dst := None])), dst, now);
    case Postponed(dst, at) => PostponedKeeps(s, dst, at, now);
    case RreqReset => ResetKeeps(s, s.search.(rreqCount := 0, rateReset := now + SECOND));
    case RerrReset => QuietKeeps(s, Apply(s, e, now), {}, now);
    case HelloTimer => SameKeeps(s, Apply(s, e, now));
    case NeighborTimer =>
      var s1 := s.(neighborTimer := None);
      QuietKeeps(s, s1, {}, now);
      PurgeNeighborsQuiet(s1, now);
      QuietKeeps(s1, Apply(s, e, now), {}, now);
    case TxError(hit) =>
      var s1 := s.(neighbors := CloseNeighbors(s.neighbors, hit));
      QuietKeeps(s, s1, {}, now);
      PurgeNeighborsQuiet(s1, now);
      QuietKeeps(s1, Apply(s, e, now), {}, now);
    case RouteRequest(dst, oif) =>
      RouteOutputQuiet(s, dst, oif, now);
      QuietKeeps(s, Apply(s, e, now), {}, now);
    case Forward(uid, header) =>
      ForwardingQuiet(s, uid, header, now);
      QuietKeeps(s, Apply(s, e, now), {}, now);
    case Delivered(origin) =>
      DeliverLocallyQuiet(s, origin, now);
      QuietKeeps(s, Apply(s, e, now), {}, now);
  }

  ghost predicate RunSettles(s: Node, run: seq<(Event, Time)>)
    decreases |run|
  {
    run != [] ==>
      && (Apply(s, run[0].0, run[0].1).search.aborted || FlushSettles(s, run[0].0, run[0].1))
      && RunSettles(Apply(s, run[0].0, run[0].1), run[1..])
  }

  /** After every event of the run, unless it aborted the simulation. */
  ghost predicate NeverStranded(s: Node, run: seq<(Event, Time)>)
    decreases |run|
  {
    run != [] ==>
      && (Apply(s, run[0].0, run[0].1).search.aborted || NoStranded(Apply(s, run[0].0, run[0].1)))
      && NeverStranded(Apply(s, run[0].0, run[0].1), run[1..])
  }

  /** A whole run leaves no packet unattended at any of its instants exactly when
      every flush in it settles. */
  lemma {:induction false} RunExactly(s: Node, run: seq<(Event, Time)>, start: Time)
    requires NoStranded(s) && ValidRun(s, run, start)
    ensures NeverStranded(s, run) <==> RunSettles(s, run)
    decreases |run|
  {
    hide NoStranded, Apply, Enabled, FlushSettles;
    if run != [] {
      var s1 := Apply(s, run[0].0, run[0].1);
      StepExactly(s, run[0].0, run[0].1);
      if s1.search.aborted {
        AbortedRunEnds(s1, run[1..], run[0].1);
      } else if NoStranded(s1) {
        RunExactly(s1, run[1..], run[0].1);
      }
    }
  }

  lemma AbortedRunEnds(s: Node, run: seq<(Event, Time)>, start: Time)
    requires s.search.aborted && ValidRun(s, run, start)
    ensures run == []
  {
    hide Apply;
  }

  // ---------------------------------------------------------------------
  // A flush that is cut short

  /** With a packet pinned to another interface in front of another one, the
      reply that ends the search does not settle when no postponed request is pending. */
  lemma PinnedPacketStopsFlush(s: Node, h: Rrep, ttl: U8, sender: Addr, rcv: Iface, now: Time)
    requires h.dst in s.Purged(now) && s.Purged(now)[h.dst].info.flag == IN_SEARCH
    requires h.dst != h.origin && s.IsMyOwnAddress(h.origin) && sender != h.dst && s.search.postponed == multiset{}
    requires |s.queue| == 2 && Mismatch(s.queue[0], rcv.dev)
    requires forall e :: e in s.queue ==> e.header.dst == h.dst && !PacketQueue.Expired(e, now)
    ensures !FlushSettles(s, Receipt(Some(RREP(h)), ttl, sender, rcv), now)
  {
    hide Purge, RouteToNeighbor, LearnFromReply, EndSearch, Filter, Awaited;
    var s1 := s.(table := RouteToNeighbor(s.cfg, s.table, sender, rcv, now));
    var hop := Wrap8(h.hopCount + 1);
    var before := GetOr(s1.Purged(now), h.dst, DefaultEntry(now));
    NeighborElsewhere(s, sender, rcv, h.dst, now);
    var s2 := EndSearch(LearnFromReply(s1, h, hop, sender, rcv, now), h, hop, sender, rcv, true, now);
    EndsUnawaited(s1, h, hop, sender, rcv, now);
    BothStay(s.queue, h.dst, now);
    assert !Finishes(s.queue, h.dst, rcv.dev, now);
    assert !Settles(s2.search, s1.queue, h.dst, GetOr(s2.table, h.dst, before).route.dev, now);
  }

  lemma EndsUnawaited(s: Node, h: Rrep, hop: U8, sender: Addr, rcv: Iface, now: Time)
    requires s.search.postponed == multiset{}
    requires h.dst in s.Purged(now) && s.Purged(now)[h.dst].info.flag == IN_SEARCH
    ensures var s1 := EndSearch(LearnFromReply(s, h, hop, sender, rcv, now), h, hop, sender, rcv, true, now);
            && !Awaited(s1.search, h.dst)
            && h.dst in s1.table && s1.table[h.dst].route.dev == rcv.dev
  {
    hide Purge;
    var e := ForwardEntry(h, hop, sender, rcv, now);
    LearnedStays(s, h, hop, sender, rcv, now);
    var u := Update(LearnFromReply(s, h, hop, sender, rcv, now).table, e);
    assert h.dst in u && u[h.dst] == e.(info := e.info.Settle());
    LiveStays(u, h.dst, now, s.cfg.badLinkLifetime);
  }

  lemma LearnedStays(s: Node, h: Rrep, hop: U8, sender: Addr, rcv: Iface, now: Time)
    requires h.dst in s.Purged(now) && s.Purged(now)[h.dst].info.flag == IN_SEARCH
    ensures h.dst in LearnFromReply(s, h, hop, sender, rcv, now).table
  {
  }

  lemma LiveStays(t: Table, k: Addr, now: Time, bad: Time)
    requires k in t && t[k].info.lifeTime >= now
    ensures var p := Purge(t, now, bad); k in p && p[k] == t[k]
  {
  }

  lemma NeighborElsewhere(s: Node, sender: Addr, rcv: Iface, k: Addr, now: Time)
    requires k != sender && k in s.Purged(now) && s.Purged(now)[k].info.flag == IN_SEARCH
    ensures var p := Purge(RouteToNeighbor(s.cfg, s.table, sender, rcv, now), now, s.cfg.badLinkLifetime);
            k in p && p[k].info.flag == IN_SEARCH
  {
  }

  lemma BothStay(q: seq<PacketQueue.QueueEntry>, dst: Addr, now: Time)
    requires forall e :: e in q ==> e.header.dst == dst && !PacketQueue.Expired(e, now)
    ensures For(PacketQueue.Purge(q, now).queue, dst) == q
  {
    hide Filter;
    FilterAll(PacketQueue.IsLive(now), q);
    FilterAll(PacketQueue.IsFor(dst), q);
  }
}
