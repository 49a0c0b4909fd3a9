/** The one event that takes a search past its retry limit: a postponed call
    that comes due during the last wait. */
module RetryBound {
  import opened Base
  import opened Messages
  import opened RouteTable
  import opened NodeState
  import opened Discovery
  import opened LinkBreak
  import opened Routes
  import opened NodeEvents
  import opened Frames
  import opened NodeFrames
  import opened NodeRuns
  import PacketQueue
  import InOrder

  /** No search has counted more requests than the limit. */
  ghost predicate Within(t: Table, limit: int) {
    forall k :: UnderSearch(t, k) ==> t[k].info.reqCnt <= limit
  }

  lemma EvolvesWithin(t: Table, t': Table, about: set<Addr>, limit: int)
    requires Evolves(t, t', about) && Within(t, limit)
    ensures Within(t', limit)
  {
  }

  lemma PurgeWithin(t: Table, now: Time, bad: Time, limit: int)
    ensures Within(Purge(t, now, bad), limit) <==> Within(t, limit)
  {
    assert forall k :: UnderSearch(t, k) <==> UnderSearch(Purge(t, now, bad), k);
    assert forall k :: UnderSearch(t, k) ==> k in t && k in Purge(t, now, bad) && Purge(t, now, bad)[k] == t[k];
  }

  /** One more request for `d` would be one at the diameter over the limit. */
  ghost predicate AtLimit(s: Node, d: Addr) {
    && UnderSearch(s.table, d) && s.table[d].info.reqCnt == s.cfg.rreqRetries < 255
    && NextTtl(s.cfg, s.table[d].info) == s.cfg.netDiameter
  }

  lemma SearchEntryWithin(cfg: Config, p: Table, dst: Addr, now: Time)
    requires Within(p, cfg.rreqRetries) && TableOk(p) && cfg.rreqRetries >= 1
    ensures SearchEntry(cfg, p, dst, now).info.reqCnt > cfg.rreqRetries <==>
      && UnderSearch(p, dst) && p[dst].info.reqCnt == cfg.rreqRetries < 255
      && NextTtl(cfg, p[dst].info) == cfg.netDiameter
  {
    hide NextTtl;
    if dst in p { EntryAt(p, dst); }
  }

  lemma OriginateWithin(s: Node, dst: Addr, now: Time)
    requires Within(s.table, s.cfg.rreqRetries) && TableOk(s.table) && s.cfg.rreqRetries >= 1
    ensures Within(Originate(s, dst, now).table, s.cfg.rreqRetries) <==> !AtLimit(s, dst)
  {
    hide SearchEntry, Requests, RecordOwn, ScheduleRreqRetry, NextTtl, TableOk, Purge, Evolves;
    var p := s.Purged(now);
    PurgeEvolves(s.table, now, s.cfg.badLinkLifetime);
    EvolvesOk(s.table, p, {});
    PurgeWithin(s.table, now, s.cfg.badLinkLifetime, s.cfg.rreqRetries);
    SearchKept(s, dst, now);
    SearchEntryWithin(s.cfg, p, dst, now);
    SearchEntryFlag(s.cfg, p, dst, now);
    assert forall k :: UnderSearch(Originate(s, dst, now).table, k) <==> k == dst || UnderSearch(p, k);
  }

  lemma SearchEntryFlag(cfg: Config, p: Table, dst: Addr, now: Time)
    ensures SearchEntry(cfg, p, dst, now).info.flag == IN_SEARCH
  {
    hide NextTtl;
  }

  lemma SearchKept(s: Node, dst: Addr, now: Time)
    ensures UnderSearch(s.Purged(now), dst) <==> UnderSearch(s.table, dst)
    ensures UnderSearch(s.table, dst) ==> dst in s.Purged(now) && s.Purged(now)[dst] == s.table[dst]
  {
  }

  lemma SendRequestWithin(s: Node, dst: Addr, now: Time)
    requires Within(s.table, s.cfg.rreqRetries) && TableOk(s.table) && s.cfg.rreqRetries >= 1
    ensures Within(SendRequest(s, dst, now).table, s.cfg.rreqRetries) <==> RateLimited(s) || !AtLimit(s, dst)
  {
    hide Originate, AtLimit, Within, TableOk;
    OriginateWithin(s, dst, now);
  }

  lemma PurgedNode(s: Node, now: Time)
    requires Within(s.table, s.cfg.rreqRetries) && TableOk(s.table)
    ensures Within(s.Purged(now), s.cfg.rreqRetries) && TableOk(s.Purged(now))
  {
    hide Within, Purge, TableOk, Evolves;
    PurgeEvolves(s.table, now, s.cfg.badLinkLifetime);
    EvolvesOk(s.table, s.Purged(now), {});
    PurgeWithin(s.table, now, s.cfg.badLinkLifetime, s.cfg.rreqRetries);
  }

  /** The retry timer gives up at the limit. */
  lemma RetryWithin(s: Node, dst: Addr, now: Time)
    requires Within(s.table, s.cfg.rreqRetries) && TableOk(s.table) && s.cfg.rreqRetries >= 1
    ensures Within(RouteRequestTimerExpire(s, dst, now).table, s.cfg.rreqRetries)
  {
    hide SendRequest, Purge, WithoutFirst, Filter, Matching, ForwardedAll, TableOk, NextTtl;
    PurgedNode(s, now);
    SendRequestWithin(s.(table := s.Purged(now)), dst, now);
  }

  lemma OutputWithin(s: Node, packet: PacketQueue.QueueEntry, now: Time)
    requires Within(s.table, s.cfg.rreqRetries) && TableOk(s.table) && s.cfg.rreqRetries >= 1
    ensures Within(DeferredRouteOutput(s, packet, now).table, s.cfg.rreqRetries)
  {
    hide SendRequest, Purge, PacketQueue.Enqueue, PacketQueue.Accepts, TableOk, NextTtl;
    PurgedNode(s, now);
    var queued := s.WithQueue(PacketQueue.Enqueue(s.queue, packet, s.cfg.maxQueueLen, s.cfg.queueTimeout, now));
    SendRequestWithin(queued.(table := s.Purged(now)), packet.header.dst, now);
  }

  lemma AcceptWithin(s: Node, h: Rrep, hop: U8, sender: Addr, rcv: Iface, before: Entry, now: Time, limit: int)
    requires Within(s.table, limit)
    ensures Within(AcceptReply(s, h, hop, sender, rcv, before, now).table, limit)
  {
    hide Purge, WithoutFirst, Filter, Matching, ForwardedAll, Evolves;
    var e := ForwardEntry(h, hop, sender, rcv, now);
    var u := if before.info.flag == IN_SEARCH then Update(s.table, e) else s.table;
    UpdateEvolves(s.table, e);
    if before.info.flag == IN_SEARCH {
      EvolvesWithin(s.table, u, {h.dst}, limit);
    }
    PurgeWithin(u, now, s.cfg.badLinkLifetime, limit);
  }

  lemma ReplyWithin(s: Node, h: Rrep, ttl: U8, sender: Addr, rcv: Iface, now: Time, limit: int)
    requires Within(s.table, limit) && TableOk(s.table)
    ensures Within(RecvReply(s, h, ttl, sender, rcv, now).table, limit)
  {
    hide Evolves, LearnFromReply, AcceptReply, ForwardReply, ProcessHello, TableOk, Within;
    if h.dst == h.origin {
      ProcessHelloQuiet(s, h, rcv, now);
      EvolvesWithin(s.table, ProcessHello(s, h, rcv, now).table, {}, limit);
    } else if !s.IsMyOwnAddress(h.origin) {
      PassedReplyQuiet(s, h, ttl, sender, rcv, now);
      EvolvesWithin(s.table, RecvReply(s, h, ttl, sender, rcv, now).table, {h.dst, NO_ADDR}, limit);
    } else {
      var hop := Wrap8(h.hopCount + 1);
      var before := GetOr(s.Purged(now), h.dst, DefaultEntry(now));
      var s2 := LearnFromReply(s, h, hop, sender, rcv, now);
      LearnFromReplyQuiet(s, h, hop, sender, rcv, now);
      EvolvesWithin(s.table, s2.table, {h.dst}, limit);
      AcceptWithin(s2, h, hop, sender, rcv, before, now, limit);
    }
  }

  lemma ReceiveWithin(s: Node, msg: Option<Message>, ttl: U8, sender: Addr, rcv: Iface, now: Time, limit: int)
    requires Within(s.table, limit) && TableOk(s.table)
    ensures Within(Receive(s, msg, ttl, sender, rcv, now).table, limit)
  {
    hide Evolves, RouteToNeighbor, RecvRequest, RecvReply, RecvError, RecvReplyAck, TableOk, Within;
    var s1 := s.(table := RouteToNeighbor(s.cfg, s.table, sender, rcv, now));
    NeighborEvolves(s.cfg, s.table, sender, rcv, now);
    EvolvesWithin(s.table, s1.table, {}, limit);
    EvolvesOk(s.table, s1.table, {});
    match msg
    case None =>
    case Some(RREQ(h)) =>
      RecvRequestQuiet(s1, h, ttl, sender, rcv, now);
      EvolvesWithin(s1.table, RecvRequest(s1, h, ttl, sender, rcv, now).table, {h.origin, NO_ADDR}, limit);
    case Some(RREP(h)) => ReplyWithin(s1, h, ttl, sender, rcv, now, limit);
    case Some(RERR(h)) =>
      RecvErrorQuiet(s1, h, sender, now);
      EvolvesWithin(s1.table, RecvError(s1, h, sender, now).table, {}, limit);
    case Some(RREP_ACK) =>
      RecvReplyAckQuiet(s1, sender, now);
      EvolvesWithin(s1.table, RecvReplyAck(s1, sender, now).table, {}, limit);
  }

  /** A postponed call that goes out now and finds its search at the limit. */
  ghost predicate PassesLimit(s: Node, e: Event) {
    e.Postponed? && !RateLimited(s) && AtLimit(s, e.dst)
  }

  /** When no search is past the limit, the same holds after any event exactly
      when the event is not a postponed call that goes out at the limit. */
  lemma StepExactly(s: Node, e: Event, now: Time)
    requires TableOk(s.table) && Within(s.table, s.cfg.rreqRetries) && s.cfg.rreqRetries >= 1
    ensures Within(Apply(s, e, now).table, s.cfg.rreqRetries) <==> !PassesLimit(s, e)
  {
    hide Evolves, Within, TableOk, Receive, RouteRequestTimerExpire, PurgeNeighbors, RouteOutput, Forwarding,
         DeliverLocally, DeferredRouteOutput, SendRequest, CloseNeighbors, Hellos, NextTtl;
    var t', limit := Apply(s, e, now).table, s.cfg.rreqRetries;
    match e
    case Receipt(msg, ttl, sender, rcv) => ReceiveWithin(s, msg, ttl, sender, rcv, now, limit);
    case Output(packet) => OutputWithin(s, packet, now);
    case RetryTimer(dst) => RetryWithin(s.(search := s.search.(timers := s.search.timers[dst := None])), dst, now);
    case Postponed(dst, at) =>
      SendRequestWithin(s.(search := s.search.(postponed := s.search.postponed - multiset{(dst, at)})), dst, now);
    case RreqReset =>
    case RerrReset =>
    case HelloTimer =>
    case NeighborTimer =>
      PurgeNeighborsQuiet(s.(neighborTimer := None), now);
      EvolvesWithin(s.table, t', {}, limit);
    case TxError(hit) =>
      PurgeNeighborsQuiet(s.(neighbors := CloseNeighbors(s.neighbors, hit)), now);
      EvolvesWithin(s.table, t', {}, limit);
    case RouteRequest(dst, oif) =>
      RouteOutputQuiet(s, dst, oif, now);
      EvolvesWithin(s.table, t', {}, limit);
    case Forward(uid, header) =>
      ForwardingQuiet(s, uid, header, now);
      EvolvesWithin(s.table, t', {}, limit);
    case Delivered(origin) =>
      DeliverLocallyQuiet(s, origin, now);
      EvolvesWithin(s.table, t', {}, limit);
  }

  // ---------------------------------------------------------------------
  // Whole runs

  ghost predicate StaysWithin(s: Node, run: seq<(Event, Time)>)
    decreases |run|
  {
    Within(s.table, s.cfg.rreqRetries) && (run != [] ==> StaysWithin(Apply(s, run[0].0, run[0].1), run[1..]))
  }

  ghost predicate NeverPasses(s: Node, run: seq<(Event, Time)>)
    decreases |run|
  {
    run != [] ==> !PassesLimit(s, run[0].0) && NeverPasses(Apply(s, run[0].0, run[0].1), run[1..])
  }

  /** Over every run no search ever passes the retry limit exactly when no
      postponed call goes out at the limit. */
  lemma {:induction false} RunExactly(s: Node, run: seq<(Event, Time)>)
    requires TableOk(s.table) && Within(s.table, s.cfg.rreqRetries) && s.cfg.rreqRetries >= 1
    ensures StaysWithin(s, run) <==> NeverPasses(s, run)
    decreases |run|
  {
    hide Apply, TableOk, Within, PassesLimit;
    if run != [] {
      var s' := Apply(s, run[0].0, run[0].1);
      StepExactly(s, run[0].0, run[0].1);
      StepTableOk(s, run[0].0, run[0].1);
      InOrder.EventConfig(s, run[0].0, run[0].1);
      if Within(s'.table, s'.cfg.rreqRetries) {
        RunExactly(s', run[1..]);
      }
    }
  }
}
