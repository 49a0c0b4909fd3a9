/** What a node asks for in its own requests, and that its own number only
    rises (sections 6.1 and 6.3 of RFC 3561). */
module OwnRequests {
  import opened Base
  import opened SeqNo
  import opened Messages
  import opened RouteTable
  import opened NodeState
  import opened Discovery
  import opened LinkBreak
  import opened Routes
  import opened NodeEvents
  import opened Emissions
  import opened LoopFreedom
  import PacketQueue
  import IdCaches

  // ---------------------------------------------------------------------
  // One event

  predicate Knows(p: Table, d: Addr) { d in p && p[d].info.validSeqNo }

  /** A request for `d` by a node that was in state `s` at `now`: it asks for the
      number that the node knows, if it knows one, and carries the node's own
      number, just raised. */
  ghost predicate AsksRightly(s: Node, s': Node, now: Time, h: Rreq) {
    var p := s.Purged(now);
    && (h.unknownSeqNo <==> !Knows(p, h.dst))
    && h.dstSeqNo == (if Knows(p, h.dst) then p[h.dst].info.seqNo else 0)
    && h.originSeqNo == s'.ctr.seqNo == Wrap32(s.ctr.seqNo + 1)
    && h.gratuitous == s.cfg.gratuitousReply && h.destinationOnly == s.cfg.destinationOnly
  }

  /** Every new request asks rightly, for one of `about`, with the TTL that its
      entry now holds. */
  ghost predicate Asks(s: Node, s': Node, now: Time, about: set<Addr>) {
    && s.log.sent <= s'.log.sent
    && (forall i :: |s.log.sent| <= i < |s'.log.sent| && s'.log.sent[i].msg.RREQ? ==>
          var h := s'.log.sent[i].msg.rreq;
          && AsksRightly(s, s', now, h) && h.dst in about
          && h.dst in s'.table && s'.log.sent[i].ttl == Wrap8(s'.table[h.dst].info.hops))
  }

  /** The destinations for which the event may make the node ask. */
  function Sought(e: Event): set<Addr> {
    match e
    case Output(packet) => {packet.header.dst}
    case RetryTimer(dst) => {dst}
    case Postponed(dst, _) => {dst}
    case _ => {}
  }

  lemma MuteAsks(s: Node, s': Node, now: Time, about: set<Addr>)
    requires Mute(s, s')
    ensures Asks(s, s', now, about)
  {
  }

  /** `s1` is the node with its table perhaps purged already. */
  lemma SendRequestAsks(s: Node, s1: Node, dst: Addr, now: Time)
    requires s.cfg.badLinkLifetime >= 0 && (s1.table == s.table || s1.table == s.Purged(now))
    requires s1.cfg == s.cfg && s1.ctr == s.ctr && s1.log.sent == s.log.sent
    ensures Asks(s, SendRequest(s1, dst, now), now, {dst})
  {
    hide SearchEntry, ScheduleRreqRetry, RecordOwn, Purge;
    var s' := SendRequest(s1, dst, now);
    PurgeTwice(s.table, now, s.cfg.badLinkLifetime);
    assert s1.Purged(now) == s.Purged(now);
    if !RateLimited(s1) {
      var r := Requests(s1, s1.ifaces, dst, Wrap8(s'.table[dst].info.hops), now);
      assert s'.log.sent == s.log.sent + r;
      forall i | |s.log.sent| <= i < |s'.log.sent| ensures
        && s'.log.sent[i].msg.RREQ? && AsksRightly(s, s', now, s'.log.sent[i].msg.rreq)
        && s'.log.sent[i].msg.rreq.dst == dst && s'.log.sent[i].ttl == Wrap8(s'.table[dst].info.hops)
      {
        assert s'.log.sent[i] == r[i - |s.log.sent|];
      }
    }
  }

  lemma RetryAsks(s: Node, s1: Node, dst: Addr, now: Time)
    requires s.cfg.badLinkLifetime >= 0 && s1.table == s.table
    requires s1.cfg == s.cfg && s1.ctr == s.ctr && s1.log == s.log
    ensures Asks(s, RouteRequestTimerExpire(s1, dst, now), now, {dst})
  {
    hide SendRequest, Purge, WithoutFirst, Filter, Matching, ForwardedAll;
    SendRequestAsks(s, s1.(table := s1.Purged(now)), dst, now);
  }

  lemma OutputAsks(s: Node, packet: PacketQueue.QueueEntry, now: Time)
    requires s.cfg.badLinkLifetime >= 0
    ensures Asks(s, DeferredRouteOutput(s, packet, now), now, {packet.header.dst})
  {
    hide SendRequest, Purge, PacketQueue.Enqueue, PacketQueue.Accepts;
    var queued := s.WithQueue(PacketQueue.Enqueue(s.queue, packet, s.cfg.maxQueueLen, s.cfg.queueTimeout, now));
    SendRequestAsks(s, queued.(table := s.Purged(now)), packet.header.dst, now);
  }

  /** Whatever makes a node send a request of its own, it is for the destination
      that the event is about and asks for exactly the number known of it. */
  lemma EventAsks(s: Node, e: Event, now: Time)
    requires s.cfg.badLinkLifetime >= 0 && !(e.Receipt? && e.msg.Some? && e.msg.value.RREQ?)
    ensures Asks(s, Apply(s, e, now), now, Sought(e))
  {
    hide Mute, Asks, Receive, RouteRequestTimerExpire, PurgeNeighbors, RouteOutput, Forwarding, DeliverLocally,
         DeferredRouteOutput, SendRequest, CloseNeighbors, HelloTimerExpire;
    var s' := Apply(s, e, now);
    match e
    case Output(packet) => OutputAsks(s, packet, now);
    case RetryTimer(dst) => RetryAsks(s, s.(search := s.search.(timers := s.search.timers[dst := None])), dst, now);
    case Postponed(dst, at) =>
      SendRequestAsks(s, s.(search := s.search.(postponed := s.search.postponed - multiset{(dst, at)})), dst, now);
    case _ =>
      OtherMute(s, e, now);
      MuteAsks(s, s', now, Sought(e));
  }

  lemma OtherMute(s: Node, e: Event, now: Time)
    requires !(e.Receipt? && e.msg.Some? && e.msg.value.RREQ?) && !e.Output? && !e.RetryTimer? && !e.Postponed?
    ensures Mute(s, Apply(s, e, now))
  {
    hide Mute, Receive, PurgeNeighbors, RouteOutput, Forwarding, DeliverLocally, CloseNeighbors, HelloTimerExpire;
    var s' := Apply(s, e, now);
    match e
    case Receipt(msg, ttl, sender, rcv) => ReceiveMute(s, msg, ttl, sender, rcv, now);
    case RreqReset => SameLogMute(s, s, s');
    case RerrReset => SameLogMute(s, s, s');
    case HelloTimer =>
      var s1 := s.(hello := s.hello.(timer := None));
      HelloMute(s1, now);
      SameLogMute(s, s1, s');
    case NeighborTimer =>
      var s1 := s.(neighborTimer := None);
      PurgeNeighborsMute(s1, now);
      SameLogMute(s, s1, s');
    case TxError(hit) =>
      var s1 := s.(neighbors := CloseNeighbors(s.neighbors, hit));
      PurgeNeighborsMute(s1, now);
      SameLogMute(s, s1, s');
    case RouteRequest(dst, oif) => RouteOutputMute(s, dst, oif, now);
    case Forward(uid, header) => ForwardingMute(s, uid, header, now);
    case Delivered(origin) => DeliverLocallyMute(s, origin, now);
  }

  lemma SameLogMute(s: Node, s1: Node, s': Node)
    requires s1.log == s.log && s1.ifaces == s.ifaces && s1.ids == s.ids && s1.cfg == s.cfg
    ensures Mute(s1, s') ==> Mute(s, s')
    ensures s'.log == s.log && s'.ifaces == s.ifaces && s'.ids == s.ids && s'.cfg == s.cfg ==> Mute(s, s')
  {
  }

  // ---------------------------------------------------------------------
  // The node's own number

  lemma SendRerrNumber(s: Node, rerr: Rerr, precursors: seq<Addr>)
    ensures SendRerrMessage(s, rerr, precursors).ctr.seqNo == s.ctr.seqNo
  {
    hide PrecursorIfaces;
  }

  lemma BreakLinkNumber(s: Node, nextHop: Addr, now: Time)
    ensures BreakLink(s, nextHop, now).ctr.seqNo == s.ctr.seqNo
  {
    hide SendRerrMessage, Purge, LostDestinations, LostPrecursors, InvalidateAll;
    var p := s.Purged(now);
    if nextHop in p {
      SendRerrNumber(s.(table := p), Rerr(0, 0, LostDestinations(p, nextHop)), LostPrecursors(p, nextHop));
    }
  }

  lemma {:induction false} BreakAllNumber(s: Node, lost: seq<Neighbor>, now: Time)
    ensures BreakAll(s, lost, now).ctr.seqNo == s.ctr.seqNo
    decreases |lost|
  {
    hide BreakLink;
    if lost != [] {
      BreakLinkNumber(s, lost[0].addr, now);
      BreakAllNumber(BreakLink(s, lost[0].addr, now), lost[1..], now);
    }
  }

  lemma NeighborsNumber(s: Node, addr: Addr, expire: Time, now: Time)
    ensures PurgeNeighbors(s, now).ctr.seqNo == s.ctr.seqNo
    ensures UpdateNeighbor(s, addr, expire, now).ctr.seqNo == s.ctr.seqNo
  {
    hide BreakAll, Filter, NeighborIndex;
    var s1 := s.(neighbors := s.neighbors + [Neighbor(addr, expire + now, false)]);
    BreakAllNumber(s, Filter(IsClosed(now), s.neighbors), now);
    BreakAllNumber(s1, Filter(IsClosed(now), s1.neighbors), now);
  }

  lemma RecvErrorNumber(s: Node, rerr: Rerr, src: Addr, now: Time)
    ensures RecvError(s, rerr, src, now).ctr.seqNo == s.ctr.seqNo
  {
    hide SendRerrMessage, Purge, InvalidateAll, Affected, CollectPrecursors, SortedKeys;
    var p := s.Purged(now);
    var affected := Affected(p, rerr.unreachable, src);
    SendRerrNumber(s.(table := p), rerr.(unreachable := affected), CollectPrecursors(p, SortedKeys(affected.Keys), []));
  }

  lemma RecvReplyNumber(s: Node, h: Rrep, ttl: U8, sender: Addr, rcv: Iface, now: Time)
    ensures RecvReply(s, h, ttl, sender, rcv, now).ctr.seqNo == s.ctr.seqNo
  {
    hide UpdateNeighbor, HelloTable, Purge, ForwardRoute, Update, ConnectPrecursors, Extended, Filter, WithoutFirst,
         ForwardedAll, Matching, ForwardEntry;
    NeighborsNumber(s.(table := HelloTable(s, h, rcv, now)), h.dst, s.cfg.HelloLifetime(), now);
  }

  lemma LearnNumber(s: Node, h: Rreq, hop: U8, src: Addr, rcv: Iface, now: Time)
    ensures LearnFromRequest(s, h, hop, src, rcv, now).ctr.seqNo == s.ctr.seqNo
    ensures LearnFromRequest(s, h, hop, src, rcv, now).ifaces == s.ifaces
  {
    hide Purge, ReverseRoute, RelayRoute, UpdateNeighbor;
    var bad := s.cfg.badLinkLifetime;
    var relay :=
      RelayRoute(s.cfg, Purge(ReverseRoute(s.cfg, s.Purged(now), h, hop, src, rcv, now), now, bad), h, src, rcv, now);
    NeighborsNumber(s.(table := relay), src, s.cfg.HelloLifetime(), now);
    UpdateNeighborMute(s.(table := relay), src, s.cfg.HelloLifetime(), now);
  }

  /** A received request asks this node for exactly its next number. */
  predicate AsksForNext(s: Node, h: Rreq) {
    s.IsMyOwnAddress(h.dst) && !h.unknownSeqNo && h.dstSeqNo == Wrap32(s.ctr.seqNo + 1)
  }

  lemma AnswerNumber(s: Node, h: Rreq, hop: U8, ttl: U8, src: Addr, stale: Entry, now: Time)
    ensures AnswerRequest(s, h, hop, ttl, src, stale, now).ctr.seqNo
            == if AsksForNext(s, h) then Wrap32(s.ctr.seqNo + 1) else s.ctr.seqNo
  {
    hide Purge, Relayed, KnowsDestination, Update, ToMilliseconds;
  }

  lemma RecvRequestNumber(s: Node, h: Rreq, ttl: U8, src: Addr, rcv: Iface, now: Time)
    ensures RecvRequest(s, h, ttl, src, rcv, now).ctr.seqNo
            == if Accepts(s, h, src, now) && AsksForNext(s, h) then Wrap32(s.ctr.seqNo + 1) else s.ctr.seqNo
  {
    hide Purge, IdCaches.Record, IdCaches.Duplicate, LearnFromRequest, AnswerRequest, StaleEntry;
    RecvRequestSends(s, h, ttl, src, rcv, now);
    var r := Recorded(s, h, now);
    var hop := Wrap8(h.hopCount + 1);
    LearnNumber(r, h, hop, src, rcv, now);
    AnswerNumber(LearnFromRequest(r, h, hop, src, rcv, now), h, hop, ttl, src, StaleEntry(r, h, hop, src, rcv, now),
        now);
  }

  /** The event raises the node's own number: a request of its own goes out, or
      one that it processes asks it for exactly the next number. */
  predicate Raises(s: Node, e: Event, now: Time) {
    match e
    case Receipt(Some(RREQ(h)), _, sender, rcv) => Accepts(Met(s, sender, rcv, now), h, sender, now)
        && AsksForNext(s, h)
    case _ => Sought(e) != {} && Apply(s, e, now).ctr.requestId != s.ctr.requestId
  }

  lemma SendRequestNumber(s: Node, dst: Addr, now: Time)
    ensures var s' := SendRequest(s, dst, now);
            && s'.ctr.seqNo == (if RateLimited(s) then s.ctr.seqNo else Wrap32(s.ctr.seqNo + 1))
            && (s'.ctr.requestId != s.ctr.requestId <==> !RateLimited(s))
  {
    hide SearchEntry, ScheduleRreqRetry, Requests, RecordOwn, Purge;
  }

  lemma ReceiveNumber(s: Node, msg: Option<Message>, ttl: U8, sender: Addr, rcv: Iface, now: Time)
    ensures var s' := Receive(s, msg, ttl, sender, rcv, now);
            s'.ctr.seqNo == if Raises(s, Receipt(msg, ttl, sender, rcv),
                now) then Wrap32(s.ctr.seqNo + 1) else s.ctr.seqNo
  {
    hide RouteToNeighbor, RecvRequest, RecvReply, RecvError, Accepts, Purge;
    var s1 := s.(table := RouteToNeighbor(s.cfg, s.table, sender, rcv, now));
    match msg
    case None =>
    case Some(RREQ(h)) => RecvRequestNumber(s1, h, ttl, sender, rcv, now);
    case Some(RREP(h)) => RecvReplyNumber(s1, h, ttl, sender, rcv, now);
    case Some(RERR(h)) => RecvErrorNumber(s1, h, sender, now);
    case Some(RREP_ACK) =>
  }

  lemma UseRouteNumber(s: Node, origin: Addr, dst: Addr, now: Time)
    ensures UseRoute(s, origin, dst, now).ctr.seqNo == s.ctr.seqNo
  {
    hide Purge, Refresh, UpdateNeighbor, OnEveryInterface;
    var p := s.Purged(now);
    if IsValid(p, dst) {
      var life, bad := s.cfg.activeRouteTimeout, s.cfg.badLinkLifetime;
      var gateway := p[dst].route.nextHop;
      var t1 := Refresh(Refresh(Refresh(p, origin, life, now, bad), dst, life, now, bad), gateway, life, now, bad);
      var back := GetOr(t1, origin, DefaultEntry(now)).route.nextHop;
      var s1 := s.(table := Refresh(t1, back, life, now, bad));
      NeighborsNumber(s1, gateway, life, now);
      NeighborsNumber(UpdateNeighbor(s1, gateway, life, now), back, life, now);
    }
  }

  lemma DeliverNumber(s: Node, origin: Addr, now: Time)
    ensures DeliverLocally(s, origin, now).ctr.seqNo == s.ctr.seqNo
  {
    hide Refresh, UpdateNeighbor;
    var life, bad := s.cfg.activeRouteTimeout, s.cfg.badLinkLifetime;
    var t := Refresh(s.table, origin, life, now, bad);
    if IsValid(t, origin) {
      var back := t[origin].route.nextHop;
      NeighborsNumber(s.(table := Refresh(t, back, life, now, bad)), back, life, now);
    }
  }

  lemma RetryNumber(s: Node, dst: Addr, now: Time)
    ensures var s' := RouteRequestTimerExpire(s, dst, now);
            s'.ctr.seqNo == if s'.ctr.requestId != s.ctr.requestId then Wrap32(s.ctr.seqNo + 1) else s.ctr.seqNo
  {
    hide SendRequest, Purge, WithoutFirst, Filter, Matching, ForwardedAll;
    SendRequestNumber(s.(table := s.Purged(now)), dst, now);
  }

  lemma OutputNumber(s: Node, packet: PacketQueue.QueueEntry, now: Time)
    ensures var s' := DeferredRouteOutput(s, packet, now);
            s'.ctr.seqNo == if s'.ctr.requestId != s.ctr.requestId then Wrap32(s.ctr.seqNo + 1) else s.ctr.seqNo
  {
    hide SendRequest, Purge, PacketQueue.Enqueue, PacketQueue.Accepts;
    var queued := s.WithQueue(PacketQueue.Enqueue(s.queue, packet, s.cfg.maxQueueLen, s.cfg.queueTimeout, now));
    SendRequestNumber(queued.(table := s.Purged(now)), packet.header.dst, now);
  }

  /** The node's own number rises by one exactly in the events that `Raises`
      lists, and never changes otherwise. */
  lemma EventNumber(s: Node, e: Event, now: Time)
    ensures Apply(s, e, now).ctr.seqNo == if Raises(s, e, now) then Wrap32(s.ctr.seqNo + 1) else s.ctr.seqNo
  {
    hide Receive, RouteRequestTimerExpire, PurgeNeighbors, RouteOutput, UseRoute, DeliverLocally, Accepts,
         DeferredRouteOutput, SendRequest, CloseNeighbors, Hellos;
    match e
    case Receipt(msg, ttl, sender, rcv) => ReceiveNumber(s, msg, ttl, sender, rcv, now);
    case Output(packet) => OutputNumber(s, packet, now);
    case RetryTimer(dst) => RetryNumber(s.(search := s.search.(timers := s.search.timers[dst := None])), dst, now);
    case Postponed(dst, at) =>
      SendRequestNumber(s.(search := s.search.(postponed := s.search.postponed - multiset{(dst, at)})), dst, now);
    case RreqReset =>
    case RerrReset =>
    case HelloTimer =>
    case NeighborTimer => NeighborsNumber(s.(neighborTimer := None), 0, 0, now);
    case TxError(hit) => NeighborsNumber(s.(neighbors := CloseNeighbors(s.neighbors, hit)), 0, 0, now);
    case RouteRequest(dst, oif) => RouteOutputNumber(s, dst, oif, now);
    case Forward(uid, header) => UseRouteNumber(s, header.src, header.dst, now);
    case Delivered(origin) => DeliverNumber(s, origin, now);
  }

  lemma RouteOutputNumber(s: Node, dst: Addr, oif: int, now: Time)
    ensures RouteOutput(s, dst, oif, now).ctr.seqNo == s.ctr.seqNo
  {
    hide Refresh, Purge;
  }

  // ---------------------------------------------------------------------
  // Whole runs

  /** How often the run raises the node's own number. */
  function Raised(s: Node, run: seq<(Event, Time)>): nat
    decreases |run|
  {
    if run == [] then 0
    else (if Raises(s, run[0].0, run[0].1) then 1 else 0) + Raised(Apply(s, run[0].0, run[0].1), run[1..])
  }

  /** So it is a true counter of these events, of which 32 bits are kept. */
  lemma {:induction false} OwnNumber(s: Node, run: seq<(Event, Time)>, x: nat)
    requires s.ctr.seqNo == Wrap32(x)
    ensures RunAll(s, run).ctr.seqNo == Wrap32(x + Raised(s, run)) && Raised(s, run) <= |run|
    decreases |run|
  {
    hide Apply, Raises;
    if run != [] {
      var e, now := run[0].0, run[0].1;
      EventNumber(s, e, now);
      var y: nat := x + if Raises(s, e, now) then 1 else 0;
      assert Apply(s, e, now).ctr.seqNo == Wrap32(y);
      OwnNumber(Apply(s, e, now), run[1..], y);
    }
  }

  /** A request of its own that the node sends in the event. */
  ghost predicate SendsOwn(s: Node, e: Event, now: Time, h: Rreq) {
    && !(e.Receipt? && e.msg.Some? && e.msg.value.RREQ?)
    && exists i :: |s.log.sent| <= i < |Apply(s, e, now).log.sent| && Apply(s, e, now).log.sent[i].msg == RREQ(h)
  }

  lemma OwnRaises(s: Node, e: Event, now: Time, h: Rreq)
    requires SendsOwn(s, e, now, h) && s.cfg.badLinkLifetime >= 0
    ensures AsksRightly(s, Apply(s, e, now), now, h) && Raises(s, e, now)
  {
    hide Apply, Raises;
    EventAsks(s, e, now);
    EventNumber(s, e, now);
    var i :| |s.log.sent| <= i < |Apply(s, e, now).log.sent| && Apply(s, e, now).log.sent[i].msg == RREQ(h);
    assert Wrap32(s.ctr.seqNo + 1) != s.ctr.seqNo;
  }

  /** Whatever the node does in between, a later request of its own carries a
      newer number than an earlier one, in the sense in which every node that
      hears them compares them. */
  lemma LaterRequestIsNewer(s: Node, e: Event, now: Time, h: Rreq, run: seq<(Event, Time)>, e': Event, now': Time,
                            h': Rreq)
    requires s.cfg.badLinkLifetime >= 0 && SendsOwn(s, e, now, h) && |run| < HALF - 1
    requires var s1 := RunAll(Apply(s, e, now), run);
             SendsOwn(s1, e', now', h') && s1.cfg.badLinkLifetime >= 0
    ensures Newer(h'.originSeqNo, h.originSeqNo)
  {
    hide Apply, Raises, Newer, SendsOwn;
    var s0 := Apply(s, e, now);
    var s1 := RunAll(s0, run);
    OwnRaises(s, e, now, h);
    OwnRaises(s1, e', now', h');
    var x: nat := s0.ctr.seqNo;
    OwnNumber(s0, run, x);
    var y: nat := x + Raised(s0, run) + 1;
    assert h.originSeqNo == Wrap32(x) && h'.originSeqNo == Wrap32(y);
    NewerIsCounterOrder(y, x);
  }
}
