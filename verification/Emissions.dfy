/** What a received message can make a node send. */
module Emissions {
  import opened Base
  import opened Messages
  import opened RouteTable
  import opened NodeState
  import opened Discovery
  import opened LinkBreak
  import opened Routes
  import opened NodeEvents
  import IdCaches
  import PacketQueue

  /** No request is sent, and the duplicate cache is left alone. */
  ghost predicate Mute(s: Node, s': Node) {
    && s.log.sent <= s'.log.sent
    && (forall i :: |s.log.sent| <= i < |s'.log.sent| ==> !s'.log.sent[i].msg.RREQ?)
    && s'.ids == s.ids && s'.ifaces == s.ifaces && s'.cfg == s.cfg
  }

  lemma MuteTrans(a: Node, b: Node, c: Node)
    requires Mute(a, b) && Mute(b, c)
    ensures Mute(a, c)
  {
    assert forall i :: |a.log.sent| <= i < |b.log.sent| ==> c.log.sent[i] == b.log.sent[i];
  }

  lemma SendRerrMute(s: Node, rerr: Rerr, precursors: seq<Addr>)
    ensures Mute(s, SendRerrMessage(s, rerr, precursors))
  {
    hide PrecursorIfaces;
  }

  lemma BreakLinkMute(s: Node, nextHop: Addr, now: Time)
    ensures Mute(s, BreakLink(s, nextHop, now))
  {
    hide SendRerrMessage, Purge, LostDestinations, LostPrecursors, InvalidateAll;
    var p := s.Purged(now);
    if nextHop in p {
      SendRerrMute(s.(table := p), Rerr(0, 0, LostDestinations(p, nextHop)), LostPrecursors(p, nextHop));
    }
  }

  lemma {:induction false} BreakAllMute(s: Node, lost: seq<Neighbor>, now: Time)
    ensures Mute(s, BreakAll(s, lost, now))
    decreases |lost|
  {
    hide BreakLink, Mute;
    if lost == [] {
      MuteSelf(s);
    } else {
      BreakLinkMute(s, lost[0].addr, now);
      BreakAllMute(BreakLink(s, lost[0].addr, now), lost[1..], now);
      MuteTrans(s, BreakLink(s, lost[0].addr, now), BreakAll(s, lost, now));
    }
  }

  lemma MuteSelf(s: Node)
    ensures Mute(s, s)
  {
  }

  lemma UpdateNeighborMute(s: Node, addr: Addr, expire: Time, now: Time)
    ensures Mute(s, UpdateNeighbor(s, addr, expire, now))
  {
    hide BreakAll, Filter, NeighborIndex;
    var s1 := s.(neighbors := s.neighbors + [Neighbor(addr, expire + now, false)]);
    BreakAllMute(s1, Filter(IsClosed(now), s1.neighbors), now);
  }

  lemma RecvErrorMute(s: Node, rerr: Rerr, src: Addr, now: Time)
    ensures Mute(s, RecvError(s, rerr, src, now))
  {
    hide SendRerrMessage, Purge, InvalidateAll, Affected, CollectPrecursors, SortedKeys;
    var p := s.Purged(now);
    var affected := Affected(p, rerr.unreachable, src);
    SendRerrMute(s.(table := p), rerr.(unreachable := affected), CollectPrecursors(p, SortedKeys(affected.Keys), []));
  }

  lemma ProcessHelloMute(s: Node, h: Rrep, rcv: Iface, now: Time)
    ensures Mute(s, ProcessHello(s, h, rcv, now))
  {
    hide UpdateNeighbor, HelloTable;
    UpdateNeighborMute(s.(table := HelloTable(s, h, rcv, now)), h.dst, s.cfg.HelloLifetime(), now);
  }

  lemma LearnFromReplyMute(s: Node, h: Rrep, hop: U8, sender: Addr, rcv: Iface, now: Time)
    ensures Mute(s, LearnFromReply(s, h, hop, sender, rcv, now))
  {
    hide Purge, ForwardRoute;
  }

  lemma ForwardReplyMute(s: Node, h: Rrep, hop: U8, ttl: U8, now: Time)
    ensures Mute(s, ForwardReply(s, h, hop, ttl, now))
  {
    hide Purge, Update, ConnectPrecursors, Extended;
  }

  lemma AcceptReplyMute(s: Node, h: Rrep, hop: U8, sender: Addr, rcv: Iface, before: Entry, now: Time)
    ensures Mute(s, AcceptReply(s, h, hop, sender, rcv, before, now))
  {
    hide Purge, Update, Filter, WithoutFirst, ForwardedAll, Matching, ForwardEntry;
  }

  lemma RecvReplyMute(s: Node, h: Rrep, ttl: U8, sender: Addr, rcv: Iface, now: Time)
    ensures Mute(s, RecvReply(s, h, ttl, sender, rcv, now))
  {
    hide ProcessHello, LearnFromReply, AcceptReply, ForwardReply, Purge, Mute;
    var hop := Wrap8(h.hopCount + 1);
    ProcessHelloMute(s, h, rcv, now);
    var s2 := LearnFromReply(s, h, hop, sender, rcv, now);
    var before := GetOr(s.Purged(now), h.dst, DefaultEntry(now));
    LearnFromReplyMute(s, h, hop, sender, rcv, now);
    AcceptReplyMute(s2, h, hop, sender, rcv, before, now);
    ForwardReplyMute(s2, h, hop, ttl, now);
    MuteTrans(s, s2, AcceptReply(s2, h, hop, sender, rcv, before, now));
    MuteTrans(s, s2, ForwardReply(s2, h, hop, ttl, now));
  }

  lemma LearnFromRequestMute(s: Node, h: Rreq, hop: U8, src: Addr, rcv: Iface, now: Time)
    ensures Mute(s, LearnFromRequest(s, h, hop, src, rcv, now))
  {
    hide Purge, ReverseRoute, RelayRoute, UpdateNeighbor;
    var bad := s.cfg.badLinkLifetime;
    var relay :=
      RelayRoute(s.cfg, Purge(ReverseRoute(s.cfg, s.Purged(now), h, hop, src, rcv, now), now, bad), h, src, rcv, now);
    UpdateNeighborMute(s.(table := relay), src, s.cfg.HelloLifetime(), now);
  }

  // ---------------------------------------------------------------------
  // Requests that are passed on

  /** From index `base` on, `sent` is one message, once on each interface in turn. */
  ghost predicate OnEach(sent: seq<Sent>, base: int, ifaces: seq<Iface>) {
    && 0 <= base && |sent| == base + |ifaces|
    && (forall j :: base <= j < |sent| ==>
          && sent[j].msg == sent[base].msg
          && sent[j].iface == ifaces[j - base] && sent[j].to == ifaces[j - base].BroadcastTarget())
  }

  /** Every new request is the received one, one hop further, with one TTL
      less; it goes out once per interface or not at all. */
  ghost predicate Relays(s: Node, s': Node, h: Rreq, ttl: U8) {
    && s.log.sent <= s'.log.sent
    && (forall i :: |s.log.sent| <= i < |s'.log.sent| && s'.log.sent[i].msg.RREQ? ==>
          && i >= |s'.log.sent| - |s.ifaces| >= |s.log.sent|
          && OnEach(s'.log.sent, |s'.log.sent| - |s.ifaces|, s.ifaces)
          && ttl >= 2 && s'.log.sent[i].ttl == ttl - 1
          && s'.log.sent[i].msg.rreq.origin == h.origin && s'.log.sent[i].msg.rreq.id == h.id
          && s'.log.sent[i].msg.rreq.hopCount == Wrap8(h.hopCount + 1)
          && s'.log.sent[i].msg.rreq.dst == h.dst
          && s'.log.sent[i].msg.rreq.originSeqNo == h.originSeqNo
          && s'.log.sent[i].msg.rreq.destinationOnly == h.destinationOnly)
    && s'.ids == s.ids && s'.ifaces == s.ifaces && s'.cfg == s.cfg
  }

  lemma MuteRelays(a: Node, b: Node, c: Node, h: Rreq, ttl: U8)
    requires Mute(a, b) && Relays(b, c, h, ttl)
    ensures Relays(a, c, h, ttl)
  {
    hide OnEach;
    assert forall i :: |a.log.sent| <= i < |b.log.sent| ==> c.log.sent[i] == b.log.sent[i];
  }

  lemma ForwardRequestRelays(s: Node, h: Rreq, hop: U8, ttl: U8, now: Time)
    requires hop == Wrap8(h.hopCount + 1)
    ensures Relays(s, ForwardRequest(s, Relayed(s, h, hop), ttl, now), h, ttl)
  {
    hide KnowsDestination, OnEach;
    var s' := ForwardRequest(s, Relayed(s, h, hop), ttl, now);
    if ttl >= 2 {
      SentOnEach(s.log.sent, s.ifaces, RREQ(Relayed(s, h, hop)), ttl - 1);
    }
  }

  lemma SentOnEach(sent: seq<Sent>, ifaces: seq<Iface>, msg: Message, ttl: U8)
    ensures OnEach(sent + OnEveryInterface(ifaces, msg, ttl), |sent|, ifaces)
  {
  }

  lemma RepliesMute(s: Node, h: Rreq, toDst: Entry, toOrigin: Entry, now: Time)
    ensures Mute(s, SendReply(s, h, toOrigin))
    ensures Mute(s, SendReplyByIntermediateNode(s, toDst, toOrigin, h.gratuitous, now))
  {
    hide Update, ToMilliseconds;
  }

  lemma MuteIsRelays(s: Node, s': Node, h: Rreq, ttl: U8)
    requires Mute(s, s')
    ensures Relays(s, s', h, ttl)
  {
  }

  lemma AnswerRelays(s: Node, h: Rreq, ttl: U8, src: Addr, stale: Entry, now: Time)
    ensures Relays(s, AnswerRequest(s, h, Wrap8(h.hopCount + 1), ttl, src, stale, now), h, ttl)
  {
    hide Purge, Relayed, ForwardRequest, SendReply, SendReplyByIntermediateNode, KnowsDestination, Relays, Mute;
    var s1 := s.(table := s.Purged(now));
    var o := GetOr(s1.table, h.origin, stale);
    PurgedMute(s, now);
    MuteIsRelays(s, s1, h, ttl);
    ForwardRequestRelays(s1, h, Wrap8(h.hopCount + 1), ttl, now);
    MuteRelays(s, s1, ForwardRequest(s1, Relayed(s1, h, Wrap8(h.hopCount + 1)), ttl, now), h, ttl);
    RepliesMute(s1, h, GetOr(s1.table, h.dst, stale), o, now);
    MuteTrans(s, s1, SendReply(s1, h, o));
    MuteIsRelays(s, SendReply(s1, h, o), h, ttl);
    var i := SendReplyByIntermediateNode(s1, GetOr(s1.table, h.dst, stale), o, h.gratuitous, now);
    MuteTrans(s, s1, i);
    MuteIsRelays(s, i, h, ttl);
  }

  lemma PurgedMute(s: Node, now: Time)
    ensures Mute(s, s.(table := s.Purged(now)))
  {
    hide Purge;
  }

  lemma ProcessRelays(s: Node, h: Rreq, ttl: U8, src: Addr, rcv: Iface, now: Time)
    ensures Relays(s, ProcessRequest(s, h, ttl, src, rcv, now), h, ttl)
  {
    hide LearnFromRequest, AnswerRequest, Mute, Relays, StaleEntry;
    var hop := Wrap8(h.hopCount + 1);
    var stale := StaleEntry(s, h, hop, src, rcv, now);
    var s2 := LearnFromRequest(s, h, hop, src, rcv, now);
    LearnFromRequestMute(s, h, hop, src, rcv, now);
    AnswerRelays(s2, h, ttl, src, stale, now);
    MuteRelays(s, s2, AnswerRequest(s2, h, hop, ttl, src, stale, now), h, ttl);
  }

  function KeyOf(h: Rreq): IdCaches.Key { IdCaches.Key(h.origin, h.id) }

  /** The request is processed, neither from a blacklisted neighbour nor a duplicate. */
  predicate Accepts(s: Node, h: Rreq, src: Addr, now: Time) {
    var p := s.Purged(now);
    !(src in p && p[src].info.blackList) && !IdCaches.Duplicate(s.ids, KeyOf(h), now)
  }

  /** The state in which an accepted request is processed. */
  function Recorded(s: Node, h: Rreq, now: Time): Node {
    s.(table := s.Purged(now), ids := IdCaches.Record(s.ids, KeyOf(h), s.cfg.idLifetime, now))
  }

  lemma RecvRequestSends(s: Node, h: Rreq, ttl: U8, src: Addr, rcv: Iface, now: Time)
    ensures var s' := RecvRequest(s, h, ttl, src, rcv, now);
            && s'.ifaces == s.ifaces && s'.cfg == s.cfg
            && (if Accepts(s, h, src, now)
                then s' == ProcessRequest(Recorded(s, h, now), h, ttl, src, rcv, now)
                     && s'.ids == IdCaches.Record(s.ids, KeyOf(h), s.cfg.idLifetime, now)
                     && Relays(Recorded(s, h, now), s', h, ttl)
                else s'.log == s.log
                     && (s'.ids == s.ids || s'.ids == IdCaches.Record(s.ids, KeyOf(h), s.cfg.idLifetime, now)))
  {
    hide Purge, ProcessRequest, IdCaches.Record, IdCaches.Duplicate;
    ProcessRelays(Recorded(s, h, now), h, ttl, src, rcv, now);
  }

  /** A received message other than a request makes the node send no request. */
  lemma ReceiveMute(s: Node, msg: Option<Message>, ttl: U8, sender: Addr, rcv: Iface, now: Time)
    requires !(msg.Some? && msg.value.RREQ?)
    ensures Mute(s, Receive(s, msg, ttl, sender, rcv, now))
  {
    hide RouteToNeighbor, RecvReply, RecvError, Purge;
    var s1 := s.(table := RouteToNeighbor(s.cfg, s.table, sender, rcv, now));
    match msg
    case None =>
    case Some(RREP(h)) => RecvReplyMute(s1, h, ttl, sender, rcv, now);
    case Some(RERR(h)) => RecvErrorMute(s1, h, sender, now);
    case Some(RREP_ACK) =>
  }

  // ---------------------------------------------------------------------
  // Requests that a node issues itself

  /** Every new request is the node's own, under its next request number, and not yet on its way. */
  ghost predicate Issues(s: Node, s': Node) {
    && s.log.sent <= s'.log.sent
    && (forall i :: |s.log.sent| <= i < |s'.log.sent| && s'.log.sent[i].msg.RREQ? ==>
          && s'.log.sent[i].msg.rreq.hopCount == 0 && s.IsMyOwnAddress(s'.log.sent[i].msg.rreq.origin)
          && s'.log.sent[i].msg.rreq.id == Wrap32(s.ctr.requestId + 1))
    && s'.ifaces == s.ifaces
  }

  lemma MuteIssues(s: Node, s': Node)
    requires Mute(s, s')
    ensures Issues(s, s')
  {
  }

  lemma SendRequestIssues(s: Node, dst: Addr, now: Time)
    ensures Issues(s, SendRequest(s, dst, now))
  {
    hide SearchEntry, ScheduleRreqRetry, RecordOwn, Purge;
    var s' := SendRequest(s, dst, now);
    forall i | |s.log.sent| <= i < |s'.log.sent| ensures
      s'.log.sent[i].msg.RREQ? && s'.log.sent[i].msg.rreq.hopCount == 0
      && s'.log.sent[i].msg.rreq.id == Wrap32(s.ctr.requestId + 1)
      && s.IsMyOwnAddress(s'.log.sent[i].msg.rreq.origin)
    {
      var j := i - |s.log.sent|;
      assert s.ifaces[j].local == s'.log.sent[i].msg.rreq.origin;
    }
  }

  lemma PurgeNeighborsMute(s: Node, now: Time)
    ensures Mute(s, PurgeNeighbors(s, now))
  {
    hide BreakAll, Filter;
    BreakAllMute(s, Filter(IsClosed(now), s.neighbors), now);
  }

  lemma ForwardingMute(s: Node, uid: int, header: PacketQueue.Header, now: Time)
    ensures Mute(s, Forwarding(s, uid, header, now))
  {
    hide Purge, UseRoute;
    UseRouteMute(s, header.src, header.dst, now);
  }

  lemma UseRouteMute(s: Node, origin: Addr, dst: Addr, now: Time)
    ensures Mute(s, UseRoute(s, origin, dst, now))
  {
    hide Purge, Refresh, UpdateNeighbor, OnEveryInterface;
    var s' := UseRoute(s, origin, dst, now);
    var p := s.Purged(now);
    if IsValid(p, dst) {
      var life, bad := s.cfg.activeRouteTimeout, s.cfg.badLinkLifetime;
      var gateway := p[dst].route.nextHop;
      var t1 := Refresh(Refresh(Refresh(p, origin, life, now, bad), dst, life, now, bad), gateway, life, now, bad);
      var back := GetOr(t1, origin, DefaultEntry(now)).route.nextHop;
      var s1 := s.(table := Refresh(t1, back, life, now, bad));
      UpdateNeighborMute(s1, gateway, life, now);
      var s2 := UpdateNeighbor(s1, gateway, life, now);
      UpdateNeighborMute(s2, back, life, now);
      MuteTrans(s, s2, UpdateNeighbor(s2, back, life, now));
    } else {
      var seqNo := if dst in p && p[dst].info.validSeqNo then p[dst].info.seqNo else 0;
      NoRouteMute(s.(table := p), dst, seqNo, origin, now);
    }
  }

  lemma NoRouteMute(s: Node, dst: Addr, dstSeqNo: U32, origin: Addr, now: Time)
    ensures Mute(s, RerrNoRoute(s, dst, dstSeqNo, origin, now))
  {
    hide Purge;
  }

  lemma DeliverLocallyMute(s: Node, origin: Addr, now: Time)
    ensures Mute(s, DeliverLocally(s, origin, now))
  {
    hide Refresh, UpdateNeighbor;
    var life, bad := s.cfg.activeRouteTimeout, s.cfg.badLinkLifetime;
    var t := Refresh(s.table, origin, life, now, bad);
    if IsValid(t, origin) {
      var back := t[origin].route.nextHop;
      UpdateNeighborMute(s.(table := Refresh(t, back, life, now, bad)), back, life, now);
    }
  }

  lemma {:induction false} HellosAreReplies(s: Node, ifaces: seq<Iface>)
    ensures forall i :: 0 <= i < |Hellos(s, ifaces)| ==> Hellos(s, ifaces)[i].msg.RREP?
  {
    hide ToMilliseconds;
    if ifaces != [] {
      HellosAreReplies(s, ifaces[1..]);
    }
  }

  lemma HelloMute(s: Node, now: Time)
    ensures Mute(s, HelloTimerExpire(s, now))
  {
    hide Hellos;
    HellosAreReplies(s, s.ifaces);
  }

  lemma RetryIssues(s: Node, dst: Addr, now: Time)
    ensures Issues(s, RouteRequestTimerExpire(s, dst, now))
  {
    hide SendRequest, Purge, WithoutFirst, Filter, Matching, ForwardedAll;
    SendRequestIssues(s.(table := s.Purged(now)), dst, now);
  }

  lemma OutputIssues(s: Node, packet: PacketQueue.QueueEntry, now: Time)
    ensures Issues(s, DeferredRouteOutput(s, packet, now))
  {
    hide SendRequest, Purge, PacketQueue.Enqueue, PacketQueue.Accepts;
    var queued := s.WithQueue(PacketQueue.Enqueue(s.queue, packet, s.cfg.maxQueueLen, s.cfg.queueTimeout, now));
    SendRequestIssues(queued.(table := s.Purged(now)), packet.header.dst, now);
  }

  /** Apart from passing on what it received, a node only sends requests of its own. */
  lemma EventIssues(s: Node, e: Event, now: Time)
    requires !(e.Receipt? && e.msg.Some? && e.msg.value.RREQ?)
    ensures Issues(s, Apply(s, e, now))
  {
    hide Mute, Issues, Receive, RouteRequestTimerExpire, PurgeNeighbors, RouteOutput, Forwarding, DeliverLocally,
         DeferredRouteOutput, SendRequest, CloseNeighbors, HelloTimerExpire;
    var s' := Apply(s, e, now);
    match e
    case Receipt(msg, ttl, sender, rcv) => ReceiveMute(s, msg, ttl, sender, rcv, now); MuteIssues(s, s');
    case Output(packet) => OutputIssues(s, packet, now);
    case RetryTimer(dst) =>
      var s1 := s.(search := s.search.(timers := s.search.timers[dst := None]));
      RetryIssues(s1, dst, now);
      SameLogIssues(s, s1, s');
    case Postponed(dst, at) =>
      var s1 := s.(search := s.search.(postponed := s.search.postponed - multiset{(dst, at)}));
      SendRequestIssues(s1, dst, now);
      SameLogIssues(s, s1, s');
    case RreqReset => SameLogIssues(s, s', s');
    case RerrReset => SameLogIssues(s, s', s');
    case HelloTimer =>
      var s1 := s.(hello := s.hello.(timer := None));
      HelloMute(s1, now);
      MuteIssues(s1, s');
      SameLogIssues(s, s1, s');
    case NeighborTimer =>
      var s1 := s.(neighborTimer := None);
      PurgeNeighborsMute(s1, now);
      MuteIssues(s1, s');
      SameLogIssues(s, s1, s');
    case TxError(hit) =>
      var s1 := s.(neighbors := CloseNeighbors(s.neighbors, hit));
      PurgeNeighborsMute(s1, now);
      MuteIssues(s1, s');
      SameLogIssues(s, s1, s');
    case RouteRequest(dst, oif) => RouteOutputMute(s, dst, oif, now); MuteIssues(s, s');
    case Forward(uid, header) => ForwardingMute(s, uid, header, now); MuteIssues(s, s');
    case Delivered(origin) => DeliverLocallyMute(s, origin, now); MuteIssues(s, s');
  }

  lemma RouteOutputMute(s: Node, dst: Addr, oif: int, now: Time)
    ensures Mute(s, RouteOutput(s, dst, oif, now))
  {
    hide Refresh, Purge;
  }

  lemma SameLogIssues(s: Node, s1: Node, s': Node)
    requires s1.log == s.log && s1.ifaces == s.ifaces && s1.ctr.requestId == s.ctr.requestId
    ensures Issues(s1, s') ==> Issues(s, s')
    ensures s' == s1 ==> Issues(s, s')
  {
  }
}
