/** Which entries an event can redirect: only those of the destinations it is about. */
module TableSteps {
  import opened Base
  import opened Messages
  import opened RouteTable
  import opened NodeState
  import opened Discovery
  import opened LinkBreak
  import opened Routes
  import opened NodeEvents
  import opened Frames
  import opened NodeFrames
  import PacketQueue

  /** The destinations whose routes the event may replace. */
  function Subjects(e: Event): set<Addr> {
    match e
    case Receipt(Some(RREQ(h)), _, _, _) => {h.origin, NO_ADDR}
    case Receipt(Some(RREP(h)), _, _, _) => if h.dst == h.origin then {} else {h.dst, NO_ADDR}
    case Output(packet) => {packet.header.dst}
    case RetryTimer(dst) => {dst}
    case Postponed(dst, _) => {dst}
    case _ => {}
  }

  ghost predicate Spares(t: Table, t': Table, about: set<Addr>) {
    forall k :: k !in about ==> Calm(t, t', k)
  }

  lemma SparesTrans(a: Table, b: Table, c: Table, x: set<Addr>, y: set<Addr>, z: set<Addr>)
    requires Spares(a, b, x) && Spares(b, c, y) && x <= z && y <= z
    ensures Spares(a, c, z)
  {
    forall k | k !in z ensures Calm(a, c, k) {
      assert Calm(a, b, k) && Calm(b, c, k);
    }
  }

  lemma EvolvesSpares(t: Table, t': Table, about: set<Addr>)
    requires Evolves(t, t', about)
    ensures Spares(t, t', about)
  {
  }

  lemma PurgeSpares(t: Table, now: Time, bad: Time, about: set<Addr>)
    ensures Spares(t, Purge(t, now, bad), about)
  {
  }

  lemma OriginateSpares(s: Node, dst: Addr, now: Time)
    ensures Spares(s.table, SendRequest(s, dst, now).table, {dst})
  {
    hide SearchEntry, ScheduleRreqRetry, Requests, RecordOwn, Purge;
    PurgeSpares(s.table, now, s.cfg.badLinkLifetime, {dst});
  }

  lemma PurgedTwiceSpares(s: Node, s1: Node, dst: Addr, now: Time)
    requires s1.table == s.Purged(now)
    ensures Spares(s.table, SendRequest(s1, dst, now).table, {dst})
  {
    hide SendRequest, Purge, Spares;
    PurgeSpares(s.table, now, s.cfg.badLinkLifetime, {dst});
    OriginateSpares(s1, dst, now);
    SparesTrans(s.table, s1.table, SendRequest(s1, dst, now).table, {dst}, {dst}, {dst});
  }

  lemma RetrySpares(s: Node, dst: Addr, now: Time)
    ensures Spares(s.table, RouteRequestTimerExpire(s, dst, now).table, {dst})
  {
    hide SendRequest, Purge, WithoutFirst, Filter, Matching, ForwardedAll;
    PurgeSpares(s.table, now, s.cfg.badLinkLifetime, {dst});
    PurgedTwiceSpares(s, s.(table := s.Purged(now)), dst, now);
  }

  lemma OutputSpares(s: Node, packet: PacketQueue.QueueEntry, now: Time)
    ensures Spares(s.table, DeferredRouteOutput(s, packet, now).table, {packet.header.dst})
  {
    hide SendRequest, Purge, PacketQueue.Enqueue, PacketQueue.Accepts;
    PurgeSpares(s.table, now, s.cfg.badLinkLifetime, {packet.header.dst});
    var queued := s.WithQueue(PacketQueue.Enqueue(s.queue, packet, s.cfg.maxQueueLen, s.cfg.queueTimeout, now));
    PurgedTwiceSpares(s, queued.(table := s.Purged(now)), packet.header.dst, now);
  }

  lemma AcceptSpares(s: Node, h: Rrep, hop: U8, sender: Addr, rcv: Iface, before: Entry, now: Time)
    ensures Spares(s.table, AcceptReply(s, h, hop, sender, rcv, before, now).table, {h.dst, NO_ADDR})
  {
    hide Purge, WithoutFirst, Filter, Matching, ForwardedAll;
    var u := if before.info.flag == IN_SEARCH then Update(s.table, ForwardEntry(h, hop, sender, rcv, now)) else s.table;
    PurgeSpares(u, now, s.cfg.badLinkLifetime, {h.dst, NO_ADDR});
    assert Spares(s.table, u, {h.dst, NO_ADDR});
    SparesTrans(s.table, u, Purge(u, now, s.cfg.badLinkLifetime), {h.dst, NO_ADDR}, {h.dst, NO_ADDR}, {h.dst, NO_ADDR});
  }

  lemma ReplySpares(s: Node, h: Rrep, ttl: U8, sender: Addr, rcv: Iface, now: Time)
    requires TableOk(s.table)
    ensures Spares(s.table, RecvReply(s, h, ttl, sender, rcv, now).table,
                   if h.dst == h.origin then {} else {h.dst, NO_ADDR})
  {
    hide Evolves, Spares, LearnFromReply, AcceptReply, ForwardReply, ProcessHello, TableOk;
    if h.dst == h.origin {
      ProcessHelloQuiet(s, h, rcv, now);
      EvolvesSpares(s.table, ProcessHello(s, h, rcv, now).table, {});
    } else if !s.IsMyOwnAddress(h.origin) {
      PassedReplyQuiet(s, h, ttl, sender, rcv, now);
      EvolvesSpares(s.table, RecvReply(s, h, ttl, sender, rcv, now).table, {h.dst, NO_ADDR});
    } else {
      var hop := Wrap8(h.hopCount + 1);
      var before := GetOr(s.Purged(now), h.dst, DefaultEntry(now));
      var s2 := LearnFromReply(s, h, hop, sender, rcv, now);
      LearnFromReplyQuiet(s, h, hop, sender, rcv, now);
      EvolvesSpares(s.table, s2.table, {h.dst});
      AcceptSpares(s2, h, hop, sender, rcv, before, now);
      SparesTrans(s.table, s2.table, AcceptReply(s2, h, hop, sender, rcv, before, now).table,
                  {h.dst}, {h.dst, NO_ADDR}, {h.dst, NO_ADDR});
    }
  }

  lemma ReceiveSpares(s: Node, msg: Option<Message>, ttl: U8, sender: Addr, rcv: Iface, now: Time)
    requires TableOk(s.table)
    ensures Spares(s.table, Receive(s, msg, ttl, sender, rcv, now).table, Subjects(Receipt(msg, ttl, sender, rcv)))
  {
    hide Evolves, Spares, RouteToNeighbor, RecvRequest, RecvReply, RecvError, RecvReplyAck, TableOk;
    var s1 := s.(table := RouteToNeighbor(s.cfg, s.table, sender, rcv, now));
    var about := Subjects(Receipt(msg, ttl, sender, rcv));
    NeighborEvolves(s.cfg, s.table, sender, rcv, now);
    EvolvesSpares(s.table, s1.table, {});
    EvolvesOk(s.table, s1.table, {});
    match msg
    case None =>
    case Some(RREQ(h)) =>
      RecvRequestQuiet(s1, h, ttl, sender, rcv, now);
      EvolvesSpares(s1.table, RecvRequest(s1, h, ttl, sender, rcv, now).table, about);
      SparesTrans(s.table, s1.table, RecvRequest(s1, h, ttl, sender, rcv, now).table, {}, about, about);
    case Some(RREP(h)) =>
      ReplySpares(s1, h, ttl, sender, rcv, now);
      SparesTrans(s.table, s1.table, RecvReply(s1, h, ttl, sender, rcv, now).table, {}, about, about);
    case Some(RERR(h)) =>
      RecvErrorQuiet(s1, h, sender, now);
      EvolvesSpares(s1.table, RecvError(s1, h, sender, now).table, {});
      SparesTrans(s.table, s1.table, RecvError(s1, h, sender, now).table, {}, {}, {});
    case Some(RREP_ACK) =>
      RecvReplyAckQuiet(s1, sender, now);
      EvolvesSpares(s1.table, RecvReplyAck(s1, sender, now).table, {});
      SparesTrans(s.table, s1.table, RecvReplyAck(s1, sender, now).table, {}, {}, {});
  }

  lemma SparesSelf(t: Table)
    ensures Spares(t, t, {})
  {
  }

  /** Whatever happens to a node, the entry of a destination that the event is
      not about keeps its next hop and hop count, goes away, or turns into a
      one-hop route because that destination was heard directly. */
  lemma EventSpares(s: Node, e: Event, now: Time)
    requires TableOk(s.table)
    ensures Spares(s.table, Apply(s, e, now).table, Subjects(e))
  {
    hide Evolves, Spares, TableOk, Receive, RouteRequestTimerExpire, PurgeNeighbors, RouteOutput, Forwarding,
         DeliverLocally, DeferredRouteOutput, SendRequest, CloseNeighbors, Hellos;
    match e
    case Receipt(msg, ttl, sender, rcv) => ReceiveSpares(s, msg, ttl, sender, rcv, now);
    case Output(packet) => OutputSpares(s, packet, now);
    case RetryTimer(dst) => RetrySpares(s.(search := s.search.(timers := s.search.timers[dst := None])), dst, now);
    case Postponed(dst, at) =>
      OriginateSpares(s.(search := s.search.(postponed := s.search.postponed - multiset{(dst, at)})), dst, now);
    case RreqReset => SparesSelf(s.table);
    case RerrReset => SparesSelf(s.table);
    case HelloTimer => SparesSelf(s.table);
    case NeighborTimer =>
      PurgeNeighborsQuiet(s.(neighborTimer := None), now);
      EvolvesSpares(s.table, Apply(s, e, now).table, {});
    case TxError(hit) =>
      PurgeNeighborsQuiet(s.(neighbors := CloseNeighbors(s.neighbors, hit)), now);
      EvolvesSpares(s.table, Apply(s, e, now).table, {});
    case RouteRequest(dst, oif) =>
      RouteOutputQuiet(s, dst, oif, now);
      EvolvesSpares(s.table, Apply(s, e, now).table, {});
    case Forward(uid, header) =>
      ForwardingQuiet(s, uid, header, now);
      EvolvesSpares(s.table, Apply(s, e, now).table, {});
    case Delivered(origin) =>
      DeliverLocallyQuiet(s, origin, now);
      EvolvesSpares(s.table, Apply(s, e, now).table, {});
  }
}
