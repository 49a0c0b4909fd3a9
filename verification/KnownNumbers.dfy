/** The number that a node keeps of another one: over whole runs it only falls
    where a message overrides it, and a node never asks for less than before
    (sections 6.1 to 6.5 of RFC 3561). */
module KnownNumbers {
  import opened Base
  import opened SeqNo
  import opened Messages
  import opened RouteTable
  import opened NodeState
  import opened Discovery
  import opened LinkBreak
  import opened Routes
  import opened NodeEvents
  import opened Frames
  import opened NodeFrames
  import opened Emissions
  import opened LoopFreedom
  import opened ReverseNumbers
  import opened TakenReplies
  import Freshness
  import opened OwnRequests
  import NodeRuns
  import PacketQueue
  import IdCaches

  // ---------------------------------------------------------------------
  // Writes that bring no number

  /** A valid number of `k` was there before. */
  ghost predicate From(t: Table, t': Table, k: Addr) {
    Numbered(t', k) ==> Numbered(t, k) && t'[k].info.seqNo == t[k].info.seqNo
  }

  lemma FromTrans(a: Table, b: Table, c: Table, k: Addr)
    requires From(a, b, k) && From(b, c, k)
    ensures From(a, c, k)
  {
  }

  lemma PurgeFrom(t: Table, now: Time, bad: Time, k: Addr)
    ensures From(t, Purge(t, now, bad), k)
  {
  }

  lemma RefreshFrom(t: Table, addr: Addr, lifetime: Time, now: Time, bad: Time, k: Addr)
    ensures From(t, Refresh(t, addr, lifetime, now, bad), k)
  {
  }

  lemma PrecursorFrom(t: Table, a: Addr, id: Addr, k: Addr, now: Time)
    requires TableOk(t)
    ensures var c := AddPrecursor(GetOr(t, a, DefaultEntry(now)), id);
            From(t, Update(t, c), k) && TableOk(Update(t, c))
  {
    PrecursorEvolves(t, a, id, now);
    if a in t { EntryAt(t, a); }
  }

  lemma BreakLinkFrom(s: Node, nextHop: Addr, now: Time, k: Addr)
    ensures From(s.table, BreakLink(s, nextHop, now).table, k)
  {
    hide SendRerrMessage, LostDestinations, LostPrecursors;
  }

  lemma {:induction false} BreakAllFrom(s: Node, lost: seq<Neighbor>, now: Time, k: Addr)
    ensures From(s.table, BreakAll(s, lost, now).table, k)
    decreases |lost|
  {
    hide BreakLink, From;
    if lost == [] {
      SelfFrom(s.table, k);
    } else {
      BreakLinkFrom(s, lost[0].addr, now, k);
      BreakAllFrom(BreakLink(s, lost[0].addr, now), lost[1..], now, k);
      FromTrans(s.table, BreakLink(s, lost[0].addr, now).table, BreakAll(s, lost, now).table, k);
    }
  }

  lemma SelfFrom(t: Table, k: Addr)
    ensures From(t, t, k)
  {
  }

  lemma NeighborsFrom(s: Node, addr: Addr, expire: Time, now: Time, k: Addr)
    ensures From(s.table, PurgeNeighbors(s, now).table, k)
    ensures From(s.table, UpdateNeighbor(s, addr, expire, now).table, k)
  {
    hide BreakAll, Filter, NeighborIndex, From;
    SelfFrom(s.table, k);
    var s1 := s.(neighbors := s.neighbors + [Neighbor(addr, expire + now, false)]);
    BreakAllFrom(s, Filter(IsClosed(now), s.neighbors), now, k);
    BreakAllFrom(s1, Filter(IsClosed(now), s1.neighbors), now, k);
  }

  lemma NeighborFrom(cfg: Config, t: Table, sender: Addr, rcv: Iface, now: Time, k: Addr)
    ensures From(t, RouteToNeighbor(cfg, t, sender, rcv, now), k)
  {
  }

  lemma RecvErrorFrom(s: Node, rerr: Rerr, src: Addr, now: Time, k: Addr)
    ensures From(s.table, RecvError(s, rerr, src, now).table, k)
  {
    hide SendRerrMessage, Affected, CollectPrecursors, SortedKeys;
  }

  // ---------------------------------------------------------------------
  // Requests

  lemma LearnFrom(s: Node, h: Rreq, hop: U8, src: Addr, rcv: Iface, now: Time, k: Addr)
    requires h.origin != k
    ensures From(s.table, LearnFromRequest(s, h, hop, src, rcv, now).table, k)
  {
    hide Purge, UpdateNeighbor, Newer;
    var bad := s.cfg.badLinkLifetime;
    var reverse := ReverseRoute(s.cfg, s.Purged(now), h, hop, src, rcv, now);
    PurgeFrom(s.table, now, bad, k);
    PurgeFrom(reverse, now, bad, k);
    var relay := RelayRoute(s.cfg, Purge(reverse, now, bad), h, src, rcv, now);
    NeighborsFrom(s.(table := relay), src, s.cfg.HelloLifetime(), now, k);
  }

  lemma UpdateFrom(t: Table, e: Entry, k: Addr)
    requires e.route.dst == k && k in t && e.info.validSeqNo ==>
               t[k].info.validSeqNo && t[k].info.seqNo == e.info.seqNo
    ensures From(t, Update(t, e), k)
  {
  }

  lemma IntermediateFrom(s: Node, toDst: Entry, toOrigin: Entry, gratuitous: bool, now: Time, k: Addr)
    requires TableOk(s.table) && toDst.route.dst in s.table && toDst == s.table[toDst.route.dst]
             && toOrigin.route.dst != k
    ensures From(s.table, SendReplyByIntermediateNode(s, toDst, toOrigin, gratuitous, now).table, k)
  {
    hide Update, From, TableOk;
    var d := AddPrecursor(toDst, toOrigin.route.nextHop);
    var o := AddPrecursor(toOrigin, toDst.route.nextHop);
    UpdateFrom(s.table, d, k);
    UpdateFrom(Update(s.table, d), o, k);
    FromTrans(s.table, Update(s.table, d), Update(Update(s.table, d), o), k);
  }

  lemma AnswerFrom(s: Node, h: Rreq, hop: U8, ttl: U8, src: Addr, stale: Entry, now: Time, k: Addr)
    requires TableOk(s.table) && stale.route.dst != k && h.origin != k
    ensures From(s.table, AnswerRequest(s, h, hop, ttl, src, stale, now).table, k)
  {
    hide Purge, TableOk, Relayed, KnowsDestination, SendReplyByIntermediateNode, From;
    var s1 := s.(table := s.Purged(now));
    PurgedQuiet(s, now);
    QuietOk(s, s1, {}, now);
    PurgeFrom(s.table, now, s.cfg.badLinkLifetime, k);
    if h.origin in s1.table { EntryAt(s1.table, h.origin); }
    if h.dst in s1.table {
      EntryAt(s1.table, h.dst);
      var o := GetOr(s1.table, h.origin, stale);
      IntermediateFrom(s1, s1.table[h.dst], o, h.gratuitous, now, k);
      FromTrans(s.table, s1.table, SendReplyByIntermediateNode(s1, s1.table[h.dst], o, h.gratuitous, now).table, k);
    }
  }

  lemma StaleAbout(s: Node, h: Rreq, hop: U8, src: Addr, rcv: Iface, now: Time)
    requires TableOk(s.table)
    ensures StaleEntry(s, h, hop, src, rcv, now).route.dst in {h.origin, NO_ADDR}
  {
    StaleEntryOk(s, h, hop, src, rcv, now);
  }

  /** A request of another node, or one that is dropped, brings no number. */
  lemma RequestFrom(s: Node, h: Rreq, ttl: U8, src: Addr, rcv: Iface, now: Time, k: Addr)
    requires TableOk(s.table) && k != NO_ADDR && (h.origin != k || !Accepts(s, h, src, now))
    ensures From(s.table, RecvRequest(s, h, ttl, src, rcv, now).table, k)
  {
    hide LearnFromRequest, AnswerRequest, Purge, From, TableOk, StaleEntry, IdCaches.Record, IdCaches.Duplicate;
    RecvRequestSends(s, h, ttl, src, rcv, now);
    var p := s.Purged(now);
    PurgeFrom(s.table, now, s.cfg.badLinkLifetime, k);
    PurgedQuiet(s, now);
    QuietOk(s, s.(table := p), {}, now);
    if Accepts(s, h, src, now) {
      var r, hop := Recorded(s, h, now), Wrap8(h.hopCount + 1);
      var s2 := LearnFromRequest(r, h, hop, src, rcv, now);
      LearnFrom(r, h, hop, src, rcv, now, k);
      LearnQuiet(r, h, hop, src, rcv, now);
      QuietOk(r, s2, {h.origin}, now);
      StaleAbout(r, h, hop, src, rcv, now);
      AnswerFrom(s2, h, hop, ttl, src, StaleEntry(r, h, hop, src, rcv, now), now, k);
      FromTrans(s.table, p, s2.table, k);
      FromTrans(s.table, s2.table, ProcessRequest(r, h, ttl, src, rcv, now).table, k);
    }
  }

  // ---------------------------------------------------------------------
  // Replies

  lemma ForwardFrom(s: Node, h: Rrep, hop: U8, sender: Addr, rcv: Iface, now: Time, k: Addr)
    requires h.dst != k
    ensures From(s.table, LearnFromReply(s, h, hop, sender, rcv, now).table, k)
  {
    hide Fresher;
  }

  lemma AcceptFrom(s: Node, h: Rrep, hop: U8, sender: Addr, rcv: Iface, before: Entry, now: Time, k: Addr)
    requires h.dst != k || before.info.flag != IN_SEARCH
    ensures From(s.table, AcceptReply(s, h, hop, sender, rcv, before, now).table, k)
  {
    hide SendPacketFromQueue, Update, From, Purge;
    var e := ForwardEntry(h, hop, sender, rcv, now);
    var u := if before.info.flag == IN_SEARCH then Update(s.table, e) else s.table;
    SelfFrom(s.table, k);
    if before.info.flag == IN_SEARCH { UpdateFrom(s.table, e, k); }
    PurgeFrom(u, now, s.cfg.badLinkLifetime, k);
    FromTrans(s.table, u, Purge(u, now, s.cfg.badLinkLifetime), k);
    Freshness.FlushTable(EndSearch(s, h, hop, sender, rcv, before.info.flag == IN_SEARCH, now), h.dst, now);
  }

  lemma ConnectFrom(t: Table, dst: Addr, toOrigin: Entry, now: Time, k: Addr)
    requires TableOk(t) && dst in t && Distinct(toOrigin.info.precursors) && k != NO_ADDR
    requires toOrigin.route.dst == k && k in t && toOrigin.info.validSeqNo ==>
               t[k].info.validSeqNo && t[k].info.seqNo == toOrigin.info.seqNo
    ensures From(t, ConnectPrecursors(t, dst, toOrigin, now), k)
  {
    hide Update, TableOk;
    var toDst := AddPrecursor(t[dst], toOrigin.route.nextHop);
    PrecursorFrom(t, dst, toOrigin.route.nextHop, k, now);
    PrecursorSeqNo(t, dst, toOrigin.route.nextHop, k, now);
    var t1 := Update(t, toDst);
    PrecursorFrom(t1, toDst.route.nextHop, toOrigin.route.nextHop, k, now);
    PrecursorSeqNo(t1, toDst.route.nextHop, toOrigin.route.nextHop, k, now);
    var t2 := Update(t1, AddPrecursor(GetOr(t1, toDst.route.nextHop, DefaultEntry(now)), toOrigin.route.nextHop));
    var o := AddPrecursor(toOrigin, toDst.route.nextHop);
    UpdateKeys(t, toDst);
    UpdateKeys(t1, AddPrecursor(GetOr(t1, toDst.route.nextHop, DefaultEntry(now)), toOrigin.route.nextHop));
    UpdateFrom(t2, o, k);
    Freshness.UpdateOk(t2, o);
    PrecursorFrom(Update(t2, o), o.route.nextHop, toDst.route.nextHop, k, now);
  }

  lemma PrecursorSeqNo(t: Table, a: Addr, id: Addr, k: Addr, now: Time)
    requires TableOk(t)
    ensures var t' := Update(t, AddPrecursor(GetOr(t, a, DefaultEntry(now)), id));
            Numbered(t, k) && k != NO_ADDR ==> Numbered(t', k) && t'[k].info.seqNo == t[k].info.seqNo
  {
    if a in t { EntryAt(t, a); }
  }

  lemma PassedFrom(s: Node, h: Rrep, hop: U8, ttl: U8, now: Time, k: Addr)
    requires TableOk(s.table) && k != NO_ADDR
    ensures From(s.table, ForwardReply(s, h, hop, ttl, now).table, k)
  {
    hide Purge, Update, ConnectPrecursors, TableOk, From;
    var p, bad := s.Purged(now), s.cfg.badLinkLifetime;
    PurgeFrom(s.table, now, bad, k);
    PurgedQuiet(s, now);
    QuietOk(s, s.(table := p), {}, now);
    if h.origin in p && p[h.origin].info.flag != IN_SEARCH {
      EntryAt(p, h.origin);
      var toOrigin := Extended(s.cfg, p[h.origin], now);
      UpdateFrom(p, toOrigin, k);
      var t := Purge(Update(p, toOrigin), now, bad);
      PurgeFrom(Update(p, toOrigin), now, bad, k);
      FromTrans(s.table, p, Update(p, toOrigin), k);
      FromTrans(s.table, Update(p, toOrigin), t, k);
      ExtendEvolves(s.cfg, p, h.origin, now);
      EvolvesOk(p, t, {});
      if IsValid(t, h.dst) {
        ExtendedNumber(p, toOrigin, now, bad);
        ConnectFrom(t, h.dst, toOrigin, now, k);
        FromTrans(s.table, t, ConnectPrecursors(t, h.dst, toOrigin, now), k);
      }
    }
  }

  lemma ExtendedNumber(p: Table, e: Entry, now: Time, bad: Time)
    requires e.route.dst in p
    ensures var t := Purge(Update(p, e), now, bad);
            e.route.dst in t ==> t[e.route.dst].info.validSeqNo == e.info.validSeqNo
                                 && t[e.route.dst].info.seqNo == e.info.seqNo
  {
  }

  lemma HelloFrom(s: Node, h: Rrep, rcv: Iface, now: Time, k: Addr)
    ensures var t := ProcessHello(s, h, rcv, now).table;
            if h.dst == k then Numbered(t, k) ==> t[k].info.seqNo == h.dstSeqNo else From(s.table, t, k)
  {
    hide Purge, UpdateNeighbor;
    PurgeFrom(s.table, now, s.cfg.badLinkLifetime, k);
    NeighborsFrom(s.(table := HelloTable(s, h, rcv, now)), h.dst, s.cfg.HelloLifetime(), now, k);
  }

  /** A reply about another node, or one that is not taken over, brings no number. */
  lemma ReplyFrom(s: Node, h: Rrep, ttl: U8, sender: Addr, rcv: Iface, now: Time, k: Addr)
    requires TableOk(s.table) && k != NO_ADDR && h.dst != h.origin && (h.dst == k ==> !TakenOver(s, h, now))
    ensures From(s.table, RecvReply(s, h, ttl, sender, rcv, now).table, k)
  {
    hide LearnFromReply, AcceptReply, ForwardReply, From, TableOk, Purge, Fresher;
    var hop := Wrap8(h.hopCount + 1);
    var s2 := LearnFromReply(s, h, hop, sender, rcv, now);
    var before := GetOr(s.Purged(now), h.dst, DefaultEntry(now));
    LearnFromReplyQuiet(s, h, hop, sender, rcv, now);
    QuietOk(s, s2, {h.dst}, now);
    if h.dst == k { RefusedFrom(s, h, sender, rcv, now); } else { ForwardFrom(s, h, hop, sender, rcv, now, k); }
    if s.IsMyOwnAddress(h.origin) {
      AcceptFrom(s2, h, hop, sender, rcv, before, now, k);
      FromTrans(s.table, s2.table, AcceptReply(s2, h, hop, sender, rcv, before, now).table, k);
    } else {
      PassedFrom(s2, h, hop, ttl, now, k);
      FromTrans(s.table, s2.table, ForwardReply(s2, h, hop, ttl, now).table, k);
    }
  }

  lemma RefusedFrom(s: Node, h: Rrep, sender: Addr, rcv: Iface, now: Time)
    requires !TakenOver(s, h, now)
    ensures From(s.table, LearnFromReply(s, h, Wrap8(h.hopCount + 1), sender, rcv, now).table, h.dst)
  {
    hide Fresher;
  }

  // ---------------------------------------------------------------------
  // Everything else

  lemma AckFrom(s: Node, neighbor: Addr, now: Time, k: Addr)
    ensures From(s.table, RecvReplyAck(s, neighbor, now).table, k)
  {
  }

  lemma SendRequestFrom(s: Node, dst: Addr, now: Time, k: Addr)
    ensures From(s.table, SendRequest(s, dst, now).table, k)
  {
    hide ScheduleRreqRetry, Requests, RecordOwn, NextTtl;
  }

  lemma RetryFrom(s: Node, dst: Addr, now: Time, k: Addr)
    ensures From(s.table, RouteRequestTimerExpire(s, dst, now).table, k)
  {
    hide SendRequest, Purge, WithoutFirst, Filter, Matching, ForwardedAll;
    var s1 := s.(table := s.Purged(now));
    PurgeFrom(s.table, now, s.cfg.badLinkLifetime, k);
    SendRequestFrom(s1, dst, now, k);
  }

  lemma OutputFrom(s: Node, packet: PacketQueue.QueueEntry, now: Time, k: Addr)
    ensures From(s.table, DeferredRouteOutput(s, packet, now).table, k)
  {
    hide SendRequest, Purge, PacketQueue.Enqueue, PacketQueue.Accepts;
    var queued := s.WithQueue(PacketQueue.Enqueue(s.queue, packet, s.cfg.maxQueueLen, s.cfg.queueTimeout, now));
    PurgeFrom(s.table, now, s.cfg.badLinkLifetime, k);
    SendRequestFrom(queued.(table := s.Purged(now)), packet.header.dst, now, k);
  }

  lemma RouteOutputFrom(s: Node, dst: Addr, oif: int, now: Time, k: Addr)
    ensures From(s.table, RouteOutput(s, dst, oif, now).table, k)
  {
    hide Refresh, Purge;
    var p, life, bad := s.Purged(now), s.cfg.activeRouteTimeout, s.cfg.badLinkLifetime;
    PurgeFrom(s.table, now, bad, k);
    RefreshFrom(p, dst, life, now, bad, k);
    if dst in p { RefreshFrom(Refresh(p, dst, life, now, bad), p[dst].route.nextHop, life, now, bad, k); }
  }

  lemma UseRouteFrom(s: Node, origin: Addr, dst: Addr, now: Time, k: Addr)
    ensures From(s.table, UseRoute(s, origin, dst, now).table, k)
  {
    hide Refresh, Purge, UpdateNeighbor;
    var p, life, bad := s.Purged(now), s.cfg.activeRouteTimeout, s.cfg.badLinkLifetime;
    PurgeFrom(s.table, now, bad, k);
    PurgeFrom(p, now, bad, k);
    if IsValid(p, dst) {
      var gateway := p[dst].route.nextHop;
      var t0 := Refresh(p, origin, life, now, bad);
      var t1 := Refresh(t0, dst, life, now, bad);
      var t2 := Refresh(t1, gateway, life, now, bad);
      var back := GetOr(t2, origin, DefaultEntry(now)).route.nextHop;
      RefreshFrom(p, origin, life, now, bad, k);
      RefreshFrom(t0, dst, life, now, bad, k);
      RefreshFrom(t1, gateway, life, now, bad, k);
      RefreshFrom(t2, back, life, now, bad, k);
      var s1 := s.(table := Refresh(t2, back, life, now, bad));
      NeighborsFrom(s1, gateway, life, now, k);
      NeighborsFrom(UpdateNeighbor(s1, gateway, life, now), back, life, now, k);
    }
  }

  lemma DeliverFrom(s: Node, origin: Addr, now: Time, k: Addr)
    ensures From(s.table, DeliverLocally(s, origin, now).table, k)
  {
    hide Refresh, UpdateNeighbor;
    var life, bad := s.cfg.activeRouteTimeout, s.cfg.badLinkLifetime;
    var t := Refresh(s.table, origin, life, now, bad);
    RefreshFrom(s.table, origin, life, now, bad, k);
    if IsValid(t, origin) {
      var back := t[origin].route.nextHop;
      RefreshFrom(t, back, life, now, bad, k);
      NeighborsFrom(s.(table := Refresh(t, back, life, now, bad)), back, life, now, k);
    }
  }

  // ---------------------------------------------------------------------
  // Any event

  /** The number that the event may bring about `o`. */
  function Brought(e: Event, o: Addr): Option<U32> {
    match e
    case Receipt(Some(RREQ(h)), _, _, _) => if h.origin == o then Some(h.originSeqNo) else None
    case Receipt(Some(RREP(h)), _, _, _) => if h.dst == o then Some(h.dstSeqNo) else None
    case _ => None
  }

  lemma EventFrom(s: Node, e: Event, now: Time, o: Addr)
    requires TableOk(s.table) && o != NO_ADDR && Brought(e, o).None?
    ensures From(s.table, Apply(s, e, now).table, o)
  {
    hide From, TableOk, RouteToNeighbor, RecvRequest, RecvReply, RecvError, RecvReplyAck, RouteRequestTimerExpire,
         PurgeNeighbors, RouteOutput, UseRoute, DeliverLocally, DeferredRouteOutput, SendRequest, CloseNeighbors,
         Hellos, Evolves, Purge;
    match e
    case Receipt(msg, ttl, sender, rcv) => ReceiveFrom(s, msg, ttl, sender, rcv, now, o);
    case Output(packet) => OutputFrom(s, packet, now, o);
    case RetryTimer(dst) => RetryFrom(s.(search := s.search.(timers := s.search.timers[dst := None])), dst, now, o);
    case Postponed(dst, at) =>
      SendRequestFrom(s.(search := s.search.(postponed := s.search.postponed - multiset{(dst, at)})), dst, now, o);
    case RreqReset => SelfFrom(s.table, o);
    case RerrReset => SelfFrom(s.table, o);
    case HelloTimer => SelfFrom(s.table, o);
    case NeighborTimer => NeighborsFrom(s.(neighborTimer := None), 0, 0, now, o);
    case TxError(hit) => NeighborsFrom(s.(neighbors := CloseNeighbors(s.neighbors, hit)), 0, 0, now, o);
    case RouteRequest(dst, oif) => RouteOutputFrom(s, dst, oif, now, o);
    case Forward(uid, header) => UseRouteFrom(s, header.src, header.dst, now, o);
    case Delivered(origin) => DeliverFrom(s, origin, now, o);
  }

  lemma ReceiveFrom(s: Node, msg: Option<Message>, ttl: U8, sender: Addr, rcv: Iface, now: Time, o: Addr)
    requires TableOk(s.table) && o != NO_ADDR
    requires match msg
             case Some(RREQ(h)) => h.origin != o || !Accepts(Met(s, sender, rcv, now), h, sender, now)
             case Some(RREP(h)) => h.dst != o || (h.dst != h.origin && !TakenOver(Met(s, sender, rcv, now), h, now))
             case _ => true
    ensures From(s.table, Receive(s, msg, ttl, sender, rcv, now).table, o)
  {
    hide From, TableOk, RouteToNeighbor, RecvRequest, RecvReply, RecvError, RecvReplyAck, Evolves, Purge, Accepts,
         TakenOver;
    var s1 := Met(s, sender, rcv, now);
    NeighborEvolves(s.cfg, s.table, sender, rcv, now);
    EvolvesOk(s.table, s1.table, {});
    NeighborFrom(s.cfg, s.table, sender, rcv, now, o);
    match msg
    case None =>
    case Some(RREQ(h)) =>
      RequestFrom(s1, h, ttl, sender, rcv, now, o);
      FromTrans(s.table, s1.table, RecvRequest(s1, h, ttl, sender, rcv, now).table, o);
    case Some(RREP(h)) =>
      if h.dst == h.origin { HelloReplyFrom(s1, h, ttl, sender, rcv, now, o); }
      else { ReplyFrom(s1, h, ttl, sender, rcv, now, o); }
      FromTrans(s.table, s1.table, RecvReply(s1, h, ttl, sender, rcv, now).table, o);
    case Some(RERR(h)) =>
      RecvErrorFrom(s1, h, sender, now, o);
      FromTrans(s.table, s1.table, RecvError(s1, h, sender, now).table, o);
    case Some(RREP_ACK) =>
      AckFrom(s1, sender, now, o);
      FromTrans(s.table, s1.table, RecvReplyAck(s1, sender, now).table, o);
  }

  lemma HelloReplyFrom(s: Node, h: Rrep, ttl: U8, sender: Addr, rcv: Iface, now: Time, k: Addr)
    requires h.dst == h.origin
    ensures var t := RecvReply(s, h, ttl, sender, rcv, now).table;
            if h.dst == k then Numbered(t, k) ==> t[k].info.seqNo == h.dstSeqNo else From(s.table, t, k)
  {
    hide ProcessHello, From;
    HelloFrom(s, h, rcv, now, k);
  }

  // ---------------------------------------------------------------------
  // When the number falls

  /** How far the number is ahead of `base` around the circle. */
  function Ahead(base: U32, n: U32): U32 { Wrap32(n - base) }

  /** Within half a turn from `base` on, the comparison is that of the distances. */
  lemma AheadIsNewer(base: U32, a: U32, b: U32)
    requires Ahead(base, a) < HALF && Ahead(base, b) < HALF
    ensures Newer(a, b) <==> Ahead(base, a) > Ahead(base, b)
    ensures a == b <==> Ahead(base, a) == Ahead(base, b)
  {
    var x: nat, y: nat := base + Ahead(base, a), base + Ahead(base, b);
    assert a == Wrap32(x) && b == Wrap32(y);
    NewerIsCounterOrder(x, y);
  }

  /** The event is a reply about `o` whose number is taken over whatever is known:
      a hello, one that finds the number lost to the update of the sender's own
      route, or one that ends a search. */
  ghost predicate Overrides(s: Node, e: Event, now: Time, o: Addr) {
    match e
    case Receipt(Some(RREP(h)), _, sender, rcv) =>
      && h.dst == o
      && var s1 := Met(s, sender, rcv, now); var p := s1.Purged(now);
         h.origin == o || !Numbered(p, o) || (p[o].info.flag == IN_SEARCH && s.IsMyOwnAddress(h.origin))
    case _ => false
  }

  /** The number about `o` stays valid throughout the event. */
  predicate StaysNumbered(s: Node, e: Event, now: Time, o: Addr) {
    Numbered(s.Purged(now), o) && Numbered(Apply(s, e, now).table, o)
  }

  /** All that is said about `o` lies within half a turn from `base` on. */
  predicate InWindow(s: Node, e: Event, o: Addr, base: U32) {
    && (Numbered(s.table, o) ==> Ahead(base, s.table[o].info.seqNo) < HALF)
    && (Brought(e, o).Some? ==> Ahead(base, Brought(e, o).value) < HALF)
  }

  ghost predicate Falls(s: Node, e: Event, now: Time, o: Addr, base: U32)
    requires Numbered(s.table, o) && Numbered(Apply(s, e, now).table, o)
  {
    Ahead(base, Apply(s, e, now).table[o].info.seqNo) < Ahead(base, s.table[o].info.seqNo)
  }

  /** An older number overrides the known one. */
  ghost predicate Overridden(s: Node, e: Event, now: Time, o: Addr, base: U32) {
    && Overrides(s, e, now, o) && Numbered(s.table, o)
    && Ahead(base, e.msg.value.rrep.dstSeqNo) < Ahead(base, s.table[o].info.seqNo)
  }

  lemma MetNumbered(s: Node, sender: Addr, rcv: Iface, now: Time, o: Addr)
    requires s.cfg.badLinkLifetime >= 0 && Numbered(s.Purged(now), o)
    ensures var p := Met(s, sender, rcv, now).Purged(now);
            && (Numbered(p, o) ==> p[o].info.seqNo == s.table[o].info.seqNo) && Numbered(s.table, o)
            && (sender != o ==> Numbered(p, o))
  {
    PurgeTwice(s.table, now, s.cfg.badLinkLifetime);
  }

  lemma RequestNumbers(s: Node, h: Rreq, ttl: U8, src: Addr, rcv: Iface, now: Time, base: U32)
    requires TableOk(s.table) && s.cfg.badLinkLifetime >= 0 && h.origin != NO_ADDR && src != h.origin
    requires Accepts(Met(s, src, rcv, now), h, src, now) && Numbered(s.Purged(now), h.origin)
    requires Numbered(s.table, h.origin) && Ahead(base, s.table[h.origin].info.seqNo) < HALF
    requires Ahead(base, h.originSeqNo) < HALF
    ensures var t := Receive(s, Some(RREQ(h)), ttl, src, rcv, now).table;
            h.origin in t && Ahead(base, t[h.origin].info.seqNo) >= Ahead(base, s.table[h.origin].info.seqNo)
  {
    hide Receive, Accepts, TableOk, Met, Purge, Newer;
    MetNumbered(s, src, rcv, now, h.origin);
    var a, b := s.table[h.origin].info.seqNo, h.originSeqNo;
    var x: nat, y: nat := base + Ahead(base, a), base + Ahead(base, b);
    assert a == Wrap32(x) && b == Wrap32(y);
    OriginNumber(s, h, ttl, src, rcv, now, x, y);
  }

  lemma ReplyNumbers(s: Node, h: Rrep, ttl: U8, sender: Addr, rcv: Iface, now: Time, base: U32)
    requires TableOk(s.table) && s.cfg.badLinkLifetime >= 0 && h.dst != NO_ADDR && h.dst != h.origin
    requires Numbered(s.Purged(now), h.dst) && Numbered(s.table, h.dst)
    requires Ahead(base, s.table[h.dst].info.seqNo) < HALF && Ahead(base, h.dstSeqNo) < HALF
    ensures var e := Receipt(Some(RREP(h)), ttl, sender, rcv); var t := Apply(s, e, now).table;
            Numbered(t, h.dst) ==>
              if Overrides(s, e, now, h.dst) then t[h.dst].info.seqNo == h.dstSeqNo
              else Ahead(base, t[h.dst].info.seqNo) >= Ahead(base, s.table[h.dst].info.seqNo)
  {
    hide Receive, TableOk, Met, Purge, Newer;
    MetNumbered(s, sender, rcv, now, h.dst);
    AheadIsNewer(base, h.dstSeqNo, s.table[h.dst].info.seqNo);
    MetOwn(s, sender, rcv, now, h.origin);
    if TakenOver(Met(s, sender, rcv, now), h, now) {
      ReplyRoutes(s, h, ttl, sender, rcv, now);
    } else {
      ReceiveFrom(s, Some(RREP(h)), ttl, sender, rcv, now, h.dst);
    }
  }

  lemma MetOwn(s: Node, sender: Addr, rcv: Iface, now: Time, a: Addr)
    ensures Met(s, sender, rcv, now).IsMyOwnAddress(a) <==> s.IsMyOwnAddress(a)
  {
    hide RouteToNeighbor;
  }

  lemma HelloNumbers(s: Node, h: Rrep, ttl: U8, sender: Addr, rcv: Iface, now: Time)
    requires h.dst == h.origin
    ensures var t := Receive(s, Some(RREP(h)), ttl, sender, rcv, now).table;
            Numbered(t, h.dst) ==> t[h.dst].info.seqNo == h.dstSeqNo
  {
    hide RecvReply, RouteToNeighbor;
    HelloReplyFrom(Met(s, sender, rcv, now), h, ttl, sender, rcv, now, h.dst);
  }

  /** As long as the number about a node stays valid, an event makes it fall
      exactly when a message with an older one overrides it. */
  lemma StepExactly(s: Node, e: Event, now: Time, o: Addr, base: U32)
    requires TableOk(s.table) && s.cfg.badLinkLifetime >= 0 && o != NO_ADDR
    requires StaysNumbered(s, e, now, o) && InWindow(s, e, o, base)
    ensures Numbered(s.table, o) && (Falls(s, e, now, o, base) <==> Overridden(s, e, now, o, base))
  {
    hide Apply, TableOk, Purge, From, Overrides, Ahead, RouteToNeighbor, Accepts;
    PurgeFrom(s.table, now, s.cfg.badLinkLifetime, o);
    FromNumber(s.table, s.Purged(now), o);
    match e
    case Receipt(Some(RREQ(h)), ttl, sender, rcv) => RequestFalls(s, h, ttl, sender, rcv, now, o, base);
    case Receipt(Some(RREP(h)), ttl, sender, rcv) => ReplyFalls(s, h, ttl, sender, rcv, now, o, base);
    case _ =>
      EventFrom(s, e, now, o);
      FromNumber(s.table, Apply(s, e, now).table, o);
      NotOverridden(s, e, now, o);
  }

  lemma FromNumber(t: Table, t': Table, o: Addr)
    requires From(t, t', o) && Numbered(t', o)
    ensures Numbered(t, o) && t'[o].info.seqNo == t[o].info.seqNo
  {
  }

  lemma NotOverridden(s: Node, e: Event, now: Time, o: Addr)
    requires !(e.Receipt? && e.msg.Some? && e.msg.value.RREP? && e.msg.value.rrep.dst == o)
    ensures !Overrides(s, e, now, o)
  {
    hide Purge, RouteToNeighbor;
  }

  lemma RequestFalls(s: Node, h: Rreq, ttl: U8, src: Addr, rcv: Iface, now: Time, o: Addr, base: U32)
    requires TableOk(s.table) && s.cfg.badLinkLifetime >= 0 && o != NO_ADDR && Numbered(s.table, o)
    requires var e := Receipt(Some(RREQ(h)), ttl, src, rcv); StaysNumbered(s, e, now, o) && InWindow(s, e, o, base)
    ensures var e := Receipt(Some(RREQ(h)), ttl, src, rcv);
            !Falls(s, e, now, o, base) && !Overridden(s, e, now, o, base)
  {
    hide Receive, TableOk, Purge, From, Overrides, Ahead, RouteToNeighbor, Accepts;
    var e := Receipt(Some(RREQ(h)), ttl, src, rcv);
    NotOverridden(s, e, now, o);
    if h.origin == o && Accepts(Met(s, src, rcv, now), h, src, now) {
      if src == o {
        var learned := RequestTeaches(s, h, ttl, src, rcv, now);
      } else {
        RequestNumbers(s, h, ttl, src, rcv, now, base);
      }
    } else {
      ReceiveFrom(s, Some(RREQ(h)), ttl, src, rcv, now, o);
      FromNumber(s.table, Apply(s, e, now).table, o);
    }
  }

  lemma ReplyFalls(s: Node, h: Rrep, ttl: U8, sender: Addr, rcv: Iface, now: Time, o: Addr, base: U32)
    requires TableOk(s.table) && s.cfg.badLinkLifetime >= 0 && o != NO_ADDR && Numbered(s.table, o)
    requires Numbered(s.Purged(now), o) ==> s.Purged(now)[o].info.seqNo == s.table[o].info.seqNo
    requires var e := Receipt(Some(RREP(h)), ttl, sender, rcv); StaysNumbered(s, e, now, o) && InWindow(s, e, o, base)
    ensures var e := Receipt(Some(RREP(h)), ttl, sender, rcv);
            Falls(s, e, now, o, base) <==> Overridden(s, e, now, o, base)
  {
    hide Receive, TableOk, Purge, From, Overrides, Ahead, RouteToNeighbor;
    var e := Receipt(Some(RREP(h)), ttl, sender, rcv);
    if h.dst != o {
      NotOverridden(s, e, now, o);
      ReceiveFrom(s, Some(RREP(h)), ttl, sender, rcv, now, o);
      FromNumber(s.table, Apply(s, e, now).table, o);
    } else if h.dst == h.origin {
      HelloOverrides(s, h, ttl, sender, rcv, now);
      HelloNumbers(s, h, ttl, sender, rcv, now);
    } else {
      ReplyNumbers(s, h, ttl, sender, rcv, now, base);
    }
  }

  lemma HelloOverrides(s: Node, h: Rrep, ttl: U8, sender: Addr, rcv: Iface, now: Time)
    requires h.dst == h.origin
    ensures Overrides(s, Receipt(Some(RREP(h)), ttl, sender, rcv), now, h.dst)
  {
    hide Purge, RouteToNeighbor;
  }

  // ---------------------------------------------------------------------
  // Whole runs

  /** The number about `o` stays valid, and all that is said about it is in the window. */
  ghost predicate Watched(s: Node, run: seq<(Event, Time)>, o: Addr, base: U32)
    decreases |run|
  {
    run != [] ==>
      && StaysNumbered(s, run[0].0, run[0].1, o) && InWindow(s, run[0].0, o, base)
      && Numbered(s.table, o) && s.cfg.badLinkLifetime >= 0
      && Watched(Apply(s, run[0].0, run[0].1), run[1..], o, base)
  }

  ghost predicate NeverFalls(s: Node, run: seq<(Event, Time)>, o: Addr, base: U32)
    requires Watched(s, run, o, base)
    decreases |run|
  {
    run != [] ==>
      && !Falls(s, run[0].0, run[0].1, o, base)
      && NeverFalls(Apply(s, run[0].0, run[0].1), run[1..], o, base)
  }

  ghost predicate NeverOverridden(s: Node, run: seq<(Event, Time)>, o: Addr, base: U32)
    decreases |run|
  {
    run != [] ==>
      && !Overridden(s, run[0].0, run[0].1, o, base)
      && NeverOverridden(Apply(s, run[0].0, run[0].1), run[1..], o, base)
  }

  /** Over every run in which the number about a node stays valid, it never falls
      exactly when no message with an older number overrides it. */
  lemma {:induction false} RunExactly(s: Node, run: seq<(Event, Time)>, o: Addr, base: U32)
    requires TableOk(s.table) && o != NO_ADDR && Watched(s, run, o, base)
    ensures NeverFalls(s, run, o, base) <==> NeverOverridden(s, run, o, base)
    decreases |run|
  {
    hide Apply, TableOk, StaysNumbered, Overridden, Falls, InWindow;
    if run != [] {
      StepExactly(s, run[0].0, run[0].1, o, base);
      NodeRuns.StepTableOk(s, run[0].0, run[0].1);
      RunExactly(Apply(s, run[0].0, run[0].1), run[1..], o, base);
    }
  }

  lemma {:induction false} RunRises(s: Node, run: seq<(Event, Time)>, o: Addr, base: U32)
    requires Watched(s, run, o, base) && NeverFalls(s, run, o, base) && Numbered(s.table, o)
    ensures var t := RunAll(s, run).table;
            Numbered(t, o) && Ahead(base, t[o].info.seqNo) >= Ahead(base, s.table[o].info.seqNo)
    decreases |run|
  {
    hide Apply;
    if run != [] {
      RunRises(Apply(s, run[0].0, run[0].1), run[1..], o, base);
    }
  }

  /** So a node's requests for a destination never ask for an older number than
      the ones before, as long as it keeps a valid one and none is overridden. */
  lemma NeverAsksForLess(s: Node, e: Event, now: Time, h: Rreq, run: seq<(Event, Time)>, e': Event, now': Time,
                         h': Rreq, base: U32)
    requires SendsOwn(s, e, now, h) && Numbered(s.table, h.dst) && h'.dst == h.dst != NO_ADDR && TableOk(s.table)
    requires var all := [(e, now)] + run;
             && Watched(s, all, h.dst, base) && NeverOverridden(s, all, h.dst, base)
             && var s1 := RunAll(s, all);
                SendsOwn(s1, e', now', h') && s1.cfg.badLinkLifetime >= 0 && StaysNumbered(s1, e', now', h.dst)
    ensures !h.unknownSeqNo && !h'.unknownSeqNo && Ahead(base, h'.dstSeqNo) >= Ahead(base, h.dstSeqNo)
  {
    hide Apply, TableOk, SendsOwn, Overridden, Falls, Purge, Ahead, RunAll;
    var all := [(e, now)] + run;
    var s1 := RunAll(s, all);
    RunExactly(s, all, h.dst, base);
    RunRises(s, all, h.dst, base);
    OwnRaises(s, e, now, h);
    OwnRaises(s1, e', now', h');
    PurgeFrom(s.table, now, s.cfg.badLinkLifetime, h.dst);
    PurgeFrom(s1.table, now', s1.cfg.badLinkLifetime, h.dst);
  }
}
