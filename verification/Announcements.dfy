/** What a hello says, and what the node that hears it knows afterwards (section
    6.9 of RFC 3561). */
module Announcements {
  import opened Base
  import opened Messages
  import opened RouteTable
  import opened NodeState
  import opened LinkBreak
  import opened Routes
  import opened NodeEvents
  import opened Frames
  import opened NodeFrames
  import opened LoopFreedom
  import opened Emissions
  import opened Discovery
  import opened NeighborWatch
  import OwnRequests
  import PacketQueue
  import IdCaches

  // ---------------------------------------------------------------------
  // Sending

  /** The node's own address and latest number, for the time that a neighbour may
      stay silent; no other node passes it on. */
  ghost predicate Announces(s: Node, iface: Iface, m: Sent) {
    && m.msg.RREP? && m.iface == iface && m.to == iface.BroadcastTarget() && m.ttl == 1
    && var h := m.msg.rrep;
       && h.dst == iface.local && h.origin == iface.local && h.dstSeqNo == s.ctr.seqNo && h.hopCount == 0
       && !h.ackRequired && h.lifeTime == ToMilliseconds(s.cfg.allowedHelloLoss * s.cfg.helloInterval)
  }

  lemma {:induction false} HellosAnnounce(s: Node, ifaces: seq<Iface>)
    ensures |Hellos(s, ifaces)| == |ifaces|
    ensures forall i :: 0 <= i < |ifaces| ==> Announces(s, ifaces[i], Hellos(s, ifaces)[i])
    decreases |ifaces|
  {
    hide ToMilliseconds;
    if ifaces != [] {
      HellosAnnounce(s, ifaces[1..]);
      forall i | 0 <= i < |ifaces| ensures Announces(s, ifaces[i], Hellos(s, ifaces)[i]) {
        if i > 0 { assert ifaces[i] == ifaces[1..][i - 1] && Hellos(s, ifaces)[i] == Hellos(s, ifaces[1..])[i - 1]; }
      }
    }
  }

  /** Nothing is sent when a broadcast stood in for the hello, and otherwise one
      announcement on each interface and nothing else. */
  lemma HelloExactly(s: Node, now: Time)
    ensures var s' := Apply(s, HelloTimer, now);
            && s.log.sent <= s'.log.sent && s'.ctr == s.ctr && s'.table == s.table
            && |s'.log.sent| == |s.log.sent| + (if s.hello.lastBcast > 0 then 0 else |s.ifaces|)
            && forall i :: 0 <= i < |s'.log.sent| - |s.log.sent| ==>
                 Announces(s, s.ifaces[i], s'.log.sent[|s.log.sent| + i])
  {
    hide Hellos, Announces;
    var s1 := s.(hello := s.hello.(timer := None));
    HellosAnnounce(s1, s.ifaces);
    SameAnnounces(s, s1);
  }

  lemma SameAnnounces(s: Node, s1: Node)
    requires s1.ctr == s.ctr && s1.cfg == s.cfg
    ensures forall iface, m :: Announces(s1, iface, m) ==> Announces(s, iface, m)
  {
    hide ToMilliseconds;
  }

  // ---------------------------------------------------------------------
  // What stands in for a hello

  /** A request among the new sends is remembered as a broadcast. */
  ghost predicate Noted(s: Node, s': Node, now: Time) {
    s.log.sent <= s'.log.sent
    && forall i :: |s.log.sent| <= i < |s'.log.sent| && s'.log.sent[i].msg.RREQ? ==> s'.hello.lastBcast == now
  }

  lemma AnswerNoted(s: Node, h: Rreq, hop: U8, ttl: U8, src: Addr, stale: Entry, now: Time)
    ensures Noted(s, AnswerRequest(s, h, hop, ttl, src, stale, now), now)
  {
    hide Purge, Update, KnowsDestination, Relayed, ToMilliseconds;
  }

  lemma MuteNoted(s: Node, s': Node, now: Time)
    requires Mute(s, s')
    ensures Noted(s, s', now)
  {
  }

  lemma NotedLater(s: Node, s1: Node, s': Node, now: Time)
    requires Mute(s, s1) && Noted(s1, s', now)
    ensures Noted(s, s', now)
  {
    assert forall i :: |s.log.sent| <= i < |s1.log.sent| ==> s'.log.sent[i] == s1.log.sent[i];
  }

  lemma RequestNoted(s: Node, h: Rreq, ttl: U8, src: Addr, rcv: Iface, now: Time)
    ensures Noted(s, RecvRequest(s, h, ttl, src, rcv, now), now)
  {
    hide Purge, LearnFromRequest, AnswerRequest, StaleEntry, Mute, IdCaches.Record, IdCaches.Duplicate;
    var p, hop := s.Purged(now), Wrap8(h.hopCount + 1);
    var s1 := s.(table := p, ids := IdCaches.Record(s.ids, IdCaches.Key(h.origin, h.id), s.cfg.idLifetime, now));
    var s2 := LearnFromRequest(s1, h, hop, src, rcv, now);
    LearnFromRequestMute(s1, h, hop, src, rcv, now);
    AnswerNoted(s2, h, hop, ttl, src, StaleEntry(s1, h, hop, src, rcv, now), now);
    NotedLater(s1, s2, AnswerRequest(s2, h, hop, ttl, src, StaleEntry(s1, h, hop, src, rcv, now), now), now);
  }

  lemma SearchNoted(s: Node, dst: Addr, now: Time)
    ensures Noted(s, SendRequest(s, dst, now), now) && Noted(s, RouteRequestTimerExpire(s, dst, now), now)
  {
    hide Purge, SearchEntry, RecordOwn, ScheduleRreqRetry, Filter, Matching, WithoutFirst, ForwardedAll, RequestFor,
         PacketQueue.Purge, PacketQueue.DropPacketWithDst;
  }

  /** Whatever event makes a node send a request, its own or a relayed one, the
      hello timer will find it and let it stand in for a hello. */
  lemma BroadcastNoted(s: Node, e: Event, now: Time)
    ensures Noted(s, Apply(s, e, now), now)
  {
    hide Receive, RouteRequestTimerExpire, PurgeNeighbors, RouteOutput, Forwarding, DeliverLocally, SendRequest,
         CloseNeighbors, HelloTimerExpire, Mute, Purge, PacketQueue.Enqueue, PacketQueue.Accepts;
    match e {
      case Receipt(Some(RREQ(h)), ttl, sender, rcv) => ReceiveNoted(s, h, ttl, sender, rcv, now);
      case RetryTimer(dst) => SearchNoted(s.(search := s.search.(timers := s.search.timers[dst := None])), dst, now);
      case Output(packet) =>
        var queued := s.WithQueue(PacketQueue.Enqueue(s.queue, packet, s.cfg.maxQueueLen, s.cfg.queueTimeout, now));
        SearchNoted(queued.(table := s.Purged(now)), packet.header.dst, now);
      case Postponed(dst, at) =>
        SearchNoted(s.(search := s.search.(postponed := s.search.postponed - multiset{(dst, at)})), dst, now);
      case _ =>
        OwnRequests.OtherMute(s, e, now);
        MuteNoted(s, Apply(s, e, now), now);
    }
  }

  lemma ReceiveNoted(s: Node, h: Rreq, ttl: U8, sender: Addr, rcv: Iface, now: Time)
    ensures Noted(s, Receive(s, Some(RREQ(h)), ttl, sender, rcv, now), now)
  {
    hide RouteToNeighbor, RecvRequest;
    RequestNoted(Met(s, sender, rcv, now), h, ttl, sender, rcv, now);
  }

  // ---------------------------------------------------------------------
  // Receiving

  /** Links to other neighbours do not matter for a one-hop route. */
  lemma BreakLinkSpares(s: Node, n: Addr, k: Addr, now: Time)
    requires k in s.table && s.table[k].route.nextHop == k && s.table[k].route.dst == k && k != n
    requires s.table[k].info.lifeTime >= now
    ensures var t' := BreakLink(s, n, now).table; k in t' && t'[k] == s.table[k]
  {
    hide SendRerrMessage, LostPrecursors;
    var p := s.Purged(now);
    if n in p {
      SendRerrQuiet(s.(table := p), Rerr(0, 0, LostDestinations(p, n)), LostPrecursors(p, n));
    }
  }

  lemma {:induction false} BreakAllSpares(s: Node, lost: seq<Neighbor>, k: Addr, now: Time)
    requires k in s.table && s.table[k].route.nextHop == k && s.table[k].route.dst == k
    requires s.table[k].info.lifeTime >= now && forall n :: n in lost ==> n.addr != k
    ensures var t' := BreakAll(s, lost, now).table; k in t' && t'[k] == s.table[k]
    decreases |lost|
  {
    hide BreakLink;
    if lost != [] {
      BreakLinkSpares(s, lost[0].addr, k, now);
      BreakAllSpares(BreakLink(s, lost[0].addr, now), lost[1..], k, now);
    }
  }

  lemma NewNeighborsOpen(nb: seq<Neighbor>, addr: Addr, expiry: Time, now: Time)
    requires expiry >= now && NeighborIndex(nb, addr) == |nb|
    ensures forall n :: n in Filter(IsClosed(now), nb + [Neighbor(addr, expiry, false)]) ==> n.addr != addr
  {
    FilterMembers(IsClosed(now), nb + [Neighbor(addr, expiry, false)]);
  }

  /** Hearing a neighbour does not harm the route to it. */
  lemma UpdateSpares(s: Node, k: Addr, expire: Time, now: Time)
    requires k in s.table && s.table[k].route.nextHop == k && s.table[k].route.dst == k
    requires s.table[k].info.lifeTime >= now && expire >= 0
    ensures var t' := UpdateNeighbor(s, k, expire, now).table; k in t' && t'[k] == s.table[k]
  {
    hide BreakAll, Filter;
    if NeighborIndex(s.neighbors, k) == |s.neighbors| {
      var s1 := s.(neighbors := s.neighbors + [Neighbor(k, expire + now, false)]);
      NewNeighborsOpen(s.neighbors, k, expire + now, now);
      BreakAllSpares(s1, Filter(IsClosed(now), s1.neighbors), k, now);
    }
  }

  /** When the route to the announced node expires: at least an announcement
      lifetime from now, or as the message says when the route is new. */
  function AnnouncedExpiry(cfg: Config, p: Table, h: Rrep, now: Time): Time {
    if h.dst in p then Max(now + cfg.HelloLifetime(), p[h.dst].info.lifeTime) else now + FromMilliseconds(h.lifeTime)
  }

  lemma HelloWrites(s: Node, h: Rrep, rcv: Iface, now: Time)
    requires TableOk(s.Purged(now))
    ensures var t := HelloTable(s, h, rcv, now);
            && h.dst in t && t[h.dst].route == Route(h.dst, h.dst, t[h.dst].route.source, rcv.dev)
            && t[h.dst].info.iface == rcv && t[h.dst].info.hops == 1 && t[h.dst].info.flag == VALID
            && t[h.dst].info.validSeqNo && t[h.dst].info.seqNo == h.dstSeqNo
            && t[h.dst].info.lifeTime == AnnouncedExpiry(s.cfg, s.Purged(now), h, now)
  {
    hide FromMilliseconds, Purge;
    if h.dst in s.Purged(now) { EntryAt(s.Purged(now), h.dst); }
  }

  /** A route straight to the announced node, VALID, with the announced number. */
  predicate OneHop(e: Entry, h: Rrep, rcv: Iface) {
    && e.route.dst == h.dst && e.route.nextHop == h.dst && e.route.dev == rcv.dev
    && e.info.iface == rcv && e.info.hops == 1 && e.info.flag == VALID
    && e.info.validSeqNo && e.info.seqNo == h.dstSeqNo
  }

  /** Whoever hears a hello has a VALID one-hop route to the announced node with
      the announced number, whatever it knew before and whichever other links
      turn out broken, and has it as a neighbour for as long as it may be silent. */
  lemma HelloTeaches(s: Node, h: Rrep, ttl: U8, sender: Addr, rcv: Iface, now: Time)
    requires TableOk(s.table) && s.cfg.badLinkLifetime >= 0 && s.cfg.HelloLifetime() >= 0
    requires h.dst == h.origin
    ensures var p := Met(s, sender, rcv, now).Purged(now);
            var s' := Receive(s, Some(RREP(h)), ttl, sender, rcv, now);
            && h.dst in s'.table && OneHop(s'.table[h.dst], h, rcv)
            && s'.table[h.dst].info.lifeTime == AnnouncedExpiry(s.cfg, p, h, now)
            && (s.cfg.enableHello && Watched(s) ==> OpenUntil(s', h.dst, now + s.cfg.HelloLifetime()))
  {
    hide RouteToNeighbor, Purge, TableOk, Evolves, HelloTable, UpdateNeighbor, FromMilliseconds,
         Watched, OpenUntil;
    var s1 := Met(s, sender, rcv, now);
    NeighborEvolves(s.cfg, s.table, sender, rcv, now);
    EvolvesOk(s.table, s1.table, {});
    PurgedQuiet(s1, now);
    QuietOk(s1, s1.(table := s1.Purged(now)), {}, now);
    HelloWrites(s1, h, rcv, now);
    if s.cfg.enableHello {
      var s2 := s1.(table := HelloTable(s1, h, rcv, now));
      NotExpired(s.cfg, s1.Purged(now), h, now);
      UpdateSpares(s2, h.dst, s.cfg.HelloLifetime(), now);
      SameWatch(s, s2);
      UpdateGuards(s2, h.dst, s.cfg.HelloLifetime(), now);
    }
  }

  lemma SameWatch(s: Node, s2: Node)
    requires Unwatched(s, s2)
    ensures Watched(s) ==> Watched(s2)
  {
  }

  lemma NotExpired(cfg: Config, p: Table, h: Rrep, now: Time)
    requires cfg.HelloLifetime() >= 0
    ensures AnnouncedExpiry(cfg, p, h, now) >= now
  {
  }

  /** A hello of `a` that `b` hears makes `a` a neighbour of `b`: the route is
      VALID, one hop long, carries `a`'s own number, and lasts at least as long as
      `a` may stay silent. */
  lemma HelloMakesNeighbor(a: Node, b: Node, sent: Time, j: nat, rcv: Iface, now: Time)
    requires a.hello.lastBcast <= 0 && j < |a.ifaces|
    requires TableOk(b.table) && b.cfg.badLinkLifetime >= 0 && b.cfg.HelloLifetime() >= 0
    ensures var me := a.ifaces[j].local;
            var a' := Apply(a, HelloTimer, sent);
            |a.log.sent| + j < |a'.log.sent|
            && var m := a'.log.sent[|a.log.sent| + j];
               var b' := Receive(b, Some(m.msg), m.ttl, me, rcv, now);
               && m.iface == a.ifaces[j] && m.to == a.ifaces[j].BroadcastTarget()
               && me in b'.table && b'.table[me].route.nextHop == me && b'.table[me].info.hops == 1
               && IsValid(b'.table, me) && b'.table[me].info.validSeqNo && b'.table[me].info.seqNo == a.ctr.seqNo
               && b'.table[me].info.lifeTime >= now + b.cfg.HelloLifetime()
               && (b.cfg.enableHello && Watched(b) ==> OpenUntil(b', me, now + b.cfg.HelloLifetime()))
  {
    hide Apply, Receive, Met, TableOk, Purge, ToMilliseconds, FromMilliseconds, Watched, OpenUntil;
    HelloExactly(a, sent);
    var m := Apply(a, HelloTimer, sent).log.sent[|a.log.sent| + j];
    assert Announces(a, a.ifaces[j], m);
    HelloTeaches(b, m.msg.rrep, m.ttl, a.ifaces[j].local, rcv, now);
    MetIn(b, a.ifaces[j].local, rcv, now);
  }

  // ---------------------------------------------------------------------
  // Any other message

  /** A one-hop route with a valid number over the right device is left as it is. */
  predicate StaysAsIs(p: Table, sender: Addr, rcv: Iface) {
    sender in p && p[sender].info.validSeqNo && p[sender].info.hops == 1 && p[sender].route.dev == rcv.dev
  }

  /** A message that is not understood leaves the route to its sender as it is, or
      makes it a new VALID one-hop route, without a number and without precursors,
      that lives as long as an active route and no shorter than before.  No
      other entry changes, and nothing is sent.  Every other message is handled in
      the table that this leaves. */
  lemma NeighborLearnedExactly(s: Node, ttl: U8, sender: Addr, rcv: Iface, now: Time)
    ensures var p := s.Purged(now); var s' := Receive(s, None, ttl, sender, rcv, now); var t := s'.table;
            && s' == s.(table := t) == Met(s, sender, rcv, now) && t.Keys == p.Keys + {sender}
            && (forall k :: k in p && k != sender ==> t[k] == p[k])
            && (if StaysAsIs(p, sender, rcv) then t[sender] == p[sender]
                else
                  && t[sender].route == Route(sender, sender, rcv.local, rcv.dev) && t[sender].info.iface == rcv
                  && t[sender].info.flag == VALID && t[sender].info.hops == 1
                  && !t[sender].info.validSeqNo && t[sender].info.precursors == []
                  && t[sender].info.lifeTime == (if sender in p
                                                 then Max(p[sender].info.lifeTime, now + s.cfg.activeRouteTimeout)
                                                 else now + s.cfg.activeRouteTimeout))
  {
    hide Purge;
  }
}
