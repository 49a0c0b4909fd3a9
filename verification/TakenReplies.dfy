/** Which replies replace the known route to their destination, and with what. */
module TakenReplies {
  import opened Base
  import opened Messages
  import opened RouteTable
  import opened NodeState
  import opened Discovery
  import opened LinkBreak
  import opened Routes
  import opened NodeEvents
  import opened Frames
  import opened NodeFrames
  import opened TableSteps
  import opened LoopFreedom
  import opened Freshness
  import Precursors
  import Flush
  import PacketQueue

  /** The reply replaces the route to its destination: none is known, the known
      one gives way, or the reply ends a search for it. */
  ghost predicate TakenOver(s: Node, h: Rrep, now: Time) {
    var p := s.Purged(now);
    || h.dst !in p || Fresher(h, Wrap8(h.hopCount + 1), p[h.dst].info)
    || (p[h.dst].info.flag == IN_SEARCH && s.IsMyOwnAddress(h.origin))
  }

  /** The route to the reply's destination is the one that the reply offers. */
  ghost predicate Forwards(t: Table, h: Rrep, sender: Addr, rcv: Iface, now: Time) {
    && h.dst in t && t[h.dst].route == Route(h.dst, sender, rcv.local, rcv.dev) && t[h.dst].info.iface == rcv
    && t[h.dst].info.validSeqNo && t[h.dst].info.seqNo == h.dstSeqNo
    && t[h.dst].info.hops == Wrap8(h.hopCount + 1) && t[h.dst].info.flag == VALID
    && t[h.dst].info.lifeTime >= now + h.lifeTime * MILLISECOND
  }

  lemma LearnTakes(s: Node, h: Rrep, sender: Addr, rcv: Iface, now: Time)
    requires TakenOver(s, h, now)
    ensures var t := LearnFromReply(s, h, Wrap8(h.hopCount + 1), sender, rcv, now).table;
            var p := s.Purged(now);
            && h.dst in t
            && (h.dst in p && !Fresher(h, Wrap8(h.hopCount + 1), p[h.dst].info) ==> t[h.dst] == p[h.dst])
            && (h.dst !in p || Fresher(h, Wrap8(h.hopCount + 1), p[h.dst].info) ==> Forwards(t, h, sender, rcv, now))
  {
    hide Fresher;
  }

  lemma ForwardsKept(t: Table, t': Table, h: Rrep, sender: Addr, rcv: Iface, now: Time)
    requires Forwards(t, h, sender, rcv, now) && KeepsRoute(t, t', h.dst)
    ensures Forwards(t', h, sender, rcv, now)
  {
  }

  /** The forward entry stays while the reply is passed on. */
  lemma PassedReplyRoutes(s: Node, h: Rrep, ttl: U8, sender: Addr, rcv: Iface, now: Time)
    requires TableOk(s.table) && h.dst != h.origin && h.dst != NO_ADDR
    requires TakenOver(s, h, now) && !s.IsMyOwnAddress(h.origin)
    ensures Forwards(RecvReply(s, h, ttl, sender, rcv, now).table, h, sender, rcv, now)
  {
    hide Purge, LearnFromReply, ForwardReply, TableOk, Fresher, KeepsRoute;
    var hop := Wrap8(h.hopCount + 1);
    LearnTakes(s, h, sender, rcv, now);
    var s2 := LearnFromReply(s, h, hop, sender, rcv, now);
    LearnFromReplyQuiet(s, h, hop, sender, rcv, now);
    QuietOk(s, s2, {h.dst}, now);
    ForwardReplyKeeps(s2, h, hop, ttl, now);
    ForwardsKept(s2.table, ForwardReply(s2, h, hop, ttl, now).table, h, sender, rcv, now);
  }

  /** So does the originator's when the search is over. */
  lemma OwnReplyRoutes(s: Node, h: Rrep, ttl: U8, sender: Addr, rcv: Iface, now: Time)
    requires h.dst != h.origin && TakenOver(s, h, now) && s.IsMyOwnAddress(h.origin)
    ensures Forwards(RecvReply(s, h, ttl, sender, rcv, now).table, h, sender, rcv, now)
  {
    hide LearnFromReply, SendPacketFromQueue, Fresher;
    var hop := Wrap8(h.hopCount + 1);
    LearnTakes(s, h, sender, rcv, now);
    var s2 := LearnFromReply(s, h, hop, sender, rcv, now);
    var before := GetOr(s.Purged(now), h.dst, DefaultEntry(now));
    FlushTable(EndSearch(s2, h, hop, sender, rcv, before.info.flag == IN_SEARCH, now), h.dst, now);
  }

  /** A reply that is not taken over leaves the next hop alone. */
  lemma RefusedReplyKeeps(s: Node, h: Rrep, ttl: U8, sender: Addr, rcv: Iface, now: Time)
    requires TableOk(s.table) && h.dst != h.origin && h.dst != NO_ADDR && !TakenOver(s, h, now)
    ensures Calm(s.table, RecvReply(s, h, ttl, sender, rcv, now).table, h.dst)
  {
    hide Purge, ForwardReply, SendPacketFromQueue, TableOk, Fresher, Evolves;
    var hop := Wrap8(h.hopCount + 1);
    var s2 := LearnFromReply(s, h, hop, sender, rcv, now);
    LearnFromReplyQuiet(s, h, hop, sender, rcv, now);
    QuietOk(s, s2, {h.dst}, now);
    RefusedLearns(s, h, sender, rcv, now);
    if s.IsMyOwnAddress(h.origin) {
      PurgeSpares(s2.table, now, s2.cfg.badLinkLifetime, {});
      FlushTable(EndSearch(s2, h, hop, sender, rcv, false, now), h.dst, now);
      CalmTrans(s.table, s2.table, s2.Purged(now), h.dst);
    } else {
      ForwardReplyQuiet(s2, h, hop, ttl, now);
      EvolvesSpares(s2.table, ForwardReply(s2, h, hop, ttl, now).table, {NO_ADDR});
      CalmTrans(s.table, s2.table, ForwardReply(s2, h, hop, ttl, now).table, h.dst);
    }
  }

  lemma RefusedLearns(s: Node, h: Rrep, sender: Addr, rcv: Iface, now: Time)
    requires !TakenOver(s, h, now)
    ensures Calm(s.table, LearnFromReply(s, h, Wrap8(h.hopCount + 1), sender, rcv, now).table, h.dst)
    ensures LearnFromReply(s, h, Wrap8(h.hopCount + 1), sender, rcv, now).cfg == s.cfg
  {
    hide Fresher;
  }

  /** A whole received reply, other than a hello, is taken over or leaves the next hop alone. */
  lemma ReplyRoutes(s: Node, h: Rrep, ttl: U8, sender: Addr, rcv: Iface, now: Time)
    requires TableOk(s.table) && h.dst != h.origin && h.dst != NO_ADDR
    ensures var t := Receive(s, Some(RREP(h)), ttl, sender, rcv, now).table;
            if TakenOver(Met(s, sender, rcv, now), h, now) then Forwards(t, h, sender, rcv, now)
            else HopKept(s.table, t, h.dst)
  {
    hide RouteToNeighbor, RecvReply, TakenOver, TableOk, Evolves;
    var s1 := Met(s, sender, rcv, now);
    NeighborEvolves(s.cfg, s.table, sender, rcv, now);
    EvolvesOk(s.table, s1.table, {});
    if TakenOver(s1, h, now) {
      if s.IsMyOwnAddress(h.origin) {
        OwnReplyRoutes(s1, h, ttl, sender, rcv, now);
      } else {
        PassedReplyRoutes(s1, h, ttl, sender, rcv, now);
      }
    } else {
      RefusedReplyKeeps(s1, h, ttl, sender, rcv, now);
      EvolvesSpares(s.table, s1.table, {});
      CalmTrans(s.table, s1.table, RecvReply(s1, h, ttl, sender, rcv, now).table, h.dst);
      CalmHop(s.table, RecvReply(s1, h, ttl, sender, rcv, now).table, h.dst);
    }
  }

  /** A reply for the node itself ends the search for its destination, with its
      retry timer, exactly when one runs; it touches no other search, and a reply
      for somebody else touches none. */
  lemma OwnReplyEndsSearch(s: Node, h: Rrep, ttl: U8, sender: Addr, rcv: Iface, now: Time)
    requires TableOk(s.table) && h.dst != h.origin && h.dst != NO_ADDR
    ensures var p := Met(s, sender, rcv, now).Purged(now);
            var s' := Receive(s, Some(RREP(h)), ttl, sender, rcv, now);
            && s'.search == (if s.IsMyOwnAddress(h.origin) && UnderSearch(p, h.dst)
                             then s.search.(timers := s.search.timers - {h.dst}) else s.search)
            && (s.IsMyOwnAddress(h.origin) && UnderSearch(p, h.dst) ==> IsValid(s'.table, h.dst))
  {
    hide RouteToNeighbor, Purge, LearnFromReply, ForwardReply, TableOk, Evolves, SendPacketFromQueue, Update, Fresher;
    var s1, hop := Met(s, sender, rcv, now), Wrap8(h.hopCount + 1);
    NeighborEvolves(s.cfg, s.table, sender, rcv, now);
    EvolvesOk(s.table, s1.table, {});
    var s2 := LearnFromReply(s1, h, hop, sender, rcv, now);
    LearnFromReplyQuiet(s1, h, hop, sender, rcv, now);
    QuietOk(s1, s2, {h.dst}, now);
    assert s1.IsMyOwnAddress(h.origin) <==> s.IsMyOwnAddress(h.origin);
    if s.IsMyOwnAddress(h.origin) {
      var before := GetOr(s1.Purged(now), h.dst, DefaultEntry(now));
      var s3 := EndSearch(s2, h, hop, sender, rcv, before.info.flag == IN_SEARCH, now);
      FlushSearch(s3, h.dst, GetOr(s3.table, h.dst, before).route, now);
      if UnderSearch(s1.Purged(now), h.dst) {
        OwnReplyRoutes(s1, h, ttl, sender, rcv, now);
      }
    } else {
      ForwardReplyQuiet(s2, h, hop, ttl, now);
    }
  }

  lemma FlushSearch(s: Node, dst: Addr, route: Route, now: Time)
    ensures SendPacketFromQueue(s, dst, route, now).search == s.search
  {
    hide Filter, Matching, WithoutFirst, ForwardedAll;
  }

  lemma FlushedOver(s: Node, dst: Addr, route: Route, now: Time, i: nat)
    requires |s.log.delivered| <= i < |SendPacketFromQueue(s, dst, route, now).log.delivered|
    ensures var d := SendPacketFromQueue(s, dst, route, now).log.delivered[i]; d.route == route && d.header.dst == dst
  {
    hide SendPacketFromQueue;
    var n := Flush.FlushDelivers(s, dst, route, now);
    var live := PacketQueue.Purge(s.queue, now).queue;
    FilterMembers(PacketQueue.IsFor(dst), live);
    var mine := Flush.For(live, dst);
    assert mine[i - |s.log.delivered|] in mine;
  }

  lemma LearnsSome(s: Node, h: Rrep, hop: U8, sender: Addr, rcv: Iface, now: Time)
    requires s.cfg.badLinkLifetime >= 0 && hop == Wrap8(h.hopCount + 1)
    ensures var s2 := LearnFromReply(s, h, hop, sender, rcv, now);
            && h.dst in s2.table && s2.Purged(now) == s2.table
            && s2.log.delivered == s.log.delivered && s2.cfg == s.cfg
  {
    hide Purge, ForwardRoute;
    var p := s.Purged(now);
    PurgeTwice(s.table, now, s.cfg.badLinkLifetime);
    Precursors.LiveForward(p, ForwardRoute(p, h, hop, sender, rcv, now), h, sender, rcv, now, s.cfg.badLinkLifetime);
    ForwardIn(p, h, hop, sender, rcv, now);
  }

  lemma ForwardIn(p: Table, h: Rrep, hop: U8, sender: Addr, rcv: Iface, now: Time)
    ensures h.dst in ForwardRoute(p, h, hop, sender, rcv, now)
  {
    hide Fresher;
  }

  lemma EndsIn(s: Node, h: Rrep, hop: U8, sender: Addr, rcv: Iface, searching: bool, now: Time)
    requires h.dst in s.table && s.Purged(now) == s.table
    ensures var s3 := EndSearch(s, h, hop, sender, rcv, searching, now);
            h.dst in s3.table && s3.log.delivered == s.log.delivered
  {
  }

  /** And the packets that waited go out over the route that the node then has. */
  lemma OwnReplyDelivers(s: Node, h: Rrep, ttl: U8, sender: Addr, rcv: Iface, now: Time, i: nat)
    requires s.cfg.badLinkLifetime >= 0 && h.dst != h.origin && s.IsMyOwnAddress(h.origin)
    requires |s.log.delivered| <= i < |Receive(s, Some(RREP(h)), ttl, sender, rcv, now).log.delivered|
    ensures var s' := Receive(s, Some(RREP(h)), ttl, sender, rcv, now);
            var d := s'.log.delivered[i];
            d.header.dst == h.dst && h.dst in s'.table && d.route == s'.table[h.dst].route
  {
    hide RouteToNeighbor, Purge, LearnFromReply, SendPacketFromQueue, EndSearch;
    var s1, hop := Met(s, sender, rcv, now), Wrap8(h.hopCount + 1);
    assert s1.IsMyOwnAddress(h.origin) <==> s.IsMyOwnAddress(h.origin);
    var before := GetOr(s1.Purged(now), h.dst, DefaultEntry(now));
    LearnsSome(s1, h, hop, sender, rcv, now);
    var s2 := LearnFromReply(s1, h, hop, sender, rcv, now);
    EndsIn(s2, h, hop, sender, rcv, before.info.flag == IN_SEARCH, now);
    var s3 := EndSearch(s2, h, hop, sender, rcv, before.info.flag == IN_SEARCH, now);
    FlushTable(s3, h.dst, now);
    FlushedOver(s3, h.dst, s3.table[h.dst].route, now, i);
  }
}
