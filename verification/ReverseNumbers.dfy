/** What a processed request leaves behind about its originator, and that the
    number known of a node only falls where a message overrides it (section 6.5
    of RFC 3561). */
module ReverseNumbers {
  import opened Base
  import opened SeqNo
  import opened Messages
  import opened RouteTable
  import opened NodeState
  import opened LinkBreak
  import opened Routes
  import opened NodeEvents
  import opened Frames
  import opened NodeFrames
  import opened Emissions
  import opened LoopFreedom

  // ---------------------------------------------------------------------
  // An entry that later writes leave alone

  /** The entry for `k` says what `e` says: its flag and expiry too unless a
      broken link made it INVALID, and then it is not due for deletion. */
  ghost predicate Held(t: Table, k: Addr, e: Entry, now: Time) {
    && k in t && t[k].route == e.route && t[k].info.iface == e.info.iface && t[k].info.hops == e.info.hops
    && t[k].info.validSeqNo == e.info.validSeqNo && t[k].info.seqNo == e.info.seqNo
    && (if t[k].info.flag == INVALID then t[k].info.lifeTime >= now
        else t[k].info.flag == e.info.flag && t[k].info.lifeTime == e.info.lifeTime)
    && (forall x :: x in e.info.precursors ==> x in t[k].info.precursors)
  }

  lemma PurgeHolds(t: Table, k: Addr, e: Entry, now: Time, bad: Time)
    requires Held(t, k, e, now) && bad >= 0
    ensures Held(Purge(t, now, bad), k, e, now)
  {
  }

  lemma InvalidateHolds(t: Table, dsts: set<Addr>, k: Addr, e: Entry, now: Time, bad: Time)
    requires Held(t, k, e, now) && bad >= 0
    ensures Held(InvalidateAll(t, dsts, now, bad), k, e, now)
  {
  }

  lemma BreakLinkHolds(s: Node, nextHop: Addr, k: Addr, e: Entry, now: Time)
    requires Held(s.table, k, e, now) && s.cfg.badLinkLifetime >= 0
    ensures Held(BreakLink(s, nextHop, now).table, k, e, now) && BreakLink(s, nextHop, now).cfg == s.cfg
  {
    hide SendRerrMessage, Held, Purge, InvalidateAll, LostDestinations, LostPrecursors;
    var p := s.Purged(now);
    PurgeHolds(s.table, k, e, now, s.cfg.badLinkLifetime);
    if nextHop in p {
      var lost := LostDestinations(p, nextHop);
      SendRerrQuiet(s.(table := p), Rerr(0, 0, lost), LostPrecursors(p, nextHop));
      InvalidateHolds(p, lost.Keys, k, e, now, s.cfg.badLinkLifetime);
    }
  }

  lemma {:induction false} BreakAllHolds(s: Node, lost: seq<Neighbor>, k: Addr, e: Entry, now: Time)
    requires Held(s.table, k, e, now) && s.cfg.badLinkLifetime >= 0
    ensures Held(BreakAll(s, lost, now).table, k, e, now)
    decreases |lost|
  {
    hide BreakLink, Held;
    if lost != [] {
      BreakLinkHolds(s, lost[0].addr, k, e, now);
      BreakAllHolds(BreakLink(s, lost[0].addr, now), lost[1..], k, e, now);
    }
  }

  lemma UpdateNeighborHolds(s: Node, addr: Addr, expire: Time, k: Addr, e: Entry, now: Time)
    requires Held(s.table, k, e, now) && s.cfg.badLinkLifetime >= 0
    ensures Held(UpdateNeighbor(s, addr, expire, now).table, k, e, now)
  {
    hide BreakAll, Held, Filter, NeighborIndex;
    var s1 := s.(neighbors := s.neighbors + [Neighbor(addr, expire + now, false)]);
    BreakAllHolds(s1, Filter(IsClosed(now), s1.neighbors), k, e, now);
  }

  // ---------------------------------------------------------------------
  // The reverse route

  predicate Numbered(t: Table, k: Addr) { k in t && t[k].info.validSeqNo }

  /** `e` is what a request relayed by `src` teaches about its originator; `p` is
      what was known.  The newer number is kept and the longer lifetime.  A
      request that comes straight from its originator leaves its number, but not
      as a valid one. */
  ghost predicate Teaches(cfg: Config, p: Table, h: Rreq, src: Addr, rcv: Iface, now: Time, e: Entry) {
    var hop := Wrap8(h.hopCount + 1);
    var expiry := now + 2 * cfg.netTraversalTime - 2 * hop * cfg.nodeTraversalTime;
    && e.route.nextHop == src && e.route.dev == rcv.dev && e.info.iface == rcv
    && e.route.source == (if h.origin in p then p[h.origin].route.source else rcv.local)
    && (if src == h.origin then
          e.info.hops == 1 && !e.info.validSeqNo && e.info.seqNo == h.originSeqNo
          && e.info.flag == VALID && e.info.lifeTime == now + cfg.activeRouteTimeout
        else
          && e.info.hops == hop && e.info.validSeqNo
          && e.info.seqNo == (if Numbered(p, h.origin) && !Newer(h.originSeqNo, p[h.origin].info.seqNo)
                              then p[h.origin].info.seqNo else h.originSeqNo)
          && e.info.flag == (if h.origin in p then p[h.origin].info.flag else VALID)
          && e.info.lifeTime == (if h.origin in p && p[h.origin].info.lifeTime > expiry
                                 then p[h.origin].info.lifeTime else expiry))
    && (h.origin in p ==> forall x :: x in p[h.origin].info.precursors ==> x in e.info.precursors)
  }

  lemma ReverseTeaches(s: Node, h: Rreq, src: Addr, rcv: Iface, now: Time)
    requires s.cfg.badLinkLifetime >= 0
    ensures var t := ReverseRoute(s.cfg, s.Purged(now), h, Wrap8(h.hopCount + 1), src, rcv, now);
            && h.origin in t && Held(t, h.origin, t[h.origin], now)
            && (src != h.origin ==> Teaches(s.cfg, s.Purged(now), h, src, rcv, now, t[h.origin]))
            && (h.origin in s.Purged(now) ==>
                  t[h.origin].info.precursors == s.Purged(now)[h.origin].info.precursors)
            && t[h.origin].route.source == (if h.origin in s.Purged(now) then s.Purged(now)[h.origin].route.source
                                            else rcv.local)
  {
    hide Newer;
  }

  lemma RelayTeaches(cfg: Config, p: Table, t: Table, h: Rreq, src: Addr, rcv: Iface, e: Entry, now: Time)
    returns (e': Entry)
    requires Held(t, h.origin, e, now) && (src != h.origin ==> Teaches(cfg, p, h, src, rcv, now, e))
    requires h.origin in p ==> e.info.precursors == p[h.origin].info.precursors
    requires e.route.source == if h.origin in p then p[h.origin].route.source else rcv.local
    ensures Held(RelayRoute(cfg, t, h, src, rcv, now), h.origin, e', now) && Teaches(cfg, p, h, src, rcv, now, e')
  {
    hide Newer;
    e' := if src == h.origin then RelayRoute(cfg, t, h, src, rcv, now)[h.origin] else e;
  }

  lemma LearnTeaches(s: Node, h: Rreq, src: Addr, rcv: Iface, now: Time) returns (e: Entry)
    requires s.cfg.badLinkLifetime >= 0
    ensures Teaches(s.cfg, s.Purged(now), h, src, rcv, now, e)
    ensures Held(LearnFromRequest(s, h, Wrap8(h.hopCount + 1), src, rcv, now).table, h.origin, e, now)
  {
    hide ReverseRoute, RelayRoute, Purge, UpdateNeighbor, Held, Teaches;
    var bad := s.cfg.badLinkLifetime;
    var reverse := ReverseRoute(s.cfg, s.Purged(now), h, Wrap8(h.hopCount + 1), src, rcv, now);
    ReverseTeaches(s, h, src, rcv, now);
    PurgeHolds(reverse, h.origin, reverse[h.origin], now, bad);
    var q := Purge(reverse, now, bad);
    e := RelayTeaches(s.cfg, s.Purged(now), q, h, src, rcv, reverse[h.origin], now);
    UpdateNeighborHolds(s.(table := RelayRoute(s.cfg, q, h, src, rcv, now)), src, s.cfg.HelloLifetime(),
                        h.origin, e, now);
  }

  lemma IntermediateHolds(s: Node, h: Rreq, k: Addr, e: Entry, now: Time)
    requires Held(s.table, k, e, now) && TableOk(s.table) && h.dst in s.table && h.origin in s.table && k != NO_ADDR
    ensures Held(SendReplyByIntermediateNode(s, s.table[h.dst], s.table[h.origin], h.gratuitous, now).table, k, e, now)
  {
    hide TableOk;
    EntryAt(s.table, h.dst);
    EntryAt(s.table, h.origin);
  }

  lemma AnswerHolds(s: Node, h: Rreq, hop: U8, ttl: U8, src: Addr, stale: Entry, k: Addr, e: Entry, now: Time)
    requires Held(s.table, k, e, now) && TableOk(s.table) && s.cfg.badLinkLifetime >= 0 && k != NO_ADDR
    requires h.origin in s.Purged(now)
    ensures Held(AnswerRequest(s, h, hop, ttl, src, stale, now).table, k, e, now)
  {
    hide Purge, SendReplyByIntermediateNode, TableOk, Relayed, KnowsDestination, Held;
    var s1 := s.(table := s.Purged(now));
    PurgedQuiet(s, now);
    QuietOk(s, s1, {}, now);
    PurgeHolds(s.table, k, e, now, s.cfg.badLinkLifetime);
    if h.dst in s1.table {
      IntermediateHolds(s1, h, k, e, now);
    }
  }

  lemma HeldIn(t: Table, k: Addr, e: Entry, now: Time)
    requires Held(t, k, e, now)
    ensures k in t && t[k].route == e.route
  {
  }

  /** What a processed request leaves about its originator, whatever else the
      handler writes afterwards. */
  lemma RequestTeaches(s: Node, h: Rreq, ttl: U8, src: Addr, rcv: Iface, now: Time) returns (e: Entry)
    requires TableOk(s.table) && s.cfg.badLinkLifetime >= 0 && h.origin != NO_ADDR
    requires Accepts(Met(s, src, rcv, now), h, src, now)
    ensures Teaches(s.cfg, Met(s, src, rcv, now).Purged(now), h, src, rcv, now, e)
    ensures Held(Receive(s, Some(RREQ(h)), ttl, src, rcv, now).table, h.origin, e, now)
  {
    hide RouteToNeighbor, LearnFromRequest, AnswerRequest, Accepts, Purge, Held, TableOk, StaleEntry, Evolves, Teaches;
    var s1 := Met(s, src, rcv, now);
    NeighborEvolves(s.cfg, s.table, src, rcv, now);
    EvolvesOk(s.table, s1.table, {});
    PurgedQuiet(s1, now);
    QuietOk(s1, s1.(table := s1.Purged(now)), {}, now);
    RecvRequestSends(s1, h, ttl, src, rcv, now);
    var r := Recorded(s1, h, now);
    PurgeTwice(s1.table, now, s.cfg.badLinkLifetime);
    var hop := Wrap8(h.hopCount + 1);
    e := LearnTeaches(r, h, src, rcv, now);
    LearnQuiet(r, h, hop, src, rcv, now);
    var s2 := LearnFromRequest(r, h, hop, src, rcv, now);
    QuietOk(r, s2, {h.origin}, now);
    PurgeHolds(s2.table, h.origin, e, now, s.cfg.badLinkLifetime);
    HeldIn(s2.Purged(now), h.origin, e, now);
    AnswerHolds(s2, h, hop, ttl, src, StaleEntry(r, h, hop, src, rcv, now), h.origin, e, now);
  }

  /** In particular: the route goes through the node that relayed the request, in
      one hop more than the request had come, and lives on for at least as long
      as before and as the hop count allows. */
  lemma OriginLearned(s: Node, h: Rreq, ttl: U8, src: Addr, rcv: Iface, now: Time)
    requires TableOk(s.table) && s.cfg.badLinkLifetime >= 0 && h.origin != NO_ADDR
    requires Accepts(Met(s, src, rcv, now), h, src, now)
    ensures var p := Met(s, src, rcv, now).Purged(now);
            var t := Receive(s, Some(RREQ(h)), ttl, src, rcv, now).table;
            var hop := Wrap8(h.hopCount + 1);
            && h.origin in t && t[h.origin].route.nextHop == src && t[h.origin].route.dev == rcv.dev
            && t[h.origin].info.iface == rcv && t[h.origin].info.hops == (if src == h.origin then 1 else hop)
            && (src != h.origin && t[h.origin].info.flag != INVALID ==>
                  var life := t[h.origin].info.lifeTime;
                  && life >= now + 2 * s.cfg.netTraversalTime - 2 * hop * s.cfg.nodeTraversalTime
                  && (h.origin in p ==> life >= p[h.origin].info.lifeTime))
  {
    hide Receive, Accepts, Newer, TableOk, Met, Purge;
    var e := RequestTeaches(s, h, ttl, src, rcv, now);
  }

  /** And its number: of the true counters `x`, whose 32 bits are stored, and `y`,
      whose 32 bits the request carries, the larger is kept if they are less than
      half a turn apart; without a valid number the request's is taken, and a
      request that comes straight from its originator leaves its number unconfirmed. */
  lemma OriginNumber(s: Node, h: Rreq, ttl: U8, src: Addr, rcv: Iface, now: Time, x: nat, y: nat)
    requires TableOk(s.table) && s.cfg.badLinkLifetime >= 0 && h.origin != NO_ADDR
    requires Accepts(Met(s, src, rcv, now), h, src, now)
    requires h.originSeqNo == Wrap32(y)
    requires var p := Met(s, src, rcv, now).Purged(now);
             Numbered(p, h.origin) ==> p[h.origin].info.seqNo == Wrap32(x) && -HALF < x - y < HALF
    ensures var p := Met(s, src, rcv, now).Purged(now);
            var t := Receive(s, Some(RREQ(h)), ttl, src, rcv, now).table;
            && h.origin in t && t[h.origin].info.validSeqNo == (src != h.origin)
            && t[h.origin].info.seqNo
               == if src != h.origin && Numbered(p, h.origin) then Wrap32(Max(x, y)) else h.originSeqNo
  {
    hide Receive, Accepts, Newer, TableOk, Met, Purge;
    var e := RequestTeaches(s, h, ttl, src, rcv, now);
    if Numbered(Met(s, src, rcv, now).Purged(now), h.origin) {
      NewerIsCounterOrder(y, x);
    }
  }

  // ---------------------------------------------------------------------
  // The route to the relaying node

  /** The neighbour that relayed the request is one hop away for as long as an
      active route; the number that is written down for it is the originator's,
      but not as a valid one. */
  ghost predicate RelayedBy(cfg: Config, h: Rreq, src: Addr, rcv: Iface, now: Time, e: Entry) {
    && e.route.nextHop == src && e.route.dev == rcv.dev && e.info.iface == rcv && e.info.hops == 1
    && e.info.flag == VALID && e.info.lifeTime == now + cfg.activeRouteTimeout
    && !e.info.validSeqNo && e.info.seqNo == h.originSeqNo
  }

  lemma LearnRelay(s: Node, h: Rreq, src: Addr, rcv: Iface, now: Time) returns (e: Entry)
    requires s.cfg.badLinkLifetime >= 0
    ensures RelayedBy(s.cfg, h, src, rcv, now, e)
    ensures Held(LearnFromRequest(s, h, Wrap8(h.hopCount + 1), src, rcv, now).table, src, e, now)
  {
    hide ReverseRoute, Purge, UpdateNeighbor;
    var q := Purge(ReverseRoute(s.cfg, s.Purged(now), h, Wrap8(h.hopCount + 1), src, rcv, now), now,
                   s.cfg.badLinkLifetime);
    var t := RelayRoute(s.cfg, q, h, src, rcv, now);
    e := t[src];
    UpdateNeighborHolds(s.(table := t), src, s.cfg.HelloLifetime(), src, e, now);
  }

  /** What a processed request leaves behind about the node that relayed it: the
      entry stands, INVALID only if the link to that node turns out broken at once. */
  lemma RelayLearned(s: Node, h: Rreq, ttl: U8, src: Addr, rcv: Iface, now: Time) returns (e: Entry)
    requires TableOk(s.table) && s.cfg.badLinkLifetime >= 0 && h.origin != NO_ADDR && src != NO_ADDR
    requires Accepts(Met(s, src, rcv, now), h, src, now)
    ensures RelayedBy(s.cfg, h, src, rcv, now, e)
    ensures Held(Receive(s, Some(RREQ(h)), ttl, src, rcv, now).table, src, e, now)
  {
    hide RouteToNeighbor, LearnFromRequest, AnswerRequest, Accepts, Purge, Held, TableOk, StaleEntry, Evolves, Teaches,
         RelayedBy;
    var s1 := Met(s, src, rcv, now);
    NeighborEvolves(s.cfg, s.table, src, rcv, now);
    EvolvesOk(s.table, s1.table, {});
    PurgedQuiet(s1, now);
    QuietOk(s1, s1.(table := s1.Purged(now)), {}, now);
    RecvRequestSends(s1, h, ttl, src, rcv, now);
    var r, hop := Recorded(s1, h, now), Wrap8(h.hopCount + 1);
    e := LearnRelay(r, h, src, rcv, now);
    var o := LearnTeaches(r, h, src, rcv, now);
    LearnQuiet(r, h, hop, src, rcv, now);
    var s2 := LearnFromRequest(r, h, hop, src, rcv, now);
    QuietOk(r, s2, {h.origin}, now);
    PurgeHolds(s2.table, h.origin, o, now, s.cfg.badLinkLifetime);
    HeldIn(s2.Purged(now), h.origin, o, now);
    AnswerHolds(s2, h, hop, ttl, src, StaleEntry(r, h, hop, src, rcv, now), src, e, now);
  }
}
