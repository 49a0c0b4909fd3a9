/** Who answers a request, and with what (sections 6.5 and 6.6 of RFC 3561). */
module AnsweredRequests {
  import opened Base
  import opened SeqNo
  import opened Messages
  import opened RouteTable
  import opened NodeState
  import opened LinkBreak
  import opened Routes
  import opened NodeEvents
  import opened Frames
  import opened NodeFrames
  import opened Emissions
  import opened LoopFreedom
  import opened OwnRequests
  import opened ReverseNumbers
  import opened Precursors

  /** The node once it has learned the routes that the request teaches. */
  function Taught(s: Node, h: Rreq, src: Addr, rcv: Iface, now: Time): Node {
    LearnFromRequest(Recorded(Met(s, src, rcv, now), h, now), h, Wrap8(h.hopCount + 1), src, rcv, now)
  }

  /** The route to the destination may answer: it is up, its number is valid, it
      does not lead back to the sender, and the request wants no newer one. */
  predicate Answerable(t: Table, h: Rreq, src: Addr) {
    && h.dst in t && t[h.dst].info.flag == VALID && t[h.dst].info.validSeqNo && t[h.dst].route.nextHop != src
    && !h.destinationOnly && (h.unknownSeqNo || NotOlder(t[h.dst].info.seqNo, h.dstSeqNo))
  }

  /** What is left of the lifetime, in whole milliseconds. */
  function Left(e: Entry, now: Time): U32 { ToMilliseconds(e.info.lifeTime - now) }

  /** The answer of a node on the way: the number and hops of its own route, for
      as long as that lives on, sent back to where the request came from. */
  function AnswerFor(t: Table, h: Rreq, src: Addr, now: Time): Sent
    requires h.dst in t && h.origin in t
  {
    Sent(RREP(Rrep(t[h.dst].info.hops == 1, Wrap8(t[h.dst].info.hops), h.dst, t[h.dst].info.seqNo, h.origin,
                   Left(t[h.dst], now))),
         if src == h.origin then 1 else Wrap8(h.hopCount + 1), t[h.origin].info.iface, src)
  }

  /** The gratuitous reply tells the destination of the originator. */
  function GratuitousFor(t: Table, h: Rreq, src: Addr, now: Time): Sent
    requires h.dst in t && h.origin in t
  {
    Sent(RREP(Rrep(false, if src == h.origin then 1 else Wrap8(h.hopCount + 1), h.origin, t[h.origin].info.seqNo, h.dst,
                   Left(t[h.origin], now))),
         Wrap8(t[h.dst].info.hops), t[h.dst].info.iface, t[h.dst].route.nextHop)
  }

  /** The request as it is passed on: with the node's number for the destination
      when that is valid and not older, or the request has none. */
  function PassedOn(t: Table, h: Rreq): Rreq {
    var newer := Numbered(t, h.dst) && (h.unknownSeqNo || NotOlder(t[h.dst].info.seqNo, h.dstSeqNo));
    h.(hopCount := Wrap8(h.hopCount + 1), unknownSeqNo := h.unknownSeqNo && !newer,
       dstSeqNo := if newer then t[h.dst].info.seqNo else h.dstSeqNo)
  }

  /** What a node that is not the destination sends. */
  function Response(s: Node, t: Table, h: Rreq, ttl: U8, src: Addr, now: Time): seq<Sent>
    requires h.origin in t
  {
    if Answerable(t, h, src) then
      [AnswerFor(t, h, src, now)] + if h.gratuitous then [GratuitousFor(t, h, src, now)] else []
    else if (h.dst in t && t[h.dst].route.nextHop == src) || ttl < 2 then []
    else OnEveryInterface(s.ifaces, RREQ(PassedOn(t, h)), ttl - 1)
  }

  // ---------------------------------------------------------------------
  // The handler

  /** Nothing but route errors is sent. */
  ghost predicate OnlyErrors(s: Node, s': Node) {
    && s.log.sent <= s'.log.sent && s'.ifaces == s.ifaces && s'.cfg == s.cfg
    && (forall i :: |s.log.sent| <= i < |s'.log.sent| ==> s'.log.sent[i].msg.RERR?)
  }

  lemma BreakLinkErrors(s: Node, nextHop: Addr, now: Time)
    ensures OnlyErrors(s, BreakLink(s, nextHop, now))
  {
    hide Purge, LostDestinations, LostPrecursors, InvalidateAll, PrecursorIfaces;
  }

  lemma {:induction false} BreakAllErrors(s: Node, lost: seq<Neighbor>, now: Time)
    ensures OnlyErrors(s, BreakAll(s, lost, now))
    decreases |lost|
  {
    hide BreakLink;
    if lost != [] {
      var s1 := BreakLink(s, lost[0].addr, now);
      BreakLinkErrors(s, lost[0].addr, now);
      BreakAllErrors(s1, lost[1..], now);
      assert forall i :: |s.log.sent| <= i < |s1.log.sent| ==> BreakAll(s, lost, now).log.sent[i] == s1.log.sent[i];
    }
  }

  lemma LearnErrors(s: Node, h: Rreq, hop: U8, src: Addr, rcv: Iface, now: Time)
    ensures OnlyErrors(s, LearnFromRequest(s, h, hop, src, rcv, now))
  {
    hide Purge, ReverseRoute, RelayRoute, BreakAll, Filter, NeighborIndex;
    var relay := RelayRoute(s.cfg, Purge(ReverseRoute(s.cfg, s.Purged(now), h, hop, src, rcv, now), now,
                                         s.cfg.badLinkLifetime), h, src, rcv, now);
    var s1 := s.(table := relay, neighbors := s.neighbors + [Neighbor(src, s.cfg.HelloLifetime() + now, false)]);
    BreakAllErrors(s1, Filter(IsClosed(now), s1.neighbors), now);
  }

  lemma SameLogErrors(s: Node, r: Node, s2: Node)
    requires OnlyErrors(r, s2) && r.log == s.log && r.ifaces == s.ifaces && r.cfg == s.cfg
    ensures OnlyErrors(s, s2)
  {
  }

  /** Facts about the state in which the request is answered. */
  lemma TaughtIs(s: Node, h: Rreq, ttl: U8, src: Addr, rcv: Iface, now: Time)
    requires TableOk(s.table) && s.cfg.badLinkLifetime >= 0 && Accepts(Met(s, src, rcv, now), h, src, now)
    ensures var s2 := Taught(s, h, src, rcv, now); var t := s2.Purged(now);
            && TableOk(t) && s2.ifaces == s.ifaces && s2.cfg == s.cfg && s2.ctr.seqNo == s.ctr.seqNo
            && OnlyErrors(s, s2)
            && h.origin in t && t[h.origin].route.nextHop == src && t[h.origin].route.dst == h.origin
            && t[h.origin].info.iface == rcv
            && t[h.origin].info.hops == (if src == h.origin then 1 else Wrap8(h.hopCount + 1))
            && Receive(s, Some(RREQ(h)), ttl, src, rcv, now)
               == AnswerRequest(s2, h, Wrap8(h.hopCount + 1), ttl, src,
                                StaleEntry(Recorded(Met(s, src, rcv, now), h, now), h, Wrap8(h.hopCount + 1),
                                           src, rcv, now), now)
  {
    hide RouteToNeighbor, LearnFromRequest, AnswerRequest, Accepts, Purge, TableOk, StaleEntry, Evolves, Held,
         OnlyErrors;
    var s1 := Met(s, src, rcv, now);
    NeighborEvolves(s.cfg, s.table, src, rcv, now);
    EvolvesOk(s.table, s1.table, {});
    PurgedQuiet(s1, now);
    QuietOk(s1, s1.(table := s1.Purged(now)), {}, now);
    RecvRequestSends(s1, h, ttl, src, rcv, now);
    var r, hop := Recorded(s1, h, now), Wrap8(h.hopCount + 1);
    var s2 := LearnFromRequest(r, h, hop, src, rcv, now);
    LearnQuiet(r, h, hop, src, rcv, now);
    QuietOk(r, s2, {h.origin}, now);
    PurgedQuiet(s2, now);
    QuietOk(s2, s2.(table := s2.Purged(now)), {}, now);
    LearnNumber(r, h, hop, src, rcv, now);
    LearnErrors(r, h, hop, src, rcv, now);
    SameLogErrors(s, r, s2);
    var e := LearnTeaches(r, h, src, rcv, now);
    PurgeHolds(s2.table, h.origin, e, now, s.cfg.badLinkLifetime);
    HeldSays(s2.Purged(now), h.origin, e, now);
    EntryAt(s2.Purged(now), h.origin);
  }

  lemma HeldSays(t: Table, k: Addr, e: Entry, now: Time)
    requires Held(t, k, e, now)
    ensures k in t && t[k].route == e.route && t[k].info.iface == e.info.iface && t[k].info.hops == e.info.hops
  {
  }

  /** What `AnswerRequest` sends in that state. */
  lemma AnswerSends(s: Node, h: Rreq, ttl: U8, src: Addr, stale: Entry, now: Time)
    requires TableOk(s.Purged(now)) && !s.IsMyOwnAddress(h.dst)
    requires var t := s.Purged(now);
             h.origin in t && t[h.origin].route.nextHop == src
             && t[h.origin].info.hops == (if src == h.origin then 1 else Wrap8(h.hopCount + 1))
    ensures AnswerRequest(s, h, Wrap8(h.hopCount + 1), ttl, src, stale, now).log.sent
            == s.log.sent + Response(s, s.Purged(now), h, ttl, src, now)
  {
    hide Purge, TableOk, SendReplyByIntermediateNode, AnswerFor, GratuitousFor, PassedOn, Relayed, NotOlder;
    var t := s.Purged(now);
    var s1 := s.(table := t);
    if h.dst in t { IntermediateSends(s1, h, src, now); }
    RelayedIs(s1, h);
  }

  lemma IntermediateSends(s: Node, h: Rreq, src: Addr, now: Time)
    requires TableOk(s.table) && h.origin in s.table && h.dst in s.table && s.table[h.origin].route.nextHop == src
    requires s.table[h.origin].info.hops == if src == h.origin then 1 else Wrap8(h.hopCount + 1)
    ensures SendReplyByIntermediateNode(s, s.table[h.dst], s.table[h.origin], h.gratuitous, now).log.sent
            == s.log.sent + [AnswerFor(s.table, h, src, now)]
               + if h.gratuitous then [GratuitousFor(s.table, h, src, now)] else []
  {
    hide TableOk, Update, ToMilliseconds;
    EntryAt(s.table, h.origin);
    EntryAt(s.table, h.dst);
  }

  lemma RelayedIs(s: Node, h: Rreq)
    ensures Relayed(s, h, Wrap8(h.hopCount + 1)) == PassedOn(s.table, h)
  {
    hide NotOlder;
  }

  /** What a node that processes a request for another node sends, after any
      reports of links that turn out broken: an answer exactly when its route is
      answerable, and otherwise the request itself unless it is for the sender's
      own side or has no TTL left. */
  lemma RespondsExactly(s: Node, h: Rreq, ttl: U8, src: Addr, rcv: Iface, now: Time)
    requires TableOk(s.table) && s.cfg.badLinkLifetime >= 0 && Accepts(Met(s, src, rcv, now), h, src, now)
    requires !s.IsMyOwnAddress(h.dst)
    ensures var s2 := Taught(s, h, src, rcv, now); var t := s2.Purged(now);
            && OnlyErrors(s, s2) && h.origin in t && t[h.origin].route.nextHop == src && t[h.origin].info.iface == rcv
            && Receive(s, Some(RREQ(h)), ttl, src, rcv, now).log.sent == s2.log.sent + Response(s, t, h, ttl, src, now)
  {
    hide Receive, Accepts, TableOk, Taught, AnswerRequest, Purge, OnlyErrors, Response, StaleEntry;
    TaughtIs(s, h, ttl, src, rcv, now);
    var s2 := Taught(s, h, src, rcv, now);
    SameIfaces(s, s2, h.dst);
    AnswerSends(s2, h, ttl, src,
                StaleEntry(Recorded(Met(s, src, rcv, now), h, now), h, Wrap8(h.hopCount + 1), src, rcv, now), now);
    SameResponse(s, s2, s2.Purged(now), h, ttl, src, now);
  }

  lemma SameIfaces(s: Node, s2: Node, a: Addr)
    requires s2.ifaces == s.ifaces
    ensures s2.IsMyOwnAddress(a) <==> s.IsMyOwnAddress(a)
  {
  }

  lemma SameResponse(s: Node, s2: Node, t: Table, h: Rreq, ttl: U8, src: Addr, now: Time)
    requires s2.ifaces == s.ifaces && h.origin in t
    ensures Response(s2, t, h, ttl, src, now) == Response(s, t, h, ttl, src, now)
  {
    hide Answerable, AnswerFor, GratuitousFor, PassedOn;
  }

  // ---------------------------------------------------------------------
  // The answer and the number asked for

  /** Going from `s` to `s'` the node put on the air a reply about `d` for `o`. */
  ghost predicate Replies(s: Node, s': Node, d: Addr, o: Addr) {
    exists i :: |s.log.sent| <= i < |s'.log.sent| && s'.log.sent[i].msg.RREP?
                && s'.log.sent[i].msg.rrep.dst == d && s'.log.sent[i].msg.rrep.origin == o
  }

  lemma ResponseReplies(s: Node, s2: Node, s': Node, t: Table, h: Rreq, ttl: U8, src: Addr, now: Time)
    requires OnlyErrors(s, s2) && h.origin in t && s'.log.sent == s2.log.sent + Response(s, t, h, ttl, src, now)
    ensures Replies(s, s', h.dst, h.origin) <==> Answerable(t, h, src)
  {
    hide Answerable, PassedOn;
    var r := Response(s, t, h, ttl, src, now);
    if Answerable(t, h, src) {
      AnswerableIn(t, h, src);
      assert s'.log.sent[|s2.log.sent|] == r[0] == AnswerFor(t, h, src, now);
    } else {
      forall i | |s.log.sent| <= i < |s'.log.sent| ensures !s'.log.sent[i].msg.RREP? {
        if i < |s2.log.sent| {
          assert s'.log.sent[i] == s2.log.sent[i];
        } else {
          assert s'.log.sent[i] == r[i - |s2.log.sent|];
        }
      }
    }
  }

  lemma AnswerableIn(t: Table, h: Rreq, src: Addr)
    requires Answerable(t, h, src)
    ensures h.dst in t
  {
  }

  /** A node on the way answers exactly when its route is up and numbered, does
      not lead to the sender, the request may be answered by others, and of the
      true counters, `x` behind the number it holds and `y` behind the one asked
      for, `x` is not the smaller.  So nobody answers with a stale number. */
  lemma AnswersExactly(s: Node, h: Rreq, ttl: U8, src: Addr, rcv: Iface, now: Time, x: nat, y: nat)
    requires TableOk(s.table) && s.cfg.badLinkLifetime >= 0 && Accepts(Met(s, src, rcv, now), h, src, now)
    requires !s.IsMyOwnAddress(h.dst)
    requires var t := Taught(s, h, src, rcv, now).Purged(now);
             Numbered(t, h.dst) && !h.unknownSeqNo ==>
               t[h.dst].info.seqNo == Wrap32(x) && h.dstSeqNo == Wrap32(y) && -HALF < x - y < HALF
    ensures var t := Taught(s, h, src, rcv, now).Purged(now);
            Replies(s, Receive(s, Some(RREQ(h)), ttl, src, rcv, now), h.dst, h.origin) <==>
              && IsValid(t, h.dst) && Numbered(t, h.dst) && t[h.dst].route.nextHop != src
              && !h.destinationOnly && (h.unknownSeqNo || x >= y)
  {
    hide Receive, Accepts, TableOk, Taught, Purge, OnlyErrors, Response, Replies, NotOlder;
    var s2 := Taught(s, h, src, rcv, now);
    var t := s2.Purged(now);
    RespondsExactly(s, h, ttl, src, rcv, now);
    ResponseReplies(s, s2, Receive(s, Some(RREQ(h)), ttl, src, rcv, now), t, h, ttl, src, now);
    if Numbered(t, h.dst) && !h.unknownSeqNo {
      NewerIsCounterOrder(x, y);
    }
  }

  /** A request that is passed on asks for the larger of the two numbers, or for
      the only one. */
  lemma PassedOnAsks(s: Node, h: Rreq, ttl: U8, src: Addr, rcv: Iface, now: Time, x: nat, y: nat, i: nat)
    requires TableOk(s.table) && s.cfg.badLinkLifetime >= 0 && Accepts(Met(s, src, rcv, now), h, src, now)
    requires !s.IsMyOwnAddress(h.dst)
    requires var t := Taught(s, h, src, rcv, now).Purged(now);
             Numbered(t, h.dst) ==> t[h.dst].info.seqNo == Wrap32(x) && (!h.unknownSeqNo ==> -HALF < x - y < HALF)
    requires !h.unknownSeqNo ==> h.dstSeqNo == Wrap32(y)
    requires var sent := Receive(s, Some(RREQ(h)), ttl, src, rcv, now).log.sent;
             |s.log.sent| <= i < |sent| && sent[i].msg.RREQ?
    ensures var t := Taught(s, h, src, rcv, now).Purged(now);
            var h' := Receive(s, Some(RREQ(h)), ttl, src, rcv, now).log.sent[i].msg.rreq;
            && h' == h.(hopCount := Wrap8(h.hopCount + 1), unknownSeqNo := h'.unknownSeqNo, dstSeqNo := h'.dstSeqNo)
            && (h'.unknownSeqNo <==> h.unknownSeqNo && !Numbered(t, h.dst))
            && (!h'.unknownSeqNo ==>
                  h'.dstSeqNo == if !Numbered(t, h.dst) then Wrap32(y) else if h.unknownSeqNo then Wrap32(x)
                                 else Wrap32(Max(x, y)))
  {
    hide Receive, Accepts, TableOk, Taught, Purge, NotOlder, Answerable, AnswerFor, GratuitousFor;
    var s2 := Taught(s, h, src, rcv, now);
    var t := s2.Purged(now);
    RespondsExactly(s, h, ttl, src, rcv, now);
    var sent := Receive(s, Some(RREQ(h)), ttl, src, rcv, now).log.sent;
    var r := Response(s, t, h, ttl, src, now);
    ResponseRequests(s, t, h, ttl, src, now, i - |s2.log.sent|);
    if Numbered(t, h.dst) && !h.unknownSeqNo {
      NewerIsCounterOrder(x, y);
    }
  }

  lemma ResponseRequests(s: Node, t: Table, h: Rreq, ttl: U8, src: Addr, now: Time, i: int)
    requires h.origin in t
    ensures var r := Response(s, t, h, ttl, src, now); 0 <= i < |r| && r[i].msg.RREQ? ==>
            r[i].msg.rreq == PassedOn(t, h)
  {
    hide Answerable, PassedOn;
    if Answerable(t, h, src) { AnswerableIn(t, h, src); }
  }

  // ---------------------------------------------------------------------
  // The precursors after an answer

  lemma IntermediateLists(s: Node, h: Rreq, src: Addr, now: Time, k: Addr)
    requires TableOk(s.table) && h.origin in s.table && h.dst in s.table && h.dst != h.origin
    requires s.table[h.origin].route.nextHop == src
    ensures var t := s.table;
            var t' := SendReplyByIntermediateNode(s, t[h.dst], t[h.origin], h.gratuitous, now).table;
            && t'.Keys == t.Keys
            && forall z :: z in ListedAt(t', k) <==>
                 z in ListedAt(t, k) || (k == h.dst && z == src) || (k == h.origin && z == t[h.dst].route.nextHop)
  {
    hide TableOk, Update, ListedAt;
    var t := s.table;
    EntryAt(t, h.origin);
    EntryAt(t, h.dst);
    OkPrecursors(h.origin, t[h.origin]);
    OkPrecursors(h.dst, t[h.dst]);
    StaleLists(t, t[h.dst], src, k);
    StaleLists(Update(t, AddPrecursor(t[h.dst], src)), t[h.origin], t[h.dst].route.nextHop, k);
    ListedIs(t, h.dst);
    ListedIs(t, h.origin);
  }

  lemma ListedIs(t: Table, k: Addr)
    requires k in t
    ensures ListedAt(t, k) == t[k].info.precursors
  {
  }

  lemma StaleLists(t: Table, e: Entry, id: Addr, k: Addr)
    requires TableOk(t) && Distinct(e.info.precursors) && e.route.dst in t
    ensures var t' := Update(t, AddPrecursor(e, id));
            && TableOk(t') && t'.Keys == t.Keys
            && forall z :: z in ListedAt(t', k) <==>
                 if k == e.route.dst then z in e.info.precursors || z == id else z in ListedAt(t, k)
  {
    StaleExactly(t, e, id, k);
  }

  /** A node that answers for the destination lists the sender for the route to
      it, and the next hop there for the route to the originator; nobody else
      becomes a precursor and nobody is dropped. */
  lemma AnswerPrecursors(s: Node, h: Rreq, ttl: U8, src: Addr, rcv: Iface, now: Time, k: Addr)
    requires TableOk(s.table) && s.cfg.badLinkLifetime >= 0 && Accepts(Met(s, src, rcv, now), h, src, now)
    requires !s.IsMyOwnAddress(h.dst) && Answerable(Taught(s, h, src, rcv, now).Purged(now), h, src)
    ensures var t := Taught(s, h, src, rcv, now).Purged(now);
            var t' := Receive(s, Some(RREQ(h)), ttl, src, rcv, now).table;
            && h.dst in t && t'.Keys == t.Keys
            && forall z :: z in ListedAt(t', k) <==>
                 z in ListedAt(t, k) || (k == h.dst && z == src) || (k == h.origin && z == t[h.dst].route.nextHop)
  {
    hide Receive, Accepts, TableOk, Taught, Purge, OnlyErrors, StaleEntry, SendReplyByIntermediateNode, NotOlder,
         ListedAt;
    TaughtIs(s, h, ttl, src, rcv, now);
    var s2 := Taught(s, h, src, rcv, now);
    SameIfaces(s, s2, h.dst);
    IntermediateLists(s2.(table := s2.Purged(now)), h, src, now, k);
  }

  // ---------------------------------------------------------------------
  // The destination

  /** The destination answers every request that it processes, with its own
      number, raised first if exactly the next one is asked for. */
  lemma DestinationResponds(s: Node, h: Rreq, ttl: U8, src: Addr, rcv: Iface, now: Time)
    requires TableOk(s.table) && s.cfg.badLinkLifetime >= 0 && Accepts(Met(s, src, rcv, now), h, src, now)
    requires s.IsMyOwnAddress(h.dst)
    ensures var s2 := Taught(s, h, src, rcv, now);
            var s' := Receive(s, Some(RREQ(h)), ttl, src, rcv, now);
            && OnlyErrors(s, s2)
            && s'.ctr.seqNo == (if !h.unknownSeqNo && h.dstSeqNo == Wrap32(s.ctr.seqNo + 1) then h.dstSeqNo
                                else s.ctr.seqNo)
            && s'.log.sent == s2.log.sent + [
                 Sent(RREP(Rrep(false, 0, h.dst, s'.ctr.seqNo, h.origin, ToMilliseconds(s.cfg.myRouteTimeout))),
                      if src == h.origin then 1 else Wrap8(h.hopCount + 1), rcv, src)]
  {
    hide Receive, Accepts, TableOk, Taught, Purge, OnlyErrors, StaleEntry, ToMilliseconds;
    TaughtIs(s, h, ttl, src, rcv, now);
    SameIfaces(s, Taught(s, h, src, rcv, now), h.dst);
  }

  /** Of the true counters, `x` behind its own number and `y` behind the one asked
      for, it answers with the larger exactly when `y` is at most `x + 1`.  One
      that is asked for more answers with an older number than the request wants. */
  lemma DestinationAnswersExactly(s: Node, h: Rreq, ttl: U8, src: Addr, rcv: Iface, now: Time, x: nat, y: nat)
    requires TableOk(s.table) && s.cfg.badLinkLifetime >= 0 && Accepts(Met(s, src, rcv, now), h, src, now)
    requires s.IsMyOwnAddress(h.dst) && !h.unknownSeqNo
    requires s.ctr.seqNo == Wrap32(x) && h.dstSeqNo == Wrap32(y) && -HALF < x - y < HALF
    ensures var n := Receive(s, Some(RREQ(h)), ttl, src, rcv, now).ctr.seqNo;
            && (n == Wrap32(Max(x, y)) <==> y <= x + 1)
            && (NotOlder(n, h.dstSeqNo) <==> y <= x + 1)
  {
    hide Receive, Accepts, TableOk, Taught, Purge, NotOlder, OnlyErrors, Wrap32;
    DestinationResponds(s, h, ttl, src, rcv, now);
    AnswerNumber(x, y);
  }

  lemma AnswerNumber(x: nat, y: nat)
    requires -HALF < x - y < HALF
    ensures var n := if Wrap32(y) == Wrap32(Wrap32(x) + 1) then Wrap32(y) else Wrap32(x);
            && (n == Wrap32(Max(x, y)) <==> y <= x + 1)
            && (NotOlder(n, Wrap32(y)) <==> y <= x + 1)
  {
    hide NotOlder;
    NewerIsCounterOrder(x, y);
    NewerIsCounterOrder(y, y);
    if Wrap32(y) == Wrap32(x + 1) { SameTurn(y, x + 1); }
    if Wrap32(y) == Wrap32(x) { SameTurn(y, x); }
  }

  lemma SameTurn(a: nat, b: nat)
    requires Wrap32(a) == Wrap32(b) && -FULL < a - b < FULL
    ensures a == b
  {
  }
}
