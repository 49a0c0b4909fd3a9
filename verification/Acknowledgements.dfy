/** Acknowledged replies (section 6.8 of RFC 3561): which replies are
    acknowledged, and what the acknowledgement does for the route. */
module Acknowledgements {
  import opened Base
  import opened Messages
  import opened RouteTable
  import opened NodeState
  import opened Discovery
  import opened LinkBreak
  import opened Routes
  import opened NodeEvents
  import opened LoopFreedom
  import PacketQueue

  /** Which of the new sends are acknowledgements. */
  ghost predicate AcksOnly(s: Node, s': Node, m: Option<Sent>) {
    && s.log.sent <= s'.log.sent
    && (m.Some? ==> |s.log.sent| < |s'.log.sent| && s'.log.sent[|s.log.sent|] == m.value)
    && forall i :: |s.log.sent| + (if m.Some? then 1 else 0) <= i < |s'.log.sent| ==> !s'.log.sent[i].msg.RREP_ACK?
  }

  lemma BreakLinkNoAcks(s: Node, nextHop: Addr, now: Time)
    ensures AcksOnly(s, BreakLink(s, nextHop, now), None)
  {
    hide Purge, LostDestinations, LostPrecursors, InvalidateAll, PrecursorIfaces;
  }

  lemma {:induction false} BreakAllNoAcks(s: Node, lost: seq<Neighbor>, now: Time)
    ensures AcksOnly(s, BreakAll(s, lost, now), None)
    decreases |lost|
  {
    hide BreakLink;
    if lost != [] {
      var s1 := BreakLink(s, lost[0].addr, now);
      BreakLinkNoAcks(s, lost[0].addr, now);
      BreakAllNoAcks(s1, lost[1..], now);
      assert forall i :: |s.log.sent| <= i < |s1.log.sent| ==> BreakAll(s, lost, now).log.sent[i] == s1.log.sent[i];
    }
  }

  lemma HelloNoAcks(s: Node, h: Rrep, rcv: Iface, now: Time)
    ensures AcksOnly(s, ProcessHello(s, h, rcv, now), None)
  {
    hide HelloTable, BreakAll, Filter, NeighborIndex;
    var nb := s.neighbors + [Neighbor(h.dst, s.cfg.HelloLifetime() + now, false)];
    BreakAllNoAcks(s.(table := HelloTable(s, h, rcv, now), neighbors := nb), Filter(IsClosed(now), nb), now);
  }

  lemma ForwardNoAcks(s: Node, h: Rrep, hop: U8, ttl: U8, now: Time)
    ensures AcksOnly(s, ForwardReply(s, h, hop, ttl, now), None)
  {
    hide Purge, ConnectPrecursors, Extended, Update;
  }

  lemma AcceptNoAcks(s: Node, h: Rrep, hop: U8, sender: Addr, rcv: Iface, before: Entry, now: Time)
    ensures AcceptReply(s, h, hop, sender, rcv, before, now).log.sent == s.log.sent
  {
    hide Purge, Update, Filter, Matching, WithoutFirst, ForwardedAll, PacketQueue.Purge;
  }

  /** The acknowledgement of a reply from `sender`, over the interface of the route to it. */
  function AckTo(p: Table, sender: Addr): Sent
    requires sender in p
  {
    Sent(RREP_ACK, 1, p[sender].info.iface, sender)
  }

  lemma LearnAcks(s: Node, h: Rrep, hop: U8, sender: Addr, rcv: Iface, now: Time)
    requires s.cfg.badLinkLifetime >= 0 && sender in s.Purged(now)
    ensures var t := ForwardRoute(s.Purged(now), h, hop, sender, rcv, now);
            var s' := LearnFromReply(s, h, hop, sender, rcv, now);
            && sender in Purge(t, now, s.cfg.badLinkLifetime)
            && AcksOnly(s, s', if h.ackRequired then Some(AckTo(t, sender)) else None)
            && |s'.log.sent| == |s.log.sent| + if h.ackRequired then 1 else 0
  {
    hide Fresher;
  }

  lemma Then(a: Node, b: Node, c: Node, m: Option<Sent>)
    requires AcksOnly(a, b, m) && AcksOnly(b, c, None) && |b.log.sent| == |a.log.sent| + if m.Some? then 1 else 0
    ensures AcksOnly(a, c, m)
  {
  }

  /** A reply that asks for it, and is not a hello, is acknowledged to its sender,
      once, before anything else is sent; no other reply is. */
  lemma ReplyAckedExactly(s: Node, h: Rrep, ttl: U8, sender: Addr, rcv: Iface, now: Time)
    requires s.cfg.badLinkLifetime >= 0
    ensures var p := Met(s, sender, rcv, now).Purged(now);
            var t := ForwardRoute(p, h, Wrap8(h.hopCount + 1), sender, rcv, now);
            sender in t &&
            AcksOnly(s, Receive(s, Some(RREP(h)), ttl, sender, rcv, now),
                     if h.ackRequired && h.dst != h.origin then Some(AckTo(t, sender)) else None)
  {
    hide RouteToNeighbor, Purge, ForwardRoute, LearnFromReply, ForwardReply, AcceptReply, ProcessHello, AcksOnly;
    var s1, hop := Met(s, sender, rcv, now), Wrap8(h.hopCount + 1);
    MetIn(s, sender, rcv, now);
    KeepsSender(s1.Purged(now), h, hop, sender, rcv, now);
    var s' := Receive(s, Some(RREP(h)), ttl, sender, rcv, now);
    if h.dst == h.origin {
      HelloNoAcks(s1, h, rcv, now);
      SameSent(s, s1, s', None);
    } else {
      var s2 := LearnFromReply(s1, h, hop, sender, rcv, now);
      LearnAcks(s1, h, hop, sender, rcv, now);
      if s1.IsMyOwnAddress(h.origin) {
        AcceptNoAcks(s2, h, hop, sender, rcv, GetOr(s1.Purged(now), h.dst, DefaultEntry(now)), now);
        SameSentNone(s2, s');
      } else {
        ForwardNoAcks(s2, h, hop, ttl, now);
      }
      var m := if h.ackRequired
               then Some(AckTo(ForwardRoute(s1.Purged(now), h, hop, sender, rcv, now), sender)) else None;
      Then(s1, s2, s', m);
      SameSent(s, s1, s', m);
    }
  }

  lemma SameSent(s: Node, s1: Node, s': Node, m: Option<Sent>)
    requires s1.log.sent == s.log.sent && AcksOnly(s1, s', m)
    ensures AcksOnly(s, s', m)
  {
  }

  lemma SameSentNone(s: Node, s': Node)
    requires s'.log.sent == s.log.sent
    ensures AcksOnly(s, s', None)
  {
  }

  lemma KeepsSender(p: Table, h: Rrep, hop: U8, sender: Addr, rcv: Iface, now: Time)
    requires sender in p
    ensures sender in ForwardRoute(p, h, hop, sender, rcv, now)
  {
    hide Fresher;
  }

  /** An acknowledgement makes the route to its sender VALID, whatever it was, and
      changes nothing else but what hearing the sender changes anyway. */
  lemma AckRevives(s: Node, ttl: U8, sender: Addr, rcv: Iface, now: Time)
    requires s.cfg.badLinkLifetime >= 0
    ensures var p := Met(s, sender, rcv, now).Purged(now);
            var s' := Receive(s, Some(RREP_ACK), ttl, sender, rcv, now);
            && s' == s.(table := s'.table) && s'.table.Keys == p.Keys && IsValid(s'.table, sender)
            && (forall k :: k in p && k != sender ==> s'.table[k] == p[k])
            && s'.table[sender].route == p[sender].route && s'.table[sender].info.hops == p[sender].info.hops
            && s'.table[sender].info.lifeTime == p[sender].info.lifeTime
            && s'.table[sender].info.precursors == p[sender].info.precursors
  {
    hide RouteToNeighbor, Purge;
    MetIn(s, sender, rcv, now);
  }

  /** Between two nodes: a reply of `a` that asks for it is acknowledged by `b`,
      and the acknowledgement leaves `a` with a VALID route to `b`. */
  lemma AckReturns(a: Node, b: Node, x: Addr, y: Addr, h: Rrep, ttl: U8, rcvA: Iface, rcvB: Iface, now: Time,
      later: Time)
    requires a.cfg.badLinkLifetime >= 0 && b.cfg.badLinkLifetime >= 0 && h.ackRequired && h.dst != h.origin
    ensures var b' := Receive(b, Some(RREP(h)), ttl, x, rcvB, now);
            && |b.log.sent| < |b'.log.sent|
            && var m := b'.log.sent[|b.log.sent|];
               m.to == x && m.ttl == 1 && IsValid(Receive(a, Some(m.msg), m.ttl, y, rcvA, later).table, y)
  {
    hide Receive, Purge, Met, ForwardRoute;
    ReplyAckedExactly(b, h, ttl, x, rcvB, now);
    AckRevives(a, 1, y, rcvA, later);
  }
}
