/** Which replies may replace a known route (sections 6.1 and 6.7 of RFC 3561). */
module Freshness {
  import opened Base
  import opened SeqNo
  import opened Messages
  import opened RouteTable
  import opened NodeState
  import opened Discovery
  import opened LinkBreak
  import opened Routes
  import opened NodeEvents
  import opened Frames
  import opened NodeFrames

  /** The entry of `k` keeps what a reply is compared with. */
  ghost predicate KeepsRoute(t: Table, t': Table, k: Addr) {
    k in t ==>
      && k in t'
      && t'[k].route == t[k].route && t'[k].info.iface == t[k].info.iface
      && t'[k].info.seqNo == t[k].info.seqNo && t'[k].info.validSeqNo == t[k].info.validSeqNo
      && t'[k].info.hops == t[k].info.hops && t'[k].info.flag == t[k].info.flag
      && t'[k].info.lifeTime >= t[k].info.lifeTime
  }

  lemma PurgeKeeps(t: Table, k: Addr, now: Time, bad: Time)
    requires k in t ==> t[k].info.lifeTime >= now
    ensures KeepsRoute(t, Purge(t, now, bad), k)
  {
  }

  lemma UpdateKeeps(t: Table, e: Entry, k: Addr)
    requires e.route.dst == k ==> k in t && e == AddPrecursors(t[k], e.info.precursors)
    ensures KeepsRoute(t, Update(t, e), k)
  {
  }

  function AddPrecursors(e: Entry, p: seq<Addr>): Entry { e.(info := e.info.(precursors := p)) }

  lemma PrecursorKeeps(t: Table, via: Addr, id: Addr, k: Addr, now: Time)
    requires TableOk(t) && k != NO_ADDR
    ensures var e := AddPrecursor(GetOr(t, via, DefaultEntry(now)), id);
            KeepsRoute(t, Update(t, e), k) && TableOk(Update(t, e))
  {
    hide TableOk;
    PrecursorEvolves(t, via, id, now);
    if via in t { EntryAt(t, via); }
    UpdateKeeps(t, AddPrecursor(GetOr(t, via, DefaultEntry(now)), id), k);
  }

  lemma ConnectKeeps(t: Table, dst: Addr, toOrigin: Entry, k: Addr, now: Time)
    requires TableOk(t) && dst in t && k != NO_ADDR && toOrigin.route.dst != k && Distinct(toOrigin.info.precursors)
    ensures KeepsRoute(t, ConnectPrecursors(t, dst, toOrigin, now), k)
  {
    hide Update, TableOk;
    var toDst := AddPrecursor(t[dst], toOrigin.route.nextHop);
    PrecursorKeeps(t, dst, toOrigin.route.nextHop, k, now);
    var t1 := Update(t, toDst);
    PrecursorKeeps(t1, toDst.route.nextHop, toOrigin.route.nextHop, k, now);
    var t2 := Update(t1, AddPrecursor(GetOr(t1, toDst.route.nextHop, DefaultEntry(now)), toOrigin.route.nextHop));
    var o := AddPrecursor(toOrigin, toDst.route.nextHop);
    UpdateKeeps(t2, o, k);
    UpdateOk(t2, o);
    PrecursorKeeps(Update(t2, o), o.route.nextHop, toDst.route.nextHop, k, now);
  }

  lemma UpdateOk(t: Table, e: Entry)
    requires TableOk(t) && Distinct(e.info.precursors)
    ensures TableOk(Update(t, e))
  {
  }

  /** The (number, hop count) that a reply leaves for its destination. */
  function Outcome(h: Rrep, hop: U8, e: Info): (U32, U16) {
    if Fresher(h, hop, e) then (h.dstSeqNo, hop) else (e.seqNo, e.hops)
  }

  /** Ahead in the order that replies must respect. */
  predicate Better(new_: (U32, U16), old_: (U32, U16)) {
    Newer(new_.0, old_.0) || (new_.0 == old_.0 && new_.1 < old_.1)
  }

  lemma ForwardRouteOutcome(p: Table, h: Rrep, hop: U8, sender: Addr, rcv: Iface, now: Time)
    requires h.dst in p && p[h.dst].info.lifeTime >= now
    ensures var t := ForwardRoute(p, h, hop, sender, rcv, now);
            h.dst in t && (t[h.dst].info.seqNo, t[h.dst].info.hops) == Outcome(h, hop, p[h.dst].info)
            && t[h.dst].info.lifeTime >= now
            && (p[h.dst].info.flag == VALID ==> t[h.dst].info.flag == VALID)
  {
    hide Newer;
  }

  lemma LearnKeeps(s: Node, h: Rrep, hop: U8, sender: Addr, rcv: Iface, now: Time)
    requires h.dst in s.Purged(now) && s.Purged(now)[h.dst].info.lifeTime >= now
    ensures var t := LearnFromReply(s, h, hop, sender, rcv, now).table;
            && h.dst in t && t[h.dst].info.lifeTime >= now
            && (t[h.dst].info.seqNo, t[h.dst].info.hops) == Outcome(h, hop, s.Purged(now)[h.dst].info)
  {
    hide Purge, ForwardRoute, Outcome;
    var t := ForwardRoute(s.Purged(now), h, hop, sender, rcv, now);
    ForwardRouteOutcome(s.Purged(now), h, hop, sender, rcv, now);
    PurgeKeeps(t, h.dst, now, s.cfg.badLinkLifetime);
  }

  lemma ForwardReplyKeeps(s: Node, h: Rrep, hop: U8, ttl: U8, now: Time)
    requires TableOk(s.table) && h.dst != h.origin && h.dst != NO_ADDR
    requires h.dst in s.table && s.table[h.dst].info.lifeTime >= now
    ensures KeepsRoute(s.table, ForwardReply(s, h, hop, ttl, now).table, h.dst)
  {
    hide Purge, Update, ConnectPrecursors, TableOk;
    var p := s.Purged(now);
    PurgeKeeps(s.table, h.dst, now, s.cfg.badLinkLifetime);
    PurgedQuiet(s, now);
    QuietOk(s, s.(table := p), {}, now);
    if h.origin in p && p[h.origin].info.flag != IN_SEARCH {
      EntryAt(p, h.origin);
      var toOrigin := Extended(s.cfg, p[h.origin], now);
      var u := Update(p, toOrigin);
      UpdateKeeps(p, toOrigin, h.dst);
      PurgeKeeps(u, h.dst, now, s.cfg.badLinkLifetime);
      var t := Purge(u, now, s.cfg.badLinkLifetime);
      ExtendEvolves(s.cfg, p, h.origin, now);
      EvolvesOk(p, t, {});
      if IsValid(t, h.dst) {
        ConnectKeeps(t, h.dst, toOrigin, h.dst, now);
      }
    }
  }

  /** A reply about a destination with a valid route and number leaves exactly
      the fresher of the two, whatever else the handler writes afterwards, and
      the fresher one is a newer number, or the same one over fewer hops. */
  lemma ReplyFreshness(s: Node, h: Rrep, ttl: U8, sender: Addr, rcv: Iface, now: Time)
    requires TableOk(s.table) && h.dst != h.origin && h.dst != NO_ADDR && s.cfg.badLinkLifetime >= 0
    requires IsValid(s.Purged(now), h.dst) && s.Purged(now)[h.dst].info.validSeqNo
    ensures var e := s.Purged(now)[h.dst].info; var t := RecvReply(s, h, ttl, sender, rcv, now).table;
            var hop := Wrap8(h.hopCount + 1);
            && h.dst in t
            && (t[h.dst].info.seqNo, t[h.dst].info.hops) ==
                 (if Better((h.dstSeqNo, hop), (e.seqNo, e.hops)) then (h.dstSeqNo, hop) else (e.seqNo, e.hops))
  {
    hide Purge, LearnFromReply, ForwardReply, SendPacketFromQueue, TableOk, Newer;
    var hop := Wrap8(h.hopCount + 1);
    PurgeCurrent(s.table, h.dst, now, s.cfg.badLinkLifetime);
    LearnKeeps(s, h, hop, sender, rcv, now);
    var s2 := LearnFromReply(s, h, hop, sender, rcv, now);
    LearnFromReplyQuiet(s, h, hop, sender, rcv, now);
    QuietOk(s, s2, {h.dst}, now);
    if s.IsMyOwnAddress(h.origin) {
      var before := GetOr(s.Purged(now), h.dst, DefaultEntry(now));
      PurgeKeeps(s2.table, h.dst, now, s.cfg.badLinkLifetime);
      FlushTable(EndSearch(s2, h, hop, sender, rcv, false, now), h.dst, now);
    } else {
      ForwardReplyKeeps(s2, h, hop, ttl, now);
    }
  }

  lemma PurgeCurrent(t: Table, k: Addr, now: Time, bad: Time)
    requires bad >= 0
    ensures k in Purge(t, now, bad) && t[k].info.flag != IN_SEARCH ==> Purge(t, now, bad)[k].info.lifeTime >= now
    ensures IsValid(Purge(t, now, bad), k) ==> Purge(t, now, bad)[k].info.lifeTime >= now
  {
  }

  lemma FlushTable(s: Node, dst: Addr, now: Time)
    ensures forall r: Route :: SendPacketFromQueue(s, dst, r, now).table == s.table
  {
    hide Filter, WithoutFirst, ForwardedAll, Matching;
  }

  /** The neighbour update that comes before every reply makes the sender's own
      entry lose its number, unless that entry is already one hop over the same device. */
  predicate ForgetsNumber(e: Entry, sender: Addr, rcv: Iface) {
    e.route.dst == sender && !(e.info.validSeqNo && e.info.hops == 1 && e.route.dev == rcv.dev)
  }

  /** So a whole received message keeps the order exactly when it does not come
      from the destination itself over a route that the update rewrites: then,
      and only then, an older or longer reply is taken over. */
  lemma ReceivedReplyFreshnessExactly(s: Node, h: Rrep, ttl: U8, sender: Addr, rcv: Iface, now: Time)
    requires TableOk(s.table) && h.dst != h.origin && h.dst != NO_ADDR && s.cfg.badLinkLifetime >= 0
    requires s.cfg.activeRouteTimeout >= 0
    requires IsValid(s.Purged(now), h.dst) && s.Purged(now)[h.dst].info.validSeqNo
    ensures var e := s.Purged(now)[h.dst]; var hop := Wrap8(h.hopCount + 1);
            var t := Receive(s, Some(RREP(h)), ttl, sender, rcv, now).table;
            && h.dst in t
            && (t[h.dst].info.seqNo, t[h.dst].info.hops) ==
                 (if ForgetsNumber(e, sender, rcv) || Better((h.dstSeqNo, hop), (e.info.seqNo, e.info.hops))
                  then (h.dstSeqNo, hop) else (e.info.seqNo, e.info.hops))
  {
    hide Purge, RecvReply, TableOk, Newer;
    var p := s.Purged(now);
    var t1 := RouteToNeighbor(s.cfg, s.table, sender, rcv, now);
    var s1 := s.(table := t1);
    PurgedQuiet(s, now);
    QuietOk(s, s.(table := p), {}, now);
    EntryAt(p, h.dst);
    NeighborEvolves(s.cfg, s.table, sender, rcv, now);
    EvolvesOk(s.table, t1, {});
    PurgeCurrent(s.table, h.dst, now, s.cfg.badLinkLifetime);
    assert t1[h.dst].info.lifeTime >= now && t1[h.dst].info.flag == VALID;
    PurgeSame(t1, h.dst, now, s.cfg.badLinkLifetime);
    if ForgetsNumber(p[h.dst], sender, rcv) {
      ForgottenReply(s1, h, ttl, sender, rcv, now);
    } else {
      assert t1[h.dst] == p[h.dst];
      ReplyFreshness(s1, h, ttl, sender, rcv, now);
    }
  }

  lemma PurgeSame(t: Table, k: Addr, now: Time, bad: Time)
    requires k in t && t[k].info.lifeTime >= now
    ensures k in Purge(t, now, bad) && Purge(t, now, bad)[k] == t[k]
  {
  }

  /** Against an entry without a valid number every reply wins. */
  lemma ForgottenReply(s: Node, h: Rrep, ttl: U8, sender: Addr, rcv: Iface, now: Time)
    requires TableOk(s.table) && h.dst != h.origin && h.dst != NO_ADDR
    requires IsValid(s.Purged(now), h.dst) && !s.Purged(now)[h.dst].info.validSeqNo
    requires s.Purged(now)[h.dst].info.lifeTime >= now
    ensures var t := RecvReply(s, h, ttl, sender, rcv, now).table;
            h.dst in t && (t[h.dst].info.seqNo, t[h.dst].info.hops) == (h.dstSeqNo, Wrap8(h.hopCount + 1))
  {
    hide Purge, LearnFromReply, ForwardReply, SendPacketFromQueue, TableOk, Newer;
    var hop := Wrap8(h.hopCount + 1);
    LearnKeeps(s, h, hop, sender, rcv, now);
    var s2 := LearnFromReply(s, h, hop, sender, rcv, now);
    LearnFromReplyQuiet(s, h, hop, sender, rcv, now);
    QuietOk(s, s2, {h.dst}, now);
    if s.IsMyOwnAddress(h.origin) {
      PurgeKeeps(s2.table, h.dst, now, s.cfg.badLinkLifetime);
      FlushTable(EndSearch(s2, h, hop, sender, rcv, false, now), h.dst, now);
    } else {
      ForwardReplyKeeps(s2, h, hop, ttl, now);
    }
  }
}
