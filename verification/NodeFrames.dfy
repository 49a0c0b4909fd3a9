/** The frame of every handler, lifted from tables to nodes. */
module NodeFrames {
  import opened Base
  import opened Messages
  import opened RouteTable
  import opened NodeState
  import opened LinkBreak
  import opened Routes
  import opened NodeEvents
  import opened Frames
  import IdCaches

  /** A handler that originates no request and leaves the search and the queue
      alone, redirects at most the entries in `about`, and may note a broadcast. */
  ghost predicate Quiet(s: Node, s': Node, about: set<Addr>, now: Time) {
    && Evolves(s.table, s'.table, about)
    && s'.cfg == s.cfg && s'.ifaces == s.ifaces
    && s'.search == s.search && s'.queue == s.queue
    && s'.ctr.requestId == s.ctr.requestId
    && s'.hello.timer == s.hello.timer && (s'.hello.lastBcast == s.hello.lastBcast || s'.hello.lastBcast == now)
  }

  lemma QuietTrans(a: Node, b: Node, c: Node, x: set<Addr>, y: set<Addr>, z: set<Addr>, now: Time)
    requires Quiet(a, b, x, now) && Quiet(b, c, y, now) && x <= z && y <= z
    ensures Quiet(a, c, z, now)
  {
    EvolvesTrans(a.table, b.table, c.table, x, y, z);
  }

  lemma QuietOk(s: Node, s': Node, about: set<Addr>, now: Time)
    requires Quiet(s, s', about, now) && TableOk(s.table)
    ensures TableOk(s'.table)
  {
  }

  lemma PurgedQuiet(s: Node, now: Time)
    ensures Quiet(s, s.(table := s.Purged(now)), {}, now)
  {
    PurgeEvolves(s.table, now, s.cfg.badLinkLifetime);
  }

  lemma SendRerrQuiet(s: Node, rerr: Rerr, precursors: seq<Addr>)
    ensures var s' := SendRerrMessage(s, rerr, precursors);
            s' == s.(ctr := s.ctr.(rerrCount := s'.ctr.rerrCount), log := s'.log)
  {
    hide PrecursorIfaces, OnEveryInterface;
  }

  lemma BreakLinkQuiet(s: Node, nextHop: Addr, now: Time)
    ensures Quiet(s, BreakLink(s, nextHop, now), {}, now)
    ensures BreakLink(s, nextHop, now).neighbors == s.neighbors
  {
    hide SendRerrMessage, Evolves, Purge, InvalidateAll, LostDestinations, LostPrecursors;
    var p := s.Purged(now);
    PurgeEvolves(s.table, now, s.cfg.badLinkLifetime);
    if nextHop in p {
      var lost := LostDestinations(p, nextHop);
      SendRerrQuiet(s.(table := p), Rerr(0, 0, lost), LostPrecursors(p, nextHop));
      InvalidateEvolves(p, lost.Keys, now, s.cfg.badLinkLifetime);
      EvolvesTrans(s.table, p, InvalidateAll(p, lost.Keys, now, s.cfg.badLinkLifetime), {}, {}, {});
    }
  }

  lemma {:induction false} BreakAllQuiet(s: Node, lost: seq<Neighbor>, now: Time)
    ensures Quiet(s, BreakAll(s, lost, now), {}, now)
    decreases |lost|
  {
    hide BreakLink, Evolves;
    if lost == [] {
      EvolvesSame(s.table);
    } else {
      BreakLinkQuiet(s, lost[0].addr, now);
      BreakAllQuiet(BreakLink(s, lost[0].addr, now), lost[1..], now);
      QuietTrans(s, BreakLink(s, lost[0].addr, now), BreakAll(s, lost, now), {}, {}, {}, now);
    }
  }

  lemma PurgeNeighborsQuiet(s: Node, now: Time)
    ensures Quiet(s, PurgeNeighbors(s, now), {}, now)
  {
    hide BreakAll, Evolves, Filter;
    EvolvesSame(s.table);
    BreakAllQuiet(s, Filter(IsClosed(now), s.neighbors), now);
  }

  lemma UpdateNeighborQuiet(s: Node, addr: Addr, expire: Time, now: Time)
    ensures Quiet(s, UpdateNeighbor(s, addr, expire, now), {}, now)
  {
    hide PurgeNeighbors, Evolves, NeighborIndex;
    EvolvesSame(s.table);
    PurgeNeighborsQuiet(s.(neighbors := s.neighbors + [Neighbor(addr, expire + now, false)]), now);
  }

  lemma RecvErrorQuiet(s: Node, rerr: Rerr, src: Addr, now: Time)
    ensures Quiet(s, RecvError(s, rerr, src, now), {}, now)
  {
    hide SendRerrMessage, Evolves, Purge, InvalidateAll, Affected;
    var p := s.Purged(now);
    var affected := Affected(p, rerr.unreachable, src);
    PurgeEvolves(s.table, now, s.cfg.badLinkLifetime);
    SendRerrQuiet(s.(table := p), rerr.(unreachable := affected), CollectPrecursors(p, SortedKeys(affected.Keys), []));
    InvalidateEvolves(p, affected.Keys, now, s.cfg.badLinkLifetime);
    EvolvesTrans(s.table, p, InvalidateAll(p, affected.Keys, now, s.cfg.badLinkLifetime), {}, {}, {});
  }

  lemma RerrNoRouteQuiet(s: Node, dst: Addr, dstSeqNo: U32, origin: Addr, now: Time)
    ensures Quiet(s, RerrNoRoute(s, dst, dstSeqNo, origin, now), {}, now)
  {
    hide Purge, Evolves;
    EvolvesSame(s.table);
    PurgedQuiet(s, now);
  }

  lemma RouteOutputQuiet(s: Node, dst: Addr, oif: int, now: Time)
    requires TableOk(s.table)
    ensures Quiet(s, RouteOutput(s, dst, oif, now), {}, now)
  {
    hide Refresh, Purge, Evolves, TableOk;
    var p := s.Purged(now);
    PurgedQuiet(s, now);
    QuietOk(s, s.(table := p), {}, now);
    if IsValid(p, dst) {
      var life, bad := s.cfg.activeRouteTimeout, s.cfg.badLinkLifetime;
      var t := Refresh(p, dst, life, now, bad);
      RefreshEvolves(p, dst, life, now, bad);
      EvolvesOk(p, t, {});
      RefreshEvolves(t, p[dst].route.nextHop, life, now, bad);
      EvolvesTrans(s.table, p, t, {}, {}, {});
      EvolvesTrans(s.table, t, Refresh(t, p[dst].route.nextHop, life, now, bad), {}, {}, {});
    }
  }

  /** Refreshing several entries in a row. */
  function RefreshAll(t: Table, keys: seq<Addr>, life: Time, now: Time, bad: Time): Table
    decreases |keys|
  {
    if keys == [] then t else RefreshAll(Refresh(t, keys[0], life, now, bad), keys[1..], life, now, bad)
  }

  lemma {:induction false} RefreshAllEvolves(t: Table, keys: seq<Addr>, life: Time, now: Time, bad: Time)
    requires TableOk(t)
    ensures Evolves(t, RefreshAll(t, keys, life, now, bad), {}) && TableOk(RefreshAll(t, keys, life, now, bad))
    decreases |keys|
  {
    hide Refresh, Evolves, TableOk;
    if keys == [] {
      EvolvesSame(t);
    } else {
      var t1 := Refresh(t, keys[0], life, now, bad);
      RefreshEvolves(t, keys[0], life, now, bad);
      EvolvesOk(t, t1, {});
      RefreshAllEvolves(t1, keys[1..], life, now, bad);
      EvolvesTrans(t, t1, RefreshAll(t1, keys[1..], life, now, bad), {}, {}, {});
    }
  }

  lemma UseRouteQuiet(s: Node, origin: Addr, dst: Addr, now: Time)
    requires TableOk(s.table)
    ensures Quiet(s, UseRoute(s, origin, dst, now), {}, now)
  {
    hide Purge, RerrNoRoute, Evolves, TableOk;
    var p := s.Purged(now);
    PurgedQuiet(s, now);
    var s0 := s.(table := p);
    QuietOk(s, s0, {}, now);
    if IsValid(p, dst) {
      UseValidRouteQuiet(s, origin, dst, now);
    } else {
      var seqNo := if dst in p && p[dst].info.validSeqNo then p[dst].info.seqNo else 0;
      RerrNoRouteQuiet(s0, dst, seqNo, origin, now);
      QuietTrans(s, s0, RerrNoRoute(s0, dst, seqNo, origin, now), {}, {}, {}, now);
    }
  }

  lemma ForwardingQuiet(s: Node, uid: int, header: PacketQueue.Header, now: Time)
    requires TableOk(s.table)
    ensures Quiet(s, Forwarding(s, uid, header, now), {}, now)
  {
    hide Purge, UseRoute, Evolves;
    UseRouteQuiet(s, header.src, header.dst, now);
  }

  lemma UseValidRouteQuiet(s: Node, origin: Addr, dst: Addr, now: Time)
    requires TableOk(s.table) && IsValid(s.Purged(now), dst)
    ensures Quiet(s, UseRoute(s, origin, dst, now), {}, now)
  {
    hide Refresh, Purge, RefreshAll, UpdateNeighbor, Evolves, TableOk;
    var p := s.Purged(now);
    PurgedQuiet(s, now);
    QuietOk(s, s.(table := p), {}, now);
    var life, bad := s.cfg.activeRouteTimeout, s.cfg.badLinkLifetime;
    var gateway := p[dst].route.nextHop;
    var t1 := Refresh(Refresh(Refresh(p, origin, life, now, bad), dst, life, now, bad), gateway, life, now, bad);
    var back := GetOr(t1, origin, DefaultEntry(now)).route.nextHop;
    var t2 := Refresh(t1, back, life, now, bad);
    RefreshAllEvolves(p, [origin, dst, gateway, back], life, now, bad);
    RefreshFour(p, [origin, dst, gateway, back], life, now, bad);
    var s1 := s.(table := t2);
    EvolvesTrans(s.table, p, t2, {}, {}, {});
    var s2 := UpdateNeighbor(s1, gateway, life, now);
    UpdateNeighborQuiet(s1, gateway, life, now);
    UpdateNeighborQuiet(s2, back, life, now);
    QuietTrans(s, s1, s2, {}, {}, {}, now);
    QuietTrans(s, s2, UpdateNeighbor(s2, back, life, now), {}, {}, {}, now);
  }

  lemma RefreshFour(t: Table, keys: seq<Addr>, life: Time, now: Time, bad: Time)
    requires |keys| == 4
    ensures RefreshAll(t, keys, life, now, bad) ==
              Refresh(Refresh(Refresh(Refresh(t, keys[0], life, now, bad), keys[1], life, now, bad),
                              keys[2], life, now, bad), keys[3], life, now, bad)
  {
    hide Refresh;
    var a, b, c := keys[1..], keys[2..], keys[3..];
    assert a[1..] == b && b[1..] == c && c[1..] == [];
    var t1 := Refresh(t, keys[0], life, now, bad);
    var t2 := Refresh(t1, keys[1], life, now, bad);
    var t3 := Refresh(t2, keys[2], life, now, bad);
    assert RefreshAll(t3, c, life, now, bad) == RefreshAll(Refresh(t3, keys[3], life, now, bad), [], life, now, bad);
    assert RefreshAll(t2, b, life, now, bad) == RefreshAll(t3, c, life, now, bad);
    assert RefreshAll(t1, a, life, now, bad) == RefreshAll(t2, b, life, now, bad);
  }

  lemma DeliverLocallyQuiet(s: Node, origin: Addr, now: Time)
    requires TableOk(s.table)
    ensures Quiet(s, DeliverLocally(s, origin, now), {}, now)
  {
    hide Refresh, UpdateNeighbor, Evolves, TableOk;
    var life, bad := s.cfg.activeRouteTimeout, s.cfg.badLinkLifetime;
    var t := Refresh(s.table, origin, life, now, bad);
    RefreshEvolves(s.table, origin, life, now, bad);
    EvolvesOk(s.table, t, {});
    if IsValid(t, origin) {
      var back := t[origin].route.nextHop;
      RefreshEvolves(t, back, life, now, bad);
      var s1 := s.(table := Refresh(t, back, life, now, bad));
      UpdateNeighborQuiet(s1, back, life, now);
      EvolvesTrans(s.table, t, s1.table, {}, {}, {});
      QuietTrans(s, s1, UpdateNeighbor(s1, back, life, now), {}, {}, {}, now);
    }
  }

  // ---------------------------------------------------------------------
  // Replies

  lemma HelloEvolves(s: Node, h: Rrep, rcv: Iface, now: Time)
    requires TableOk(s.Purged(now))
    ensures Evolves(s.Purged(now), HelloTable(s, h, rcv, now), {})
  {
    hide Evolves, Purge, TableOk;
    var p := s.Purged(now);
    if h.dst in p { EntryAt(p, h.dst); }
    WriteEvolves(p, h.dst, HelloTable(s, h, rcv, now)[h.dst]);
  }

  lemma ProcessHelloQuiet(s: Node, h: Rrep, rcv: Iface, now: Time)
    requires TableOk(s.table)
    ensures Quiet(s, ProcessHello(s, h, rcv, now), {}, now)
  {
    hide Purge, UpdateNeighbor, Evolves, HelloTable, TableOk;
    var p := s.Purged(now);
    PurgedQuiet(s, now);
    QuietOk(s, s.(table := p), {}, now);
    HelloEvolves(s, h, rcv, now);
    var s1 := s.(table := HelloTable(s, h, rcv, now));
    EvolvesTrans(s.table, p, s1.table, {}, {}, {});
    UpdateNeighborQuiet(s1, h.dst, s.cfg.HelloLifetime(), now);
    QuietTrans(s, s1, UpdateNeighbor(s1, h.dst, s.cfg.HelloLifetime(), now), {}, {}, {}, now);
  }

  lemma SendReplyAckQuiet(s: Node, neighbor: Addr, now: Time)
    ensures Quiet(s, SendReplyAck(s, neighbor, now), {}, now)
  {
    hide Purge, Evolves;
    PurgedQuiet(s, now);
  }

  lemma EvolvesWiden(t: Table, t': Table, x: set<Addr>, y: set<Addr>)
    requires Evolves(t, t', x) && x <= y
    ensures Evolves(t, t', y)
  {
  }

  lemma ExtendEvolves(cfg: Config, p: Table, k: Addr, now: Time)
    requires TableOk(p) && k in p && p[k].info.flag != IN_SEARCH
    ensures Evolves(p, Purge(Update(p, Extended(cfg, p[k], now)), now, cfg.badLinkLifetime), {})
  {
    EntryAt(p, k);
    var u := Update(p, Extended(cfg, p[k], now));
    UpdateEvolves(p, Extended(cfg, p[k], now));
    assert Calm(p, u, k);
    PurgeEvolves(u, now, cfg.badLinkLifetime);
    EvolvesTrans(p, u, Purge(u, now, cfg.badLinkLifetime), {}, {}, {});
  }

  lemma ForwardReplyQuiet(s: Node, h: Rrep, hop: U8, ttl: U8, now: Time)
    requires TableOk(s.table)
    ensures Quiet(s, ForwardReply(s, h, hop, ttl, now), {NO_ADDR}, now)
  {
    hide Purge, ConnectPrecursors, Evolves, TableOk, Update;
    var p := s.Purged(now);
    PurgedQuiet(s, now);
    QuietOk(s, s.(table := p), {}, now);
    if h.origin in p && p[h.origin].info.flag != IN_SEARCH {
      var toOrigin := Extended(s.cfg, p[h.origin], now);
      var t := Purge(Update(p, toOrigin), now, s.cfg.badLinkLifetime);
      EntryAt(p, h.origin);
      ExtendEvolves(s.cfg, p, h.origin, now);
      EvolvesTrans(s.table, p, t, {}, {}, {});
      EvolvesOk(s.table, t, {});
      if IsValid(t, h.dst) {
        UpdatedSurvives(p, toOrigin, h.origin, now, s.cfg.badLinkLifetime);
        ConnectAfterPurge(t, h.dst, toOrigin, h.origin, now);
        EvolvesTrans(s.table, t, ConnectPrecursors(t, h.dst, toOrigin, now), {}, {NO_ADDR}, {NO_ADDR});
      } else {
        EvolvesWiden(s.table, t, {}, {NO_ADDR});
      }
    } else {
      EvolvesWiden(s.table, p, {}, {NO_ADDR});
    }
  }

  /** After the write, the entry has kept its next hop, hop count and flag class. */
  lemma UpdatedSurvives(p: Table, e: Entry, k: Addr, now: Time, bad: Time)
    requires k in p && e.route == p[k].route && e.route.dst == k && e.info.flag != IN_SEARCH
    requires e.info.hops == p[k].info.hops
    ensures var t := Purge(Update(p, e), now, bad);
            k in t ==> t[k].route == e.route && t[k].info.hops == e.info.hops && t[k].info.flag != IN_SEARCH
  {
  }

  lemma UpdateKeys(t: Table, e: Entry)
    ensures Update(t, e).Keys == t.Keys
  {
  }

  /** `toOrigin` may be absent or invalidated by now; the writes stay calm all the same. */
  lemma ConnectAfterPurge(t: Table, dst: Addr, toOrigin: Entry, k: Addr, now: Time)
    requires TableOk(t) && dst in t && toOrigin.route.dst == k && Distinct(toOrigin.info.precursors)
    requires toOrigin.info.flag != IN_SEARCH
    requires k in t ==>
               t[k].route == toOrigin.route && t[k].info.hops == toOrigin.info.hops && t[k].info.flag != IN_SEARCH
    ensures Evolves(t, ConnectPrecursors(t, dst, toOrigin, now), {NO_ADDR})
  {
    hide Update, Evolves, TableOk;
    var toDst := AddPrecursor(t[dst], toOrigin.route.nextHop);
    PrecursorEvolves(t, dst, toOrigin.route.nextHop, now);
    var t1 := Update(t, toDst);
    var hopToDst := AddPrecursor(GetOr(t1, toDst.route.nextHop, DefaultEntry(now)), toOrigin.route.nextHop);
    PrecursorEvolves(t1, toDst.route.nextHop, toOrigin.route.nextHop, now);
    var t2 := Update(t1, hopToDst);
    var o := AddPrecursor(toOrigin, toDst.route.nextHop);
    var t3 := Update(t2, o);
    EvolvesTrans(t, t1, t2, {NO_ADDR}, {NO_ADDR}, {NO_ADDR});
    UpdateKeys(t, toDst);
    UpdateKeys(t1, hopToDst);
    StaleUpdate(t, t2, o);
    PrecursorEvolves(t3, o.route.nextHop, toDst.route.nextHop, now);
    EvolvesTrans(t, t3, ConnectPrecursors(t, dst, toOrigin, now), {NO_ADDR}, {NO_ADDR}, {NO_ADDR});
  }

  lemma RecvReplyAckQuiet(s: Node, neighbor: Addr, now: Time)
    requires TableOk(s.table)
    ensures Quiet(s, RecvReplyAck(s, neighbor, now), {}, now)
  {
    hide Purge, Evolves, TableOk;
    var p := s.Purged(now);
    PurgedQuiet(s, now);
    QuietOk(s, s.(table := p), {}, now);
    if neighbor in p {
      EntryAt(p, neighbor);
      var e := p[neighbor].(info := p[neighbor].info.(flag := VALID, reqCnt := 0));
      WriteEvolves(p, neighbor, e);
      assert Calm(p, p[neighbor := e], neighbor);
      EvolvesTrans(s.table, p, p[neighbor := e], {}, {}, {});
    }
  }

  // ---------------------------------------------------------------------
  // Requests

  lemma LearnQuiet(s: Node, h: Rreq, hop: U8, src: Addr, rcv: Iface, now: Time)
    requires TableOk(s.table)
    ensures Quiet(s, LearnFromRequest(s, h, hop, src, rcv, now), {h.origin}, now)
  {
    hide ReverseRoute, RelayRoute, Purge, UpdateNeighbor, Evolves, TableOk;
    var p := s.Purged(now);
    var bad := s.cfg.badLinkLifetime;
    PurgedQuiet(s, now);
    QuietOk(s, s.(table := p), {}, now);
    var reverse := ReverseRoute(s.cfg, p, h, hop, src, rcv, now);
    ReverseEvolves(s.cfg, p, h, hop, src, rcv, now);
    var q := Purge(reverse, now, bad);
    PurgeEvolves(reverse, now, bad);
    EvolvesTrans(s.table, p, reverse, {}, {h.origin}, {h.origin});
    EvolvesTrans(s.table, reverse, q, {h.origin}, {}, {h.origin});
    EvolvesOk(s.table, q, {h.origin});
    RelayEvolves(s.cfg, q, h, src, rcv, now);
    var relay := RelayRoute(s.cfg, q, h, src, rcv, now);
    EvolvesTrans(s.table, q, relay, {h.origin}, {}, {h.origin});
    var s1 := s.(table := relay);
    UpdateNeighborQuiet(s1, src, s.cfg.HelloLifetime(), now);
    QuietTrans(s, s1, UpdateNeighbor(s1, src, s.cfg.HelloLifetime(), now), {h.origin}, {}, {h.origin}, now);
  }

  lemma IntermediateQuiet(s: Node, toDst: Entry, toOrigin: Entry, gratuitous: bool, now: Time)
    requires TableOk(s.table)
    requires toDst.route.dst in s.table && toDst == s.table[toDst.route.dst]
    requires toOrigin.route.dst in s.table ==>
      toOrigin == s.table[toOrigin.route.dst] || (toOrigin.route.dst == NO_ADDR && toOrigin.info.flag != IN_SEARCH)
    requires Distinct(toOrigin.info.precursors)
    ensures Quiet(s, SendReplyByIntermediateNode(s, toDst, toOrigin, gratuitous, now), {NO_ADDR}, now)
  {
    hide Evolves, TableOk;
    EntryAt(s.table, toDst.route.dst);
    var d := AddPrecursor(toDst, toOrigin.route.nextHop);
    var o := AddPrecursor(toOrigin, toDst.route.nextHop);
    UpdateEvolves(s.table, d);
    var t1 := Update(s.table, d);
    assert Calm(s.table, t1, d.route.dst);
    assert o.info.flag == IN_SEARCH && o.route.dst in t1 ==> UnderSearch(t1, o.route.dst);
    if o.route.dst in t1 {
      UpdateEvolves(t1, o);
      assert o.route.dst != NO_ADDR ==> Calm(t1, Update(t1, o), o.route.dst);
      if o.route.dst == NO_ADDR {
        EvolvesTrans(s.table, t1, Update(t1, o), {}, {NO_ADDR}, {NO_ADDR});
      } else {
        EvolvesWiden(t1, Update(t1, o), {}, {NO_ADDR});
        EvolvesTrans(s.table, t1, Update(t1, o), {}, {NO_ADDR}, {NO_ADDR});
      }
    } else {
      EvolvesWiden(s.table, t1, {}, {NO_ADDR});
    }
  }

  lemma AnswerQuiet(s: Node, h: Rreq, hop: U8, ttl: U8, src: Addr, stale: Entry, now: Time)
    requires TableOk(s.table) && Distinct(stale.info.precursors)
    requires stale.route.dst == h.origin || (stale.route.dst == NO_ADDR && stale.info.flag != IN_SEARCH)
    ensures Quiet(s, AnswerRequest(s, h, hop, ttl, src, stale, now), {NO_ADDR}, now)
  {
    hide Purge, SendReplyByIntermediateNode, Evolves, TableOk, Relayed, KnowsDestination;
    var s1 := s.(table := s.Purged(now));
    PurgedQuiet(s, now);
    QuietOk(s, s1, {}, now);
    EvolvesWiden(s.table, s1.table, {}, {NO_ADDR});
    if h.dst in s1.table {
      var o := GetOr(s1.table, h.origin, stale);
      EntryAt(s1.table, h.dst);
      if h.origin in s1.table { EntryAt(s1.table, h.origin); }
      IntermediateQuiet(s1, s1.table[h.dst], o, h.gratuitous, now);
      var s2 := SendReplyByIntermediateNode(s1, s1.table[h.dst], o, h.gratuitous, now);
      QuietTrans(s, s1, s2, {}, {NO_ADDR}, {NO_ADDR}, now);
    }
  }

  lemma StaleEntryOk(s: Node, h: Rreq, hop: U8, src: Addr, rcv: Iface, now: Time)
    requires TableOk(s.table)
    ensures var e := StaleEntry(s, h, hop, src, rcv, now);
            Distinct(e.info.precursors)
            && (e.route.dst == h.origin || (e.route.dst == NO_ADDR && e.info.flag != IN_SEARCH))
  {
    assert h.origin in s.table ==> EntryOk(h.origin, s.table[h.origin]);
  }

  lemma ProcessRequestQuiet(s: Node, h: Rreq, ttl: U8, src: Addr, rcv: Iface, now: Time)
    requires TableOk(s.table)
    ensures Quiet(s, ProcessRequest(s, h, ttl, src, rcv, now), {h.origin, NO_ADDR}, now)
  {
    hide LearnFromRequest, AnswerRequest, Quiet, TableOk, StaleEntry;
    var hop := Wrap8(h.hopCount + 1);
    var stale := StaleEntry(s, h, hop, src, rcv, now);
    StaleEntryOk(s, h, hop, src, rcv, now);
    var s2 := LearnFromRequest(s, h, hop, src, rcv, now);
    LearnQuiet(s, h, hop, src, rcv, now);
    QuietOk(s, s2, {h.origin}, now);
    AnswerQuiet(s2, h, hop, ttl, src, stale, now);
    QuietTrans(s, s2, AnswerRequest(s2, h, hop, ttl, src, stale, now), {h.origin}, {NO_ADDR}, {h.origin, NO_ADDR}, now);
  }

  lemma RecvRequestQuiet(s: Node, h: Rreq, ttl: U8, src: Addr, rcv: Iface, now: Time)
    requires TableOk(s.table)
    ensures Quiet(s, RecvRequest(s, h, ttl, src, rcv, now), {h.origin, NO_ADDR}, now)
  {
    hide ProcessRequest, Purge, IdCaches.Record, IdCaches.Duplicate, Evolves, TableOk;
    var s1 := s.(table := s.Purged(now),
                 ids := IdCaches.Record(s.ids, IdCaches.Key(h.origin, h.id), s.cfg.idLifetime, now));
    PurgedQuiet(s, now);
    EvolvesWiden(s.table, s1.table, {}, {h.origin, NO_ADDR});
    QuietOk(s, s1, {}, now);
    ProcessRequestQuiet(s1, h, ttl, src, rcv, now);
    QuietTrans(s, s1, ProcessRequest(s1, h, ttl, src, rcv, now), {}, {h.origin, NO_ADDR}, {h.origin, NO_ADDR}, now);
  }

  /** A reply that is not for this node. */
  lemma PassedReplyQuiet(s: Node, h: Rrep, ttl: U8, sender: Addr, rcv: Iface, now: Time)
    requires TableOk(s.table) && h.dst != h.origin && !s.IsMyOwnAddress(h.origin)
    ensures Quiet(s, RecvReply(s, h, ttl, sender, rcv, now), {h.dst, NO_ADDR}, now)
  {
    hide LearnFromReply, ForwardReply, Quiet, TableOk, Purge;
    var hop := Wrap8(h.hopCount + 1);
    var s2 := LearnFromReply(s, h, hop, sender, rcv, now);
    LearnFromReplyQuiet(s, h, hop, sender, rcv, now);
    QuietOk(s, s2, {h.dst}, now);
    ForwardReplyQuiet(s2, h, hop, ttl, now);
    QuietTrans(s, s2, ForwardReply(s2, h, hop, ttl, now), {h.dst}, {NO_ADDR}, {h.dst, NO_ADDR}, now);
  }

  lemma LearnFromReplyQuiet(s: Node, h: Rrep, hop: U8, sender: Addr, rcv: Iface, now: Time)
    requires TableOk(s.table)
    ensures Quiet(s, LearnFromReply(s, h, hop, sender, rcv, now), {h.dst}, now)
  {
    hide ForwardRoute, SendReplyAck, Evolves, Purge, TableOk;
    var p := s.Purged(now);
    PurgedQuiet(s, now);
    QuietOk(s, s.(table := p), {}, now);
    ForwardEvolves(p, h, hop, sender, rcv, now);
    var s1 := s.(table := ForwardRoute(p, h, hop, sender, rcv, now));
    EvolvesTrans(s.table, p, s1.table, {}, {h.dst}, {h.dst});
    SendReplyAckQuiet(s1, sender, now);
    QuietTrans(s, s1, SendReplyAck(s1, sender, now), {h.dst}, {}, {h.dst}, now);
  }
}
