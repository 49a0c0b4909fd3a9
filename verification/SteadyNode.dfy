/** One node during a single route discovery, at instants when nothing expires:
    the exact effect of each request and reply it receives. */
module SteadyNode {
  import opened Base
  import opened Messages
  import opened RouteTable
  import opened NodeState
  import opened Discovery
  import opened LinkBreak
  import opened Routes
  import opened NodeEvents
  import opened Emissions
  import opened Frames
  import opened LoopFreedom
  import opened Flood
  import IdCaches

  /** Nothing in the table expires before `until`; every entry but the loopback
      route is VALID over the one interface, except those under search in `sought`. */
  ghost predicate Steady(t: Table, iface: Iface, until: Time, sought: set<Addr>) {
    && TableOk(t) && NO_ADDR !in t
    && (forall k :: k in t ==>
          && t[k].info.lifeTime >= until && !t[k].info.blackList
          && ((k in sought && t[k].info.flag == IN_SEARCH)
              || (t[k].info.flag == VALID && (k != LOOPBACK ==> t[k].info.iface == iface))))
  }

  /** Apart from `about`, only the sender's entry changed its next hop or hop
      count: it is one hop away. */
  ghost predicate Meets(t: Table, t': Table, sender: Addr, about: set<Addr>) {
    forall k :: k !in about ==>
      && (k in t ==> k in t')
      && (k in t' ==>
            || (k in t && t'[k].route.nextHop == t[k].route.nextHop && t'[k].info.hops == t[k].info.hops)
            || (k == sender && t'[k].route.nextHop == k && t'[k].info.hops == 1))
  }

  /** The known neighbours are open and stay so. */
  ghost predicate OpenUntil(nb: seq<Neighbor>, until: Time) {
    forall n :: n in nb ==> n.expire >= until && !n.close
  }

  /** All lifetimes that the node hands out are at least `life`. */
  ghost predicate Lasting(cfg: Config, life: Time, reach: nat) {
    && cfg.activeRouteTimeout >= life && cfg.HelloLifetime() >= life && cfg.idLifetime >= life
    && FromMilliseconds(ToMilliseconds(cfg.myRouteTimeout)) >= life
    && (forall hop :: 0 <= hop <= reach ==> ReverseLifetime(cfg, hop) >= life)
  }

  lemma MeetsTrans(a: Table, b: Table, c: Table, sender: Addr, x: set<Addr>, y: set<Addr>)
    requires Meets(a, b, sender, x) && Meets(b, c, sender, y)
    ensures Meets(a, c, sender, x + y)
  {
  }

  lemma SteadyPurge(t: Table, iface: Iface, until: Time, sought: set<Addr>, now: Time, bad: Time)
    requires Steady(t, iface, until, sought) && now <= until
    ensures Purge(t, now, bad) == t
  {
  }

  lemma SteadyOk(t: Table, iface: Iface, until: Time, sought: set<Addr>)
    requires Steady(t, iface, until, sought)
    ensures TableOk(t) && NO_ADDR !in t
  {
  }

  lemma SteadyWrite(t: Table, iface: Iface, until: Time, sought: set<Addr>, k: Addr, e: Entry)
    requires Steady(t, iface, until, sought) && k != NO_ADDR && EntryOk(k, e)
    requires e.info.lifeTime >= until && !e.info.blackList && e.info.flag == VALID && e.info.iface == iface
    ensures Steady(t[k := e], iface, until, sought)
  {
  }

  lemma MetSteady(s: Node, sender: Addr, rcv: Iface, until: Time, sought: set<Addr>, now: Time)
    requires Steady(s.table, rcv, until, sought) && now <= until && sender != NO_ADDR
    requires now + s.cfg.activeRouteTimeout >= until
    ensures var t' := Met(s, sender, rcv, now).table;
            Steady(t', rcv, until, sought) && Meets(s.table, t', sender, {}) && sender in t'
  {
    SteadyPurge(s.table, rcv, until, sought, now, s.cfg.badLinkLifetime);
    var t' := Met(s, sender, rcv, now).table;
    if t' != s.table {
      SteadyWrite(s.table, rcv, until, sought, sender, t'[sender]);
    }
  }

  lemma UpdateNeighborSteady(s: Node, addr: Addr, expire: Time, until: Time, now: Time)
    requires OpenUntil(s.neighbors, until) && now <= until <= now + expire
    ensures var s' := UpdateNeighbor(s, addr, expire, now);
            s' == s.(neighbors := s'.neighbors, neighborTimer := s'.neighborTimer) && OpenUntil(s'.neighbors, until)
  {
    var i := NeighborIndex(s.neighbors, addr);
    if i == |s.neighbors| {
      var nb := s.neighbors + [Neighbor(addr, expire + now, false)];
      FilterNone(IsClosed(now), nb);
      FilterAll(IsOpen(now), nb);
    }
  }

  // ---------------------------------------------------------------------
  // A request

  lemma ReverseSteady(s: Node, h: Rreq, hop: U8, src: Addr, rcv: Iface, until: Time, now: Time)
    requires Steady(s.table, rcv, until, {}) && now <= until <= now + ReverseLifetime(s.cfg, hop)
    requires h.origin != NO_ADDR
    ensures var t' := ReverseRoute(s.cfg, s.table, h, hop, src, rcv, now);
            && Steady(t', rcv, until, {}) && Meets(s.table, t', src, {h.origin})
            && h.origin in t' && t'[h.origin].route.nextHop == src && t'[h.origin].info.hops == hop
  {
    var t' := ReverseRoute(s.cfg, s.table, h, hop, src, rcv, now);
    if h.origin in s.table { EntryAt(s.table, h.origin); }
    SteadyWrite(s.table, rcv, until, {}, h.origin, t'[h.origin]);
  }

  lemma RelaySteady(cfg: Config, t: Table, h: Rreq, src: Addr, rcv: Iface, until: Time, now: Time)
    requires Steady(t, rcv, until, {}) && until <= now + cfg.activeRouteTimeout && src != NO_ADDR
    ensures var t' := RelayRoute(cfg, t, h, src, rcv, now);
            Steady(t', rcv, until, {}) && Meets(t, t', src, {})
  {
    var t' := RelayRoute(cfg, t, h, src, rcv, now);
    if src in t { EntryAt(t, src); }
    SteadyWrite(t, rcv, until, {}, src, t'[src]);
  }

  /** The entry goes through `src`, in `hop` hops or in one because `src` is the destination itself. */
  ghost predicate Via(e: Entry, src: Addr, hop: int) {
    e.route.nextHop == src && (e.info.hops == hop || (e.route.dst == src && e.info.hops == 1))
  }

  /** The routes that a first request teaches, when nothing expires. */
  lemma LearnSteady(s: Node, h: Rreq, hop: U8, src: Addr, rcv: Iface, until: Time, life: Time, now: Time)
    requires Steady(s.table, rcv, until, {}) && OpenUntil(s.neighbors, until) && Lasting(s.cfg, life, hop)
    requires now <= until <= now + life && h.origin != NO_ADDR && src != NO_ADDR
    ensures var s' := LearnFromRequest(s, h, hop, src, rcv, now);
            && s' == s.(table := s'.table, neighbors := s'.neighbors, neighborTimer := s'.neighborTimer)
            && Steady(s'.table, rcv, until, {}) && OpenUntil(s'.neighbors, until)
            && Meets(s.table, s'.table, src, {h.origin})
            && h.origin in s'.table && Via(s'.table[h.origin], src, hop)
  {
    hide Purge, ReverseRoute, RelayRoute, UpdateNeighbor, Steady, Meets, ReverseLifetime;
    var bad := s.cfg.badLinkLifetime;
    SteadyPurge(s.table, rcv, until, {}, now, bad);
    var reverse := ReverseRoute(s.cfg, s.table, h, hop, src, rcv, now);
    ReverseSteady(s, h, hop, src, rcv, until, now);
    SteadyPurge(reverse, rcv, until, {}, now, bad);
    var relay := RelayRoute(s.cfg, reverse, h, src, rcv, now);
    RelaySteady(s.cfg, reverse, h, src, rcv, until, now);
    MeetsTrans(s.table, reverse, relay, src, {h.origin}, {});
    assert {h.origin} + {} == {h.origin};
    MeetsAt(reverse, relay, src, h.origin);
    SteadyEntry(relay, rcv, until, {}, h.origin);
    UpdateNeighborSteady(s.(table := relay), src, s.cfg.HelloLifetime(), until, now);
  }

  lemma MeetsAt(t: Table, t': Table, sender: Addr, k: Addr)
    requires Meets(t, t', sender, {})
    ensures k in t ==> k in t' && ((t'[k].route.nextHop == t[k].route.nextHop && t'[k].info.hops == t[k].info.hops)
                                   || (k == sender && t'[k].route.nextHop == k && t'[k].info.hops == 1))
    ensures k in t' && k !in t ==> k == sender
  {
  }

  /** What a node that is not the destination does with a first request. */
  lemma RelayExactly(s: Node, h: Rreq, hop: U8, ttl: U8, src: Addr, stale: Entry, iface: Iface, until: Time, now: Time)
    requires Steady(s.table, iface, until, {}) && now <= until && s.ifaces == [iface]
    requires iface.local != h.dst && h.dst !in s.table
    ensures var s' := AnswerRequest(s, h, hop, ttl, src, stale, now);
            && s' == s.(hello := s'.hello, log := s'.log)
            && s'.log == s.log.(sent := s.log.sent +
                 if ttl >= 2 then [Sent(RREQ(h.(hopCount := hop)), ttl - 1, iface, iface.BroadcastTarget())] else [])
  {
    hide Purge, Steady;
    SteadyPurge(s.table, iface, until, {}, now, s.cfg.badLinkLifetime);
    assert s.(table := s.table) == s;
    assert !s.IsMyOwnAddress(h.dst);
    assert OnEveryInterface([iface], RREQ(h.(hopCount := hop)), Wrap8(ttl - 1))
        == [Sent(RREQ(h.(hopCount := hop)), Wrap8(ttl - 1), iface, iface.BroadcastTarget())];
  }

  /** What the destination does with a first request. */
  lemma AnswerExactly(s: Node, h: Rreq, hop: U8, ttl: U8, src: Addr, stale: Entry, iface: Iface, until: Time, now: Time)
    requires Steady(s.table, iface, until, {}) && now <= until && s.ifaces == [iface]
    requires iface.local == h.dst && h.origin in s.table && h.origin != LOOPBACK
    ensures var s' := AnswerRequest(s, h, hop, ttl, src, stale, now);
            && s' == s.(ctr := s'.ctr, log := s'.log)
            && s'.log == s.log.(sent := s.log.sent + [Sent(
                 RREP(Rrep(false, 0, h.dst, s'.ctr.seqNo, h.origin, ToMilliseconds(s.cfg.myRouteTimeout))),
                 Wrap8(s.table[h.origin].info.hops), iface, s.table[h.origin].route.nextHop)])
  {
    hide Purge, ToMilliseconds;
    SteadyPurge(s.table, iface, until, {}, now, s.cfg.badLinkLifetime);
    assert s.(table := s.table) == s;
    EntryAt(s.table, h.origin);
    assert s.ifaces[0].local == h.dst;
  }

  /** The node knows the whole network it needs for the discovery named by `key`. */
  ghost predicate Calmly(s: Node, rcv: Iface, until: Time, sought: set<Addr>) {
    && Steady(s.table, rcv, until, sought) && OpenUntil(s.neighbors, until)
    && s.ifaces == [rcv]
  }

  lemma RecordedKnows(s: Node, h: Rreq, until: Time, now: Time)
    requires Unaware(s, KeyOf(h)) && until <= now + s.cfg.idLifetime
    ensures !IdCaches.Duplicate(s.ids, KeyOf(h), now)
    ensures Knows(s.(ids := IdCaches.Record(s.ids, KeyOf(h), s.cfg.idLifetime, now)), KeyOf(h), until)
  {
    hide IdCaches.Record, IdCaches.Duplicate;
    UnawareIsNew(s, KeyOf(h), now);
    RecordMembers(s.ids, KeyOf(h), s.cfg.idLifetime, now);
  }

  /** A first request: the route it teaches, and then it is passed on, or
      answered by its destination. */
  lemma HearFirst(s: Node, h: Rreq, ttl: U8, src: Addr, rcv: Iface, until: Time, life: Time, now: Time)
    requires Calmly(s, rcv, until, {}) && Lasting(s.cfg, life, h.hopCount + 1) && h.hopCount <= 254
    requires now <= until <= now + life && h.origin != NO_ADDR && h.origin != LOOPBACK && src != NO_ADDR
    requires Unaware(s, KeyOf(h)) && src != h.dst && h.dst != h.origin && (rcv.local == h.dst || h.dst !in s.table)
    ensures var s' := Receive(s, Some(RREQ(h)), ttl, src, rcv, now);
            && Calmly(s', rcv, until, {}) && Knows(s', KeyOf(h), until) && s'.cfg == s.cfg
            && Meets(s.table, s'.table, src, {h.origin})
            && h.origin in s'.table && Via(s'.table[h.origin], src, h.hopCount + 1) && src in s'.table
            && s'.log.sent == s.log.sent +
                 if rcv.local == h.dst then
                   [Sent(RREP(Rrep(false, 0, h.dst, s'.ctr.seqNo, h.origin, ToMilliseconds(s.cfg.myRouteTimeout))),
                         Wrap8(s'.table[h.origin].info.hops), rcv, s'.table[h.origin].route.nextHop)]
                 else if ttl >= 2 then [Sent(RREQ(h.(hopCount := h.hopCount + 1)), ttl - 1, rcv, rcv.BroadcastTarget())]
                 else []
  {
    hide Purge, LearnFromRequest, AnswerRequest, Steady, Meets, StaleEntry, IdCaches.Record, IdCaches.Duplicate,
         ReverseLifetime, RouteToNeighbor, Via, ToMilliseconds, Unaware, Knows;
    var s1 := Met(s, src, rcv, now);
    MetSteady(s, src, rcv, until, {}, now);
    SteadyPurge(s1.table, rcv, until, {}, now, s.cfg.badLinkLifetime);
    SteadyEntry(s1.table, rcv, until, {}, src);
    RecordedKnows(s, h, until, now);
    var s2 := Recorded(s1, h, now);
    var hop := Wrap8(h.hopCount + 1);
    var stale := StaleEntry(s2, h, hop, src, rcv, now);
    var s3 := LearnFromRequest(s2, h, hop, src, rcv, now);
    LearnSteady(s2, h, hop, src, rcv, until, life, now);
    MeetsTrans(s.table, s1.table, s3.table, src, {}, {h.origin});
    assert {} + {h.origin} == {h.origin};
    MeetsKeys(s1.table, s3.table, src, h.origin);
    if rcv.local == h.dst {
      AnswerExactly(s3, h, hop, ttl, src, stale, rcv, until, now);
    } else {
      MeetsNot(s.table, s3.table, src, h.origin, h.dst);
      RelayExactly(s3, h, hop, ttl, src, stale, rcv, until, now);
    }
    SameKnows(s.(ids := s2.ids), AnswerRequest(s3, h, hop, ttl, src, stale, now), KeyOf(h), until);
  }

  lemma MeetsKeys(t: Table, t': Table, sender: Addr, about: Addr)
    requires Meets(t, t', sender, {about}) && about in t'
    ensures forall k :: k in t ==> k in t'
  {
  }

  lemma SteadyEntry(t: Table, iface: Iface, until: Time, sought: set<Addr>, k: Addr)
    requires Steady(t, iface, until, sought)
    ensures k in t ==> !t[k].info.blackList && t[k].route.dst == k
    ensures k in t && k !in sought ==> t[k].info.flag == VALID && (k != LOOPBACK ==> t[k].info.iface == iface)
    ensures k in t && t[k].info.flag != IN_SEARCH ==> t[k].info.flag == VALID
  {
  }

  lemma MeetsNot(t: Table, t': Table, sender: Addr, about: Addr, k: Addr)
    requires Meets(t, t', sender, {about}) && k != about && k != sender && k !in t
    ensures k !in t'
  {
  }

  lemma SameKnows(s: Node, s': Node, key: IdCaches.Key, until: Time)
    requires s'.ids == s.ids
    ensures Knows(s, key, until) ==> Knows(s', key, until)
    ensures Unaware(s, key) ==> Unaware(s', key)
  {
  }

  /** A repeated request only shows that its sender is a neighbour. */
  lemma HearAgain(s: Node, h: Rreq, ttl: U8, src: Addr, rcv: Iface, until: Time, sought: set<Addr>, now: Time)
    requires Calmly(s, rcv, until, sought) && now <= until <= now + s.cfg.activeRouteTimeout
    requires Knows(s, KeyOf(h), until) && src != NO_ADDR
    ensures var s' := Receive(s, Some(RREQ(h)), ttl, src, rcv, now);
            && Calmly(s', rcv, until, sought) && Knows(s', KeyOf(h), until) && s'.cfg == s.cfg
            && Meets(s.table, s'.table, src, {}) && s'.log == s.log
            && forall k :: k != src ==> Get(s'.table, k) == Get(s.table, k)
  {
    hide Purge, ProcessRequest, Steady, Meets, IdCaches.Record, IdCaches.Duplicate, RouteToNeighbor, Knows;
    var s1 := Met(s, src, rcv, now);
    MetSteady(s, src, rcv, until, sought, now);
    SteadyPurge(s1.table, rcv, until, sought, now, s.cfg.badLinkLifetime);
    SteadyEntry(s1.table, rcv, until, sought, src);
    forall k | k != src ensures Get(s1.table, k) == Get(s.table, k) {
      MetEntry(s, src, rcv, until, sought, now, k);
    }
    KnownIsDuplicate(s, KeyOf(h), until, now);
    RecordKeepsKnown(s, KeyOf(h), s.cfg.idLifetime, until, now);
    var ids := IdCaches.Record(s.ids, KeyOf(h), s.cfg.idLifetime, now);
    SameKnows(s.(ids := ids), Receive(s, Some(RREQ(h)), ttl, src, rcv, now), KeyOf(h), until);
  }

  lemma RecordKeepsKnown(s: Node, key: IdCaches.Key, lifetime: Time, until: Time, now: Time)
    requires Knows(s, key, until) && now <= until
    ensures Knows(s.(ids := IdCaches.Record(s.ids, key, lifetime, now)), key, until)
  {
    hide IdCaches.Record, IdCaches.Duplicate;
    RecordMembers(s.ids, key, lifetime, now);
  }

  // ---------------------------------------------------------------------
  // A reply

  /** The same routes, apart from the precursor lists. */
  ghost predicate SameRoutes(t: Table, t': Table) {
    && t'.Keys == t.Keys
    && (forall k :: k in t ==>
          t'[k].route == t[k].route && t'[k].info == t[k].info.(precursors := t'[k].info.precursors)
          && Distinct(t'[k].info.precursors))
  }

  lemma SameRoutesTrans(a: Table, b: Table, c: Table)
    requires SameRoutes(a, b) && SameRoutes(b, c)
    ensures SameRoutes(a, c)
  {
  }

  lemma SameRoutesSteady(t: Table, t': Table, iface: Iface, until: Time, sought: set<Addr>)
    requires SameRoutes(t, t') && Steady(t, iface, until, sought)
    ensures Steady(t', iface, until, sought)
  {
  }

  /** `Update` of a copy that differs from the entry only in its precursors. */
  lemma UpdateSame(t: Table, e: Entry)
    requires TableOk(t) && Distinct(e.info.precursors)
    requires e.route.dst in t ==>
      e.route == t[e.route.dst].route && e.info == t[e.route.dst].info.(precursors := e.info.precursors)
    ensures SameRoutes(t, Update(t, e))
  {
    if e.route.dst in t { EntryAt(t, e.route.dst); }
  }

  lemma UpdateSameStale(t0: Table, t: Table, e: Entry)
    requires SameRoutes(t0, t) && TableOk(t) && Distinct(e.info.precursors)
    requires e.route.dst in t0 && e.route == t0[e.route.dst].route
             && e.info == t0[e.route.dst].info.(precursors := e.info.precursors)
    ensures SameRoutes(t0, Update(t, e))
  {
    UpdateSame(t, e);
    SameRoutesTrans(t0, t, Update(t, e));
  }

  lemma PrecursorSame(t: Table, k: Addr, id: Addr, now: Time)
    requires TableOk(t) && NO_ADDR !in t
    ensures SameRoutes(t, Update(t, AddPrecursor(GetOr(t, k, DefaultEntry(now)), id)))
  {
    if k in t { EntryAt(t, k); }
    UpdateSame(t, AddPrecursor(GetOr(t, k, DefaultEntry(now)), id));
  }

  lemma ConnectSame(t: Table, dst: Addr, toOrigin: Entry, iface: Iface, until: Time, now: Time)
    requires Steady(t, iface, until, {}) && dst in t
    requires toOrigin.route.dst in t && toOrigin == t[toOrigin.route.dst]
    ensures SameRoutes(t, ConnectPrecursors(t, dst, toOrigin, now))
  {
    hide Update, SameRoutes, Steady, TableOk;
    SteadyOk(t, iface, until, {});
    EntryAt(t, toOrigin.route.dst);
    var toDst := AddPrecursor(t[dst], toOrigin.route.nextHop);
    PrecursorSame(t, dst, toOrigin.route.nextHop, now);
    var t1 := Update(t, toDst);
    SameRoutesSteady(t, t1, iface, until, {});
    SteadyOk(t1, iface, until, {});
    PrecursorSame(t1, toDst.route.nextHop, toOrigin.route.nextHop, now);
    var t2 := Update(t1, AddPrecursor(GetOr(t1, toDst.route.nextHop, DefaultEntry(now)), toOrigin.route.nextHop));
    SameRoutesTrans(t, t1, t2);
    SameRoutesSteady(t, t2, iface, until, {});
    SteadyOk(t2, iface, until, {});
    var o := AddPrecursor(toOrigin, toDst.route.nextHop);
    UpdateSameStale(t, t2, o);
    var t3 := Update(t2, o);
    SameRoutesSteady(t, t3, iface, until, {});
    SteadyOk(t3, iface, until, {});
    PrecursorSame(t3, o.route.nextHop, toDst.route.nextHop, now);
    SameRoutesTrans(t, t3, ConnectPrecursors(t, dst, toOrigin, now));
  }

  /** Extending the reverse entry changes no route. */
  lemma ExtendSteady(cfg: Config, t: Table, k: Addr, iface: Iface, until: Time, now: Time)
    requires Steady(t, iface, until, {}) && k in t && k != LOOPBACK
    ensures var t' := Update(t, Extended(cfg, t[k], now));
            && Steady(t', iface, until, {}) && Meets(t, t', NO_ADDR, {}) && k in t'
            && t'[k] == Extended(cfg, t[k], now) && t'.Keys == t.Keys
            && t'[k].route == t[k].route && t'[k].info.hops == t[k].info.hops && t'[k].info.iface == iface
            && forall j :: j in t && j != k ==> t'[j] == t[j]
  {
    EntryAt(t, k);
    SteadyWrite(t, iface, until, {}, k, Extended(cfg, t[k], now));
  }

  /** What passing a reply on amounts to when the purges do nothing. */
  lemma ForwardUnfolds(s: Node, h: Rrep, hop: U8, ttl: U8, now: Time)
    requires s.Purged(now) == s.table && h.origin in s.table && s.table[h.origin].info.flag == VALID
    requires var t := Update(s.table, Extended(s.cfg, s.table[h.origin], now));
             Purge(t, now, s.cfg.badLinkLifetime) == t && IsValid(t, h.dst)
    ensures var e := Extended(s.cfg, s.table[h.origin], now);
            var t := Update(s.table, e);
            ForwardReply(s, h, hop, ttl, now) ==
              s.(table := ConnectPrecursors(t, h.dst, e, now))
               .Send(if ttl < 2 then []
                     else [Sent(RREP(h.(hopCount := hop, ackRequired := false)), ttl - 1, e.info.iface,
                                e.route.nextHop)])
  {
    hide Purge, Update, ConnectPrecursors, Extended;
  }

  /** Passing a reply on towards the originator, when nothing expires. */
  lemma ForwardExactly(s: Node, h: Rrep, hop: U8, ttl: U8, iface: Iface, until: Time, now: Time)
    requires Steady(s.table, iface, until, {}) && now <= until
    requires h.origin in s.table && h.dst in s.table && h.dst != h.origin && h.origin != LOOPBACK
    ensures var s' := ForwardReply(s, h, hop, ttl, now);
            && s' == s.(table := s'.table, log := s'.log)
            && Steady(s'.table, iface, until, {}) && s'.table.Keys == s.table.Keys
            && (forall k :: k in s.table ==>
                  s'.table[k].route == s.table[k].route && s'.table[k].info.hops == s.table[k].info.hops)
            && s'.log.sent == s.log.sent +
                 if ttl >= 2 then [Sent(RREP(h.(hopCount := hop, ackRequired := false)), ttl - 1, iface,
                                        s.table[h.origin].route.nextHop)] else []
  {
    hide Purge, Update, ConnectPrecursors, Steady, Extended, ForwardReply;
    var bad := s.cfg.badLinkLifetime;
    SteadyPurge(s.table, iface, until, {}, now, bad);
    SteadyEntry(s.table, iface, until, {}, h.origin);
    var toOrigin := Extended(s.cfg, s.table[h.origin], now);
    var t := Update(s.table, toOrigin);
    ExtendSteady(s.cfg, s.table, h.origin, iface, until, now);
    SteadyPurge(t, iface, until, {}, now, bad);
    SteadyEntry(t, iface, until, {}, h.dst);
    SteadyEntry(t, iface, until, {}, h.origin);
    ForwardUnfolds(s, h, hop, ttl, now);
    ConnectSame(t, h.dst, toOrigin, iface, until, now);
    SameRoutesSteady(t, ConnectPrecursors(t, h.dst, toOrigin, now), iface, until, {});
  }

  lemma LearnReplySteady(s: Node, h: Rrep, hop: U8, sender: Addr, rcv: Iface, until: Time, sought: set<Addr>, now: Time)
    requires Steady(s.table, rcv, until, sought) && now <= until <= now + FromMilliseconds(h.lifeTime)
    requires h.dst != NO_ADDR && !h.ackRequired
    requires h.dst in s.table ==> !s.table[h.dst].info.validSeqNo || Fresher(h, hop, s.table[h.dst].info)
    ensures var s' := LearnFromReply(s, h, hop, sender, rcv, now);
            && s' == s.(table := s.table[h.dst := ForwardEntry(h, hop, sender, rcv, now)])
            && Steady(s'.table, rcv, until, sought)
  {
    hide Purge;
    SteadyPurge(s.table, rcv, until, sought, now, s.cfg.badLinkLifetime);
    SteadyWrite(s.table, rcv, until, sought, h.dst, ForwardEntry(h, hop, sender, rcv, now));
  }

  /** A node that learns of its neighbour knows no number of it. */
  lemma MetEntry(s: Node, sender: Addr, rcv: Iface, until: Time, sought: set<Addr>, now: Time, k: Addr)
    requires Steady(s.table, rcv, until, sought) && now <= until
    ensures var t' := Met(s, sender, rcv, now).table;
            && ((k in s.table ==> !s.table[k].info.validSeqNo) ==> k in t' ==> !t'[k].info.validSeqNo)
            && (k != sender ==> Get(t', k) == Get(s.table, k))
  {
    SteadyPurge(s.table, rcv, until, sought, now, s.cfg.badLinkLifetime);
  }

  /** Handling a reply that is on its way, once its sender is known. */
  lemma RecvPassed(s: Node, h: Rrep, ttl: U8, sender: Addr, rcv: Iface, until: Time, now: Time)
    requires Calmly(s, rcv, until, {}) && now <= until <= now + FromMilliseconds(h.lifeTime)
    requires !h.ackRequired && h.dst != h.origin && rcv.local != h.origin && h.hopCount <= 254
    requires h.origin in s.table && h.origin != LOOPBACK && h.dst != NO_ADDR
    requires h.dst in s.table ==> !s.table[h.dst].info.validSeqNo
    ensures var s' := RecvReply(s, h, ttl, sender, rcv, now);
            && s' == s.(table := s'.table, log := s'.log) && Steady(s'.table, rcv, until, {})
            && Meets(s.table, s'.table, sender, {h.dst}) && (forall k :: k in s.table ==> k in s'.table)
            && h.dst in s'.table && s'.table[h.dst].route.nextHop == sender
            && s'.table[h.dst].info.hops == h.hopCount + 1
            && s'.log.sent == s.log.sent +
                 if ttl >= 2 then [Sent(RREP(h.(hopCount := h.hopCount + 1)), ttl - 1, rcv,
                                        s.table[h.origin].route.nextHop)] else []
  {
    hide RecvReply, LearnFromReply, ForwardReply, Steady, Meets, FromMilliseconds;
    var hop := Wrap8(h.hopCount + 1);
    var s2 := LearnFromReply(s, h, hop, sender, rcv, now);
    PassedUnfolds(s, h, ttl, sender, rcv, now);
    LearnReplySteady(s, h, hop, sender, rcv, until, {}, now);
    ForwardExactly(s2, h, hop, ttl, rcv, until, now);
    MeetsSelf(s.table, sender);
    MeetsWrite(s.table, s.table, s2.table, sender, h.dst);
    SameHopsMeets(s.table, s2.table, ForwardReply(s2, h, hop, ttl, now).table, sender, {h.dst});
    assert h.(hopCount := hop, ackRequired := false) == h.(hopCount := hop);
  }

  lemma PassedUnfolds(s: Node, h: Rrep, ttl: U8, sender: Addr, rcv: Iface, now: Time)
    requires s.ifaces == [rcv] && rcv.local != h.origin && h.dst != h.origin
    ensures RecvReply(s, h, ttl, sender, rcv, now) ==
            var hop := Wrap8(h.hopCount + 1);
            ForwardReply(LearnFromReply(s, h, hop, sender, rcv, now), h, hop, ttl, now)
  {
    hide Purge, LearnFromReply, ForwardReply;
    assert !s.IsMyOwnAddress(h.origin);
  }

  lemma MeetsSelf(t: Table, sender: Addr)
    ensures Meets(t, t, sender, {})
  {
  }

  /** A reply on its way: the node now routes to the destination through the
      node that passed the reply on, and passes it on itself along the reverse
      route, one hop further, unless it has run out of TTL. */
  lemma PassReply(s: Node, h: Rrep, ttl: U8, sender: Addr, rcv: Iface, until: Time, life: Time, now: Time)
    requires Calmly(s, rcv, until, {}) && now <= until <= now + life
    requires FromMilliseconds(h.lifeTime) >= life && s.cfg.activeRouteTimeout >= life
    requires !h.ackRequired && h.dst != h.origin && rcv.local != h.origin && h.hopCount <= 254
    requires h.origin in s.table && h.origin != LOOPBACK && h.dst !in s.table
    requires h.origin != sender && sender != NO_ADDR && h.dst != NO_ADDR
    ensures var s' := Receive(s, Some(RREP(h)), ttl, sender, rcv, now);
            && Calmly(s', rcv, until, {}) && s'.cfg == s.cfg && s'.ids == s.ids
            && Meets(s.table, s'.table, sender, {h.dst}) && sender in s'.table
            && h.dst in s'.table && s'.table[h.dst].route.nextHop == sender
            && s'.table[h.dst].info.hops == h.hopCount + 1
            && s'.log.sent == s.log.sent +
                 if ttl >= 2 then [Sent(RREP(h.(hopCount := h.hopCount + 1)), ttl - 1, rcv,
                                        s.table[h.origin].route.nextHop)] else []
  {
    hide Purge, RecvReply, Steady, Meets, RouteToNeighbor;
    var s1 := Met(s, sender, rcv, now);
    MetSteady(s, sender, rcv, until, {}, now);
    MetEntry(s, sender, rcv, until, {}, now, h.dst);
    MetEntry(s, sender, rcv, until, {}, now, h.origin);
    RecvPassed(s1, h, ttl, sender, rcv, until, now);
    MeetsTrans(s.table, s1.table, RecvReply(s1, h, ttl, sender, rcv, now).table, sender, {}, {h.dst});
    assert {} + {h.dst} == {h.dst};
  }

  lemma MeetsWrite(a: Table, b: Table, c: Table, sender: Addr, k: Addr)
    requires Meets(a, b, sender, {}) && k in c && c == b[k := c[k]]
    ensures Meets(a, c, sender, {k})
  {
  }

  lemma SameHopsMeets(a: Table, b: Table, c: Table, sender: Addr, about: set<Addr>)
    requires Meets(a, b, sender, about) && c.Keys == b.Keys
    requires forall k :: k in b ==> c[k].route == b[k].route && c[k].info.hops == b[k].info.hops
    ensures Meets(a, c, sender, about)
  {
  }

  /** The reply reaches the originator: it has a VALID route through the sender. */
  lemma GetReply(s: Node, h: Rrep, ttl: U8, sender: Addr, rcv: Iface, until: Time, life: Time, now: Time)
    requires Calmly(s, rcv, until, {h.dst}) && now <= until <= now + life
    requires FromMilliseconds(h.lifeTime) >= life && s.cfg.activeRouteTimeout >= life
    requires !h.ackRequired && h.dst != h.origin && rcv.local == h.origin && h.hopCount <= 254
    requires h.dst in s.table && s.table[h.dst].info.flag == IN_SEARCH && sender != NO_ADDR && h.dst != NO_ADDR
    ensures var s' := Receive(s, Some(RREP(h)), ttl, sender, rcv, now);
            && Calmly(s', rcv, until, {h.dst}) && s'.cfg == s.cfg && s'.ids == s.ids
            && Meets(s.table, s'.table, sender, {h.dst}) && sender in s'.table
            && IsValid(s'.table, h.dst) && s'.table[h.dst].route.nextHop == sender
            && s'.table[h.dst].info.hops == h.hopCount + 1
            && s'.log.sent == s.log.sent
  {
    hide Purge, LearnFromReply, AcceptReply, Steady, Meets, RouteToNeighbor, Fresher;
    var hop := Wrap8(h.hopCount + 1);
    var s1 := Met(s, sender, rcv, now);
    MetSteady(s, sender, rcv, until, {h.dst}, now);
    MetEntry(s, sender, rcv, until, {h.dst}, now, h.dst);
    MetSought(s, h, sender, rcv, until, now);
    SteadyPurge(s1.table, rcv, until, {h.dst}, now, s.cfg.badLinkLifetime);
    var before := GetOr(s1.table, h.dst, DefaultEntry(now));
    var s2 := LearnFromReply(s1, h, hop, sender, rcv, now);
    var e := ForwardEntry(h, hop, sender, rcv, now);
    SteadyWrite(s1.table, rcv, until, {h.dst}, h.dst, e);
    if Fresher(h, hop, before.info) {
      LearnReplySteady(s1, h, hop, sender, rcv, until, {h.dst}, now);
      assert s2.table[h.dst := e] == s2.table;
    } else {
      RefusedExactly(s1, h, sender, rcv, until, now);
    }
    AcceptExactly(s2, h, hop, sender, rcv, before, until, now);
    MeetsWrite(s.table, s1.table, s1.table[h.dst := e], sender, h.dst);
    assert s1.ifaces[0].local == h.origin;
  }

  /** The sought entry after its own node may have been heard: still under search,
      or a new one-hop route, which every reply replaces. */
  lemma MetSought(s: Node, h: Rrep, sender: Addr, rcv: Iface, until: Time, now: Time)
    requires Calmly(s, rcv, until, {h.dst}) && now <= until
    requires h.dst in s.table && s.table[h.dst].info.flag == IN_SEARCH
    ensures var t := Met(s, sender, rcv, now).table;
            && h.dst in t
            && (t[h.dst].info.flag != IN_SEARCH ==> Fresher(h, Wrap8(h.hopCount + 1), t[h.dst].info))
  {
    hide Steady;
    SteadyPurge(s.table, rcv, until, {h.dst}, now, s.cfg.badLinkLifetime);
  }

  lemma RefusedExactly(s: Node, h: Rrep, sender: Addr, rcv: Iface, until: Time, now: Time)
    requires Steady(s.table, rcv, until, {h.dst}) && now <= until && !h.ackRequired
    requires h.dst in s.table && !Fresher(h, Wrap8(h.hopCount + 1), s.table[h.dst].info)
    ensures LearnFromReply(s, h, Wrap8(h.hopCount + 1), sender, rcv, now) == s
  {
    hide Purge, Steady, Fresher;
    SteadyPurge(s.table, rcv, until, {h.dst}, now, s.cfg.badLinkLifetime);
  }

  /** The search ends with the route, whether it has just been written or is written now. */
  lemma AcceptExactly(s: Node, h: Rrep, hop: U8, sender: Addr, rcv: Iface, before: Entry, until: Time, now: Time)
    requires var t := s.table[h.dst := ForwardEntry(h, hop, sender, rcv, now)];
             Steady(t, rcv, until, {h.dst}) && now <= until && (before.info.flag == IN_SEARCH || s.table == t)
    requires h.dst in s.table
    ensures var s' := AcceptReply(s, h, hop, sender, rcv, before, now);
            && s'.table == s.table[h.dst := ForwardEntry(h, hop, sender, rcv, now)]
            && s'.cfg == s.cfg && s'.ids == s.ids && s'.ifaces == s.ifaces
            && s'.neighbors == s.neighbors && s'.log.sent == s.log.sent
  {
    hide Purge, Steady, Filter, WithoutFirst, ForwardedAll, Matching;
    var t := s.table[h.dst := ForwardEntry(h, hop, sender, rcv, now)];
    SteadyPurge(t, rcv, until, {h.dst}, now, s.cfg.badLinkLifetime);
    assert Update(s.table, ForwardEntry(h, hop, sender, rcv, now)) == t;
  }
}
