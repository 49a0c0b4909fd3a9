/** The rate limit on route errors: what it bounds, and what it does not. */
module RerrBudget {
  import opened Base
  import opened Messages
  import opened RouteTable
  import opened NodeState
  import opened Discovery
  import opened LinkBreak
  import opened Routes
  import opened NodeEvents
  import PacketQueue
  import IdCaches

  function IsUnicastError(): Sent -> bool { (m: Sent) => m.msg.RERR? && m.to != m.iface.BroadcastTarget() }

  /** The unicast route errors among the sends. */
  function Unicasts(sent: seq<Sent>): nat { |Filter(IsUnicastError(), sent)| }

  /** What is new in the log. */
  function Fresh(s: Node, s': Node): seq<Sent> {
    if |s.log.sent| <= |s'.log.sent| then s'.log.sent[|s.log.sent|..] else []
  }

  /** Below the limit the counter stays within it and covers the unicasts. */
  ghost predicate Budgeted(s: Node, s': Node) {
    && s.log.sent <= s'.log.sent && s'.cfg == s.cfg
    && (s.ctr.rerrCount <= s.cfg.rerrRateLimit ==>
          s.ctr.rerrCount + Unicasts(Fresh(s, s')) <= s'.ctr.rerrCount <= s.cfg.rerrRateLimit)
  }

  lemma UnicastsAppend(a: seq<Sent>, b: seq<Sent>)
    ensures Unicasts(a + b) == Unicasts(a) + Unicasts(b)
  {
    FilterAppend(IsUnicastError(), a, b);
  }

  lemma BudgetedTrans(a: Node, b: Node, c: Node)
    requires Budgeted(a, b) && Budgeted(b, c)
    ensures Budgeted(a, c)
  {
    hide Unicasts;
    assert Fresh(a, c) == Fresh(a, b) + Fresh(b, c);
    UnicastsAppend(Fresh(a, b), Fresh(b, c));
  }

  /** Nothing is counted and no unicast error is sent. */
  ghost predicate Free(s: Node, s': Node) {
    && s.log.sent <= s'.log.sent && s'.cfg == s.cfg && s'.ctr.rerrCount == s.ctr.rerrCount
    && forall i :: |s.log.sent| <= i < |s'.log.sent| ==> !IsUnicastError()(s'.log.sent[i])
  }

  lemma FreeBudgeted(s: Node, s': Node)
    requires Free(s, s')
    ensures Budgeted(s, s')
  {
    FilterNone(IsUnicastError(), Fresh(s, s'));
  }

  // ---------------------------------------------------------------------
  // Reports about broken links

  lemma SendRerrBudgeted(s: Node, rerr: Rerr, precursors: seq<Addr>)
    ensures Budgeted(s, SendRerrMessage(s, rerr, precursors))
  {
    hide PrecursorIfaces;
    var s' := SendRerrMessage(s, rerr, precursors);
    if precursors == [] || s.ctr.rerrCount == s.cfg.rerrRateLimit || |precursors| != 1
        || !IsValid(s.table, precursors[0]) {
      FreeBudgeted(s, s');
    } else {
      var m := Sent(RERR(rerr), 1, s.table[precursors[0]].info.iface, precursors[0]);
      assert Fresh(s, s') == [m];
      assert Unicasts([m]) <= 1 by { assert Filter(IsUnicastError(), [m][1..]) == []; }
    }
  }

  lemma BreakLinkBudgeted(s: Node, nextHop: Addr, now: Time)
    ensures Budgeted(s, BreakLink(s, nextHop, now))
  {
    hide Purge, LostDestinations, LostPrecursors, InvalidateAll, SendRerrMessage, Unicasts;
    var p := s.Purged(now);
    SameBudget(s, s.(table := p));
    if nextHop in p && Wrap8(|LostDestinations(p, nextHop)|) != 0 {
      var rerr := Rerr(0, 0, LostDestinations(p, nextHop));
      SendRerrBudgeted(s.(table := p), rerr, LostPrecursors(p, nextHop));
    }
  }

  /** The table does not matter. */
  lemma SameBudget(s: Node, s': Node)
    requires s'.log.sent == s.log.sent && s'.cfg == s.cfg && s'.ctr.rerrCount == s.ctr.rerrCount
    ensures Budgeted(s, s')
  {
    FreeBudgeted(s, s');
  }

  lemma {:induction false} BreakAllBudgeted(s: Node, lost: seq<Neighbor>, now: Time)
    ensures Budgeted(s, BreakAll(s, lost, now))
    decreases |lost|
  {
    hide BreakLink, Budgeted;
    if lost == [] {
      SameBudget(s, s);
    } else {
      BreakLinkBudgeted(s, lost[0].addr, now);
      BreakAllBudgeted(BreakLink(s, lost[0].addr, now), lost[1..], now);
      BudgetedTrans(s, BreakLink(s, lost[0].addr, now), BreakAll(s, lost, now));
    }
  }

  lemma PurgeBudgeted(s: Node, now: Time)
    ensures Budgeted(s, PurgeNeighbors(s, now))
  {
    hide BreakAll, Filter, Unicasts;
    if s.neighbors == [] {
      SameBudget(s, s);
    } else {
      BreakAllBudgeted(s, Filter(IsClosed(now), s.neighbors), now);
    }
  }

  lemma UpdateBudgeted(s: Node, addr: Addr, expire: Time, now: Time)
    ensures Budgeted(s, UpdateNeighbor(s, addr, expire, now))
  {
    hide PurgeNeighbors, Budgeted;
    var s1 := s.(neighbors := s.neighbors + [Neighbor(addr, expire + now, false)]);
    SameBudget(s, s1);
    PurgeBudgeted(s1, now);
    BudgetedTrans(s, s1, PurgeNeighbors(s1, now));
    if NeighborIndex(s.neighbors, addr) < |s.neighbors| {
      SameBudget(s, UpdateNeighbor(s, addr, expire, now));
    }
  }

  lemma RecvErrorBudgeted(s: Node, rerr: Rerr, src: Addr, now: Time)
    ensures Budgeted(s, RecvError(s, rerr, src, now))
  {
    hide Purge, Affected, CollectPrecursors, InvalidateAll, SendRerrMessage, SortedKeys, Unicasts;
    var p := s.Purged(now);
    var affected := Affected(p, rerr.unreachable, src);
    SameBudget(s, s.(table := p));
    SendRerrBudgeted(s.(table := p), rerr.(unreachable := affected), CollectPrecursors(p, SortedKeys(affected.Keys),
        []));
  }

  // ---------------------------------------------------------------------
  // The other handlers

  lemma AnswerFree(s: Node, h: Rreq, hop: U8, ttl: U8, src: Addr, stale: Entry, now: Time)
    ensures Free(s, AnswerRequest(s, h, hop, ttl, src, stale, now))
  {
    hide Purge, Update, KnowsDestination, Relayed, ToMilliseconds;
  }

  lemma RequestBudgeted(s: Node, h: Rreq, ttl: U8, src: Addr, rcv: Iface, now: Time)
    ensures Budgeted(s, RecvRequest(s, h, ttl, src, rcv, now))
  {
    hide Purge, ReverseRoute, RelayRoute, UpdateNeighbor, AnswerRequest, StaleEntry, Budgeted, IdCaches.Record,
         IdCaches.Duplicate, Free;
    var p, hop := s.Purged(now), Wrap8(h.hopCount + 1);
    var s1 := s.(table := p, ids := IdCaches.Record(s.ids, IdCaches.Key(h.origin, h.id), s.cfg.idLifetime, now));
    SameBudget(s, s1);
    SameBudget(s, s.(table := p));
    var s2 := s1.(table := RelayRoute(s1.cfg, Purge(ReverseRoute(s1.cfg, s1.Purged(now), h, hop, src, rcv, now), now,
                                                    s1.cfg.badLinkLifetime), h, src, rcv, now));
    var s3 := UpdateNeighbor(s2, src, s.cfg.HelloLifetime(), now);
    SameBudget(s, s2);
    UpdateBudgeted(s2, src, s.cfg.HelloLifetime(), now);
    BudgetedTrans(s, s2, s3);
    var stale := StaleEntry(s1, h, hop, src, rcv, now);
    var s4 := AnswerRequest(s3, h, hop, ttl, src, stale, now);
    AnswerFree(s3, h, hop, ttl, src, stale, now);
    FreeBudgeted(s3, s4);
    BudgetedTrans(s, s3, s4);
  }

  lemma ReplyBudgeted(s: Node, h: Rrep, ttl: U8, sender: Addr, rcv: Iface, now: Time)
    ensures Budgeted(s, RecvReply(s, h, ttl, sender, rcv, now))
  {
    hide HelloTable, UpdateNeighbor, Purge, ForwardRoute, ForwardEntry, ConnectPrecursors, Extended, Filter, Matching,
         WithoutFirst, ForwardedAll, PacketQueue.Purge, Update, Budgeted;
    var s' := RecvReply(s, h, ttl, sender, rcv, now);
    if h.dst == h.origin {
      var s1 := s.(table := HelloTable(s, h, rcv, now));
      SameBudget(s, s1);
      UpdateBudgeted(s1, h.dst, s.cfg.HelloLifetime(), now);
      BudgetedTrans(s, s1, UpdateNeighbor(s1, h.dst, s.cfg.HelloLifetime(), now));
    } else {
      FreeBudgeted(s, s');
    }
  }

  lemma ReceiveBudgeted(s: Node, msg: Option<Message>, ttl: U8, sender: Addr, rcv: Iface, now: Time)
    ensures Budgeted(s, Receive(s, msg, ttl, sender, rcv, now))
  {
    hide RouteToNeighbor, RecvRequest, RecvReply, RecvError, Purge, Budgeted;
    var s1 := s.(table := RouteToNeighbor(s.cfg, s.table, sender, rcv, now));
    var s' := Receive(s, msg, ttl, sender, rcv, now);
    SameBudget(s, s1);
    match msg {
      case Some(RREQ(h)) => RequestBudgeted(s1, h, ttl, sender, rcv, now);
      case Some(RREP(h)) => ReplyBudgeted(s1, h, ttl, sender, rcv, now);
      case Some(RERR(h)) => RecvErrorBudgeted(s1, h, sender, now);
      case _ => SameBudget(s1, s');
    }
    BudgetedTrans(s, s1, s');
  }

  lemma UseRouteBudgeted(s: Node, origin: Addr, dst: Addr, now: Time)
    requires IsValid(s.Purged(now), dst)
    ensures Budgeted(s, UseRoute(s, origin, dst, now))
  {
    hide Purge, Refresh, UpdateNeighbor, Budgeted, DefaultEntry;
    var p, life, bad := s.Purged(now), s.cfg.activeRouteTimeout, s.cfg.badLinkLifetime;
    var gateway := p[dst].route.nextHop;
    var t1 := Refresh(Refresh(Refresh(p, origin, life, now, bad), dst, life, now, bad), gateway, life, now, bad);
    var back := GetOr(t1, origin, DefaultEntry(now)).route.nextHop;
    var s1 := s.(table := Refresh(t1, back, life, now, bad));
    var s2 := UpdateNeighbor(s1, gateway, life, now);
    SameBudget(s, s1);
    UpdateBudgeted(s1, gateway, life, now);
    BudgetedTrans(s, s1, s2);
    UpdateBudgeted(s2, back, life, now);
    BudgetedTrans(s, s2, UpdateNeighbor(s2, back, life, now));
  }

  lemma DeliverBudgeted(s: Node, origin: Addr, now: Time)
    ensures Budgeted(s, DeliverLocally(s, origin, now))
  {
    hide Refresh, UpdateNeighbor, Budgeted;
    var life, bad := s.cfg.activeRouteTimeout, s.cfg.badLinkLifetime;
    var t := Refresh(s.table, origin, life, now, bad);
    SameBudget(s, s.(table := t));
    if IsValid(t, origin) {
      var back := t[origin].route.nextHop;
      var s1 := s.(table := Refresh(t, back, life, now, bad));
      SameBudget(s, s1);
      UpdateBudgeted(s1, back, life, now);
      BudgetedTrans(s, s1, UpdateNeighbor(s1, back, life, now));
    }
  }

  lemma SearchFree(s: Node, dst: Addr, now: Time)
    ensures Free(s, RouteRequestTimerExpire(s, dst, now)) && Free(s, SendRequest(s, dst, now))
  {
    hide Purge, SearchEntry, RecordOwn, ScheduleRreqRetry, Filter, Matching, WithoutFirst, ForwardedAll, RequestFor,
         PacketQueue.Purge, PacketQueue.DropPacketWithDst;
  }

  lemma {:induction false} HellosFree(s: Node, ifaces: seq<Iface>)
    ensures forall i :: 0 <= i < |Hellos(s, ifaces)| ==> Hellos(s, ifaces)[i].msg.RREP?
  {
    hide ToMilliseconds;
    if ifaces != [] {
      HellosFree(s, ifaces[1..]);
    }
  }

  /** A packet that is to be forwarded finds no VALID route. */
  predicate NoRoute(s: Node, e: Event, now: Time) { e.Forward? && !IsValid(s.Purged(now), e.header.dst) }

  lemma EventBudgeted(s: Node, e: Event, now: Time)
    requires !e.RerrReset? && !NoRoute(s, e, now)
    ensures Budgeted(s, Apply(s, e, now))
  {
    hide Receive, RouteRequestTimerExpire, PurgeNeighbors, UseRoute, DeliverLocally, SendRequest, CloseNeighbors,
         Hellos,
         Budgeted, Purge, Refresh, PacketQueue.Enqueue, PacketQueue.Accepts;
    var s' := Apply(s, e, now);
    match e {
      case Receipt(msg, ttl, sender, rcv) => ReceiveBudgeted(s, msg, ttl, sender, rcv, now);
      case NeighborTimer =>
        SameBudget(s, s.(neighborTimer := None));
        PurgeBudgeted(s.(neighborTimer := None), now);
        BudgetedTrans(s, s.(neighborTimer := None), s');
      case TxError(hit) =>
        var s1 := s.(neighbors := CloseNeighbors(s.neighbors, hit));
        SameBudget(s, s1);
        PurgeBudgeted(s1, now);
        BudgetedTrans(s, s1, s');
      case Forward(uid, header) =>
        var s1 := UseRoute(s, header.src, header.dst, now);
        UseRouteBudgeted(s, header.src, header.dst, now);
        SameBudget(s1, s');
        BudgetedTrans(s, s1, s');
      case Delivered(origin) => DeliverBudgeted(s, origin, now);
      case _ => OtherFree(s, e, now); FreeBudgeted(s, s');
    }
  }

  lemma OtherFree(s: Node, e: Event, now: Time)
    requires !e.Receipt? && !e.NeighborTimer? && !e.TxError? && !e.Forward? && !e.Delivered? && !e.RerrReset?
    ensures Free(s, Apply(s, e, now))
  {
    hide RouteRequestTimerExpire, SendRequest, Hellos, Purge, Refresh, PacketQueue.Enqueue, PacketQueue.Accepts;
    match e {
      case RetryTimer(dst) =>
        SearchFree(s.(search := s.search.(timers := s.search.timers[dst := None])), dst, now);
      case Output(packet) =>
        var queued := s.WithQueue(PacketQueue.Enqueue(s.queue, packet, s.cfg.maxQueueLen, s.cfg.queueTimeout, now));
        SearchFree(queued.(table := s.Purged(now)), packet.header.dst, now);
      case Postponed(dst, at) =>
        SearchFree(s.(search := s.search.(postponed := s.search.postponed - multiset{(dst, at)})), dst, now);
      case HelloTimer => HellosFree(s.(hello := s.hello.(timer := None)), s.ifaces);
      case _ =>
    }
  }

  // ---------------------------------------------------------------------
  // Whole runs

  function Resets(run: seq<(Event, Time)>): nat
    decreases |run|
  {
    if run == [] then 0 else (if run[0].0.RerrReset? then 1 else 0) + Resets(run[1..])
  }

  /** Every packet to forward finds a route. */
  ghost predicate AlwaysRoutes(s: Node, run: seq<(Event, Time)>)
    decreases |run|
  {
    run != [] ==>
      !NoRoute(s, run[0].0, run[0].1) && AlwaysRoutes(Apply(s, run[0].0, run[0].1), run[1..])
  }

  /** What the limit allows in a run with that many resets. */
  function Budget(s: Node, resets: nat): int { s.cfg.rerrRateLimit * (resets + 1) - s.ctr.rerrCount }

  lemma ResetFree(s: Node, now: Time, resets: nat)
    requires s.ctr.rerrCount <= s.cfg.rerrRateLimit
    ensures var s1 := Apply(s, RerrReset, now);
            Free(s.(ctr := s1.ctr), s1) && s1.log == s.log && s1.cfg == s.cfg
            && s1.ctr.rerrCount <= s.cfg.rerrRateLimit && Budget(s1, resets) <= Budget(s, resets + 1)
  {
    assert s.cfg.rerrRateLimit * (resets + 2) == s.cfg.rerrRateLimit * (resets + 1) + s.cfg.rerrRateLimit;
  }

  /** Over a whole run a node sends no more unicast reports about broken links,
      its own and those it passes on, than the limit says, and each reset of the
      counter allows as many again. */
  lemma {:induction false} RunWithinLimits(s: Node, run: seq<(Event, Time)>)
    requires AlwaysRoutes(s, run) && s.ctr.rerrCount <= s.cfg.rerrRateLimit
    ensures var s' := RunAll(s, run); s.log.sent <= s'.log.sent && Unicasts(Fresh(s, s')) <= Budget(s, Resets(run))
    decreases |run|
  {
    hide Apply, Unicasts, NoRoute, Free, Budget;
    if run == [] {
      NoneFresh(s);
    } else {
      var e, now := run[0].0, run[0].1;
      var s1 := Apply(s, e, now);
      var s' := RunAll(s1, run[1..]);
      if e.RerrReset? {
        ResetFree(s, now, Resets(run[1..]));
        RunWithinLimits(s1, run[1..]);
        assert Fresh(s, s') == Fresh(s1, s');
      } else {
        EventBudgeted(s, e, now);
        RunWithinLimits(s1, run[1..]);
        assert Fresh(s, s') == Fresh(s, s1) + Fresh(s1, s');
        UnicastsAppend(Fresh(s, s1), Fresh(s1, s'));
        BudgetLess(s, s1, Unicasts(Fresh(s, s1)), Resets(run[1..]));
      }
    }
  }

  lemma NoneFresh(s: Node)
    requires s.ctr.rerrCount <= s.cfg.rerrRateLimit
    ensures Unicasts(Fresh(s, s)) == 0 <= Budget(s, 0)
  {
    UnicastsAppend([], []);
    assert [] + [] == Fresh(s, s);
  }

  lemma BudgetLess(s: Node, s1: Node, n: nat, resets: nat)
    requires s1.cfg == s.cfg && s.ctr.rerrCount + n <= s1.ctr.rerrCount
    ensures n + Budget(s1, resets) <= Budget(s, resets)
  {
  }

  /** After a reset a node that may report at all does, however many it has sent before. */
  lemma ResetReopens(s: Node, rerr: Rerr, precursors: seq<Addr>, a: Addr, now: Time)
    requires s.cfg.rerrRateLimit > 0 && a in precursors && IsValid(s.table, a)
    ensures var s1 := Apply(s, RerrReset, now); s1.log.sent < SendRerrMessage(s1, rerr, precursors).log.sent
  {
    hide PrecursorIfaces;
    if |precursors| == 1 {
      assert precursors[0] == a;
    } else {
      SomeIface(s.table, precursors, [], a);
    }
  }

  lemma {:induction false} SomeIface(p: Table, precursors: seq<Addr>, found: seq<Iface>, a: Addr)
    requires found != [] || (a in precursors && IsValid(p, a))
    ensures PrecursorIfaces(p, precursors, found) != []
    decreases |precursors|
  {
    if precursors != [] {
      var found' := if IsValid(p, precursors[0]) then PushNew(found, p[precursors[0]].info.iface) else found;
      SomeIface(p, precursors[1..], found', a);
    }
  }

  // ---------------------------------------------------------------------
  // Missing routes

  lemma NoRouteOnce(s: Node, uid: int, header: PacketQueue.Header, now: Time)
    requires s.cfg.badLinkLifetime >= 0 && s.ctr.rerrCount != s.cfg.rerrRateLimit
    requires var p := s.Purged(now);
             !IsValid(p, header.dst) && IsValid(p, header.src)
             && p[header.src].route.nextHop != p[header.src].info.iface.BroadcastTarget()
    ensures var s' := Apply(s, Forward(uid, header), now);
            && s.log.sent <= s'.log.sent && s'.cfg == s.cfg && s'.ctr == s.ctr && s'.Purged(now) == s.Purged(now)
            && Unicasts(Fresh(s, s')) == 1
  {
    hide Purge;
    PurgeTwice(s.table, now, s.cfg.badLinkLifetime);
    var s' := Apply(s, Forward(uid, header), now);
    var m := Fresh(s, s')[0];
    assert Fresh(s, s') == [m];
    assert Filter(IsUnicastError(), [m][1..]) == [];
  }

  /** `n` packets without a route, one after the other. */
  function Lost(n: nat, uid: int, header: PacketQueue.Header, now: Time): (run: seq<(Event, Time)>)
    ensures |run| == n
  {
    if n == 0 then [] else [(Forward(uid, header), now)] + Lost(n - 1, uid, header, now)
  }

  /** The limit does not bound the reports about missing routes: as long as it is
      not reached by others, each packet that cannot be forwarded brings one
      more, however many there are, and none is counted. */
  lemma {:induction false} NoRouteReportsUnlimited(s: Node, n: nat, uid: int, header: PacketQueue.Header, now: Time)
    requires s.cfg.badLinkLifetime >= 0 && s.ctr.rerrCount != s.cfg.rerrRateLimit
    requires var p := s.Purged(now);
             !IsValid(p, header.dst) && IsValid(p, header.src)
             && p[header.src].route.nextHop != p[header.src].info.iface.BroadcastTarget()
    ensures var s' := RunAll(s, Lost(n, uid, header, now));
            s.log.sent <= s'.log.sent && Unicasts(Fresh(s, s')) == n && s'.ctr.rerrCount == s.ctr.rerrCount
    decreases n
  {
    hide Apply, Purge, Unicasts;
    if n == 0 {
      assert Fresh(s, s) == [];
      UnicastsAppend([], []);
      assert [] + [] == Fresh(s, s);
    } else {
      var s1 := Apply(s, Forward(uid, header), now);
      var s' := RunAll(s1, Lost(n - 1, uid, header, now));
      NoRouteOnce(s, uid, header, now);
      NoRouteReportsUnlimited(s1, n - 1, uid, header, now);
      assert Lost(n, uid, header, now)[1..] == Lost(n - 1, uid, header, now);
      assert Fresh(s, s') == Fresh(s, s1) + Fresh(s1, s');
      UnicastsAppend(Fresh(s, s1), Fresh(s1, s'));
    }
  }
}
