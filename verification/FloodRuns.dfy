/** Floods amid everything else: copies arrive or get lost in any order, while
    every node goes on with its timers, its data packets and its own requests
    (section 6.5 of RFC 3561). */
module FloodRuns {
  import opened Base
  import opened Messages
  import opened RouteTable
  import opened NodeState
  import opened Discovery
  import opened LinkBreak
  import opened Routes
  import opened NodeEvents
  import opened Frames
  import opened TableSteps
  import opened NodeRuns
  import opened Emissions
  import opened LoopFreedom
  import opened Network
  import opened Flood
  import opened FloodLimits
  import IdCaches
  import PacketQueue

  /** A copy arrives or is lost, or a node handles an event of its own. */
  datatype Happening =
    | Arrival(i: nat)
    | Loss(i: nat)
    | Local(at: Addr, event: Event)

  predicate CanHappen(net: Net, x: Happening) {
    match x
    case Arrival(i) => CanDeliver(net, i)
    case Loss(i) => i < |net.flight|
    case Local(a, e) => a in net.nodes && !e.Receipt?
  }

  function Happen(net: Net, x: Happening, now: Time): Net
    requires CanHappen(net, x)
  {
    match x
    case Arrival(i) => Deliver(net, i, now)
    case Loss(i) => net.(flight := net.flight[..i] + net.flight[i + 1..])
    case Local(a, e) =>
      var s' := Apply(net.nodes[a], e, now);
      net.(nodes := net.nodes[a := s'], flight := net.flight + AllCopies(net, a, NewSends(net.nodes[a], s')))
  }

  /** The next request that the node issues bears the name `key`. */
  predicate WouldIssue(s: Node, key: IdCaches.Key) {
    s.IsMyOwnAddress(key.context) && Wrap32(s.ctr.requestId + 1) == key.id
  }

  /** No node that has seen the request issues another one of that name: its
      32-bit request number has not come round. */
  ghost predicate NoRepeat(net: Net, x: Happening, key: IdCaches.Key) {
    x.Local? && x.at in net.nodes && !Unaware(net.nodes[x.at], key) ==> !WouldIssue(net.nodes[x.at], key)
  }

  ghost predicate Runs(net: Net, run: seq<(Happening, Time)>, from: Time, until: Time)
    decreases |run|
  {
    run != [] ==>
      && CanHappen(net, run[0].0) && from <= run[0].1 <= until
      && Runs(Happen(net, run[0].0, run[0].1), run[1..], run[0].1, until)
  }

  ghost function End(net: Net, run: seq<(Happening, Time)>, from: Time, until: Time): Net
    requires Runs(net, run, from, until)
    decreases |run|
  {
    if run == [] then net else End(Happen(net, run[0].0, run[0].1), run[1..], run[0].1, until)
  }

  ghost predicate NoRepeats(net: Net, run: seq<(Happening, Time)>, from: Time, until: Time, key: IdCaches.Key)
    requires Runs(net, run, from, until)
    decreases |run|
  {
    run != [] ==>
      NoRepeat(net, run[0].0, key) && NoRepeats(Happen(net, run[0].0, run[0].1), run[1..], run[0].1, until, key)
  }

  // ---------------------------------------------------------------------
  // What a node's own events do to a flood

  /** The node has sent one request of its own, and remembers it. */
  ghost predicate Originated(s: Node, s': Node, now: Time) {
    && s'.ifaces == s.ifaces && s'.cfg == s.cfg
    && s'.ids == RecordOwn(s.ids, s.ifaces, Wrap32(s.ctr.requestId + 1), s.cfg.idLifetime, now)
    && s.log.sent <= s'.log.sent && |s'.log.sent| == |s.log.sent| + |s.ifaces|
    && (forall i :: |s.log.sent| <= i < |s'.log.sent| ==>
          && s'.log.sent[i].msg.RREQ? && s'.log.sent[i].msg.rreq.id == Wrap32(s.ctr.requestId + 1)
          && s'.log.sent[i].msg.rreq.origin == s.ifaces[i - |s.log.sent|].local)
  }

  ghost predicate AsksOrNot(s: Node, s': Node, now: Time) { Mute(s, s') || Originated(s, s', now) }

  lemma SendRequestAsks(s: Node, s1: Node, dst: Addr, now: Time)
    requires s1.ids == s.ids && s1.log.sent == s.log.sent && s1.ifaces == s.ifaces && s1.cfg == s.cfg && s1.ctr == s.ctr
    ensures AsksOrNot(s, SendRequest(s1, dst, now), now)
  {
    hide Purge, SearchEntry, ScheduleRreqRetry, RecordOwn;
  }

  lemma SameAsks(s: Node, s': Node, now: Time)
    requires s'.ids == s.ids && s'.log.sent == s.log.sent && s'.ifaces == s.ifaces && s'.cfg == s.cfg
    ensures AsksOrNot(s, s', now)
  {
  }

  lemma MuteAsks(s: Node, s1: Node, s': Node, now: Time)
    requires s1.ids == s.ids && s1.log.sent == s.log.sent && s1.ifaces == s.ifaces && s1.cfg == s.cfg && Mute(s1, s')
    ensures AsksOrNot(s, s', now)
  {
  }

  lemma RetryAsks(s: Node, s1: Node, dst: Addr, now: Time)
    requires s1.ids == s.ids && s1.log == s.log && s1.ifaces == s.ifaces && s1.cfg == s.cfg && s1.ctr == s.ctr
    ensures AsksOrNot(s, RouteRequestTimerExpire(s1, dst, now), now)
  {
    hide SendRequest, Purge, WithoutFirst, Filter, Matching, ForwardedAll, AsksOrNot;
    SendRequestAsks(s, s1.(table := s1.Purged(now)), dst, now);
    var s' := RouteRequestTimerExpire(s1, dst, now);
    if s'.ids == s.ids && s'.log.sent == s.log.sent && s'.ifaces == s.ifaces && s'.cfg == s.cfg {
      SameAsks(s, s', now);
    }
  }

  lemma OutputAsks(s: Node, packet: PacketQueue.QueueEntry, now: Time)
    ensures AsksOrNot(s, DeferredRouteOutput(s, packet, now), now)
  {
    hide SendRequest, Purge, PacketQueue.Enqueue, PacketQueue.Accepts, AsksOrNot;
    var queued := s.WithQueue(PacketQueue.Enqueue(s.queue, packet, s.cfg.maxQueueLen, s.cfg.queueTimeout, now));
    SendRequestAsks(s, queued.(table := s.Purged(now)), packet.header.dst, now);
    SameAsks(s, queued, now);
    SameAsks(s, queued.(table := s.Purged(now)), now);
  }

  lemma EventAsks(s: Node, e: Event, now: Time)
    requires !e.Receipt?
    ensures AsksOrNot(s, Apply(s, e, now), now)
  {
    hide Mute, RouteRequestTimerExpire, PurgeNeighbors, RouteOutput, Forwarding, DeliverLocally, AsksOrNot,
         DeferredRouteOutput, SendRequest, CloseNeighbors, HelloTimerExpire;
    var s' := Apply(s, e, now);
    match e
    case Output(packet) => OutputAsks(s, packet, now);
    case RetryTimer(dst) => RetryAsks(s, s.(search := s.search.(timers := s.search.timers[dst := None])), dst, now);
    case Postponed(dst, at) =>
      SendRequestAsks(s, s.(search := s.search.(postponed := s.search.postponed - multiset{(dst, at)})), dst, now);
    case RreqReset => SameAsks(s, s', now);
    case RerrReset => SameAsks(s, s', now);
    case HelloTimer =>
      HelloMute(s.(hello := s.hello.(timer := None)), now);
      MuteAsks(s, s.(hello := s.hello.(timer := None)), s', now);
    case NeighborTimer =>
      PurgeNeighborsMute(s.(neighborTimer := None), now);
      MuteAsks(s, s.(neighborTimer := None), s', now);
    case TxError(hit) =>
      PurgeNeighborsMute(s.(neighbors := CloseNeighbors(s.neighbors, hit)), now);
      MuteAsks(s, s.(neighbors := CloseNeighbors(s.neighbors, hit)), s', now);
    case RouteRequest(dst, oif) => RouteOutputMute(s, dst, oif, now); MuteAsks(s, s, s', now);
    case Forward(uid, header) => ForwardingMute(s, uid, header, now); MuteAsks(s, s, s', now);
    case Delivered(origin) => DeliverLocallyMute(s, origin, now); MuteAsks(s, s, s', now);
  }

  /** A node's own event adds nothing to the flood, or starts it: then the node
      had never heard of it and remembers it from now on. */
  lemma LocalFlood(s: Node, e: Event, key: IdCaches.Key, h: Time, now: Time)
    requires !e.Receipt? && |s.ifaces| == 1 && now <= h <= now + s.cfg.idLifetime
    requires Knows(s, key, h) || Unaware(s, key)
    requires Unaware(s, key) || !WouldIssue(s, key)
    ensures var s' := Apply(s, e, now);
            && s.log.sent <= s'.log.sent && s'.ifaces == s.ifaces && s'.cfg == s.cfg
            && (Knows(s', key, h) || Unaware(s', key)) && (Unaware(s', key) ==> Unaware(s, key))
            && forall i :: |s.log.sent| <= i < |s'.log.sent| && InFlood(s'.log.sent[i].msg, key) ==>
                 && i == |s'.log.sent| - 1 && WouldIssue(s, key) && Unaware(s, key) && !Unaware(s', key)
  {
    hide Apply, Originated, Knows, Unaware, WouldIssue;
    EventAsks(s, e, now);
    var s' := Apply(s, e, now);
    if Mute(s, s') {
      MuteKeepsAware(s, s', key, h);
    } else {
      OriginatedFlood(s, s', key, h, now);
    }
  }

  lemma MuteKeepsAware(s: Node, s': Node, key: IdCaches.Key, h: Time)
    requires s'.ids == s.ids
    ensures (Knows(s', key, h) <==> Knows(s, key, h)) && (Unaware(s', key) <==> Unaware(s, key))
  {
  }

  lemma OriginatedFlood(s: Node, s': Node, key: IdCaches.Key, h: Time, now: Time)
    requires |s.ifaces| == 1 && now <= h <= now + s.cfg.idLifetime && Originated(s, s', now)
    requires Knows(s, key, h) || Unaware(s, key)
    requires Unaware(s, key) || !WouldIssue(s, key)
    ensures s.log.sent <= s'.log.sent && s'.ifaces == s.ifaces && s'.cfg == s.cfg
    ensures (Knows(s', key, h) || Unaware(s', key)) && (Unaware(s', key) ==> Unaware(s, key))
    ensures forall i :: |s.log.sent| <= i < |s'.log.sent| && InFlood(s'.log.sent[i].msg, key) ==>
              i == |s'.log.sent| - 1 && WouldIssue(s, key) && Unaware(s, key) && !Unaware(s', key)
  {
    hide IdCaches.Record, IdCaches.Duplicate;
    var own := IdCaches.Key(s.ifaces[0].local, Wrap32(s.ctr.requestId + 1));
    assert s.ifaces[1..] == [];
    assert RecordOwn(s.ids, s.ifaces, own.id, s.cfg.idLifetime, now)
        == RecordOwn(IdCaches.Record(s.ids, own, s.cfg.idLifetime, now), [], own.id, s.cfg.idLifetime, now);
    RecordMembers(s.ids, own, s.cfg.idLifetime, now);
    if key == own {
      assert WouldIssue(s, key);
      UnawareIsNew(s, key, now);
      assert IdCaches.UniqueId(own, s.cfg.idLifetime + now) in s'.ids;
    }
    KnowsOrNot(s, key, h);
  }

  // ---------------------------------------------------------------------
  // The flood ends

  lemma LocalSettled(net: Net, a: Addr, e: Event, now: Time, key: IdCaches.Key, h: Time)
    requires Settled(net, key, h, now) && CanHappen(net, Local(a, e)) && NoRepeat(net, Local(a, e), key) && now <= h
    ensures var net' := Happen(net, Local(a, e), now);
            && Settled(net', key, h, now) && net'.nodes.Keys == net.nodes.Keys
            && (Unaware(net'.nodes[a], key) ==> Unaware(net.nodes[a], key))
  {
    hide Apply, Knows, Unaware, InFlood, AllCopies, WouldIssue;
    SettledAt(net, key, h, now, a);
    LocalFlood(net.nodes[a], e, key, h, now);
  }

  lemma LocalInFlight(net: Net, a: Addr, e: Event, now: Time, key: IdCaches.Key, h: Time)
    requires Settled(net, key, h, now) && CanHappen(net, Local(a, e)) && NoRepeat(net, Local(a, e), key) && now <= h
    ensures var s, s' := net.nodes[a], Apply(net.nodes[a], e, now);
            InFlight(AllCopies(net, a, NewSends(s, s')), key)
            <= if Unaware(s, key) && !Unaware(s', key) then |net.nodes| else 0
  {
    hide Apply, Knows, Unaware, InFlood, AllCopies, WouldIssue, InFlight;
    SettledAt(net, key, h, now, a);
    var s, s' := net.nodes[a], Apply(net.nodes[a], e, now);
    LocalFlood(s, e, key, h, now);
    var sends := NewSends(s, s');
    assert forall j :: 0 <= j < |sends| ==> sends[j] == s'.log.sent[|s.log.sent| + j];
    OneSendCopies(net, a, sends, key);
  }

  lemma LocalPotential(net: Net, a: Addr, e: Event, now: Time, key: IdCaches.Key, h: Time)
    requires Settled(net, key, h, now) && CanHappen(net, Local(a, e)) && NoRepeat(net, Local(a, e), key) && now <= h
    ensures Potential(Happen(net, Local(a, e), now), key) <= Potential(net, key)
  {
    hide Apply, Settled, Unaware, AllCopies, InFlight, Fresh, NoRepeat;
    var net' := Happen(net, Local(a, e), now);
    var s, s' := net.nodes[a], Apply(net.nodes[a], e, now);
    LocalSettled(net, a, e, now, key, h);
    LocalInFlight(net, a, e, now, key, h);
    InFlightAppend(net.flight, AllCopies(net, a, NewSends(s, s')), key);
    FreshShrinks(net, net', a, key);
    assert |net'.nodes| == |net'.nodes.Keys| == |net.nodes.Keys| == |net.nodes|;
    PotentialDrops(|Fresh(net', key)|, |Fresh(net, key)|, |net.nodes|);
  }

  lemma LossPotential(net: Net, i: nat, now: Time, key: IdCaches.Key, h: Time)
    requires Settled(net, key, h, now) && i < |net.flight|
    ensures var net' := Happen(net, Loss(i), now);
            Settled(net', key, h, now) && Potential(net', key) <= Potential(net, key)
  {
    hide Settled, Fresh, InFlood, InFlight;
    InFlightRemove(net.flight, i, key);
    SameNodes(net, Happen(net, Loss(i), now), key, h, now);
  }

  lemma SameNodes(net: Net, net': Net, key: IdCaches.Key, h: Time, now: Time)
    requires net'.nodes == net.nodes
    ensures (Settled(net', key, h, now) <==> Settled(net, key, h, now)) && Fresh(net', key) == Fresh(net, key)
  {
    hide Unaware, Knows;
  }

  /** Whether a copy of the flood arrives. */
  predicate Hits(net: Net, x: Happening, key: IdCaches.Key) {
    x.Arrival? && x.i < |net.flight| && InFlood(net.flight[x.i].msg, key)
  }

  /** Each arrival of a copy of the flood uses up potential; nothing adds any. */
  lemma HappenPotential(net: Net, x: Happening, now: Time, key: IdCaches.Key, h: Time)
    requires Settled(net, key, h, now) && CanHappen(net, x) && NoRepeat(net, x, key) && now <= h
    ensures Settled(Happen(net, x, now), key, h, now)
    ensures Potential(Happen(net, x, now), key) + (if Hits(net, x, key) then 1 else 0) <= Potential(net, key)
  {
    hide Settled, Potential, Deliver, Apply, InFlood, Unaware, WouldIssue, AllCopies;
    match x
    case Arrival(i) => PotentialStep(net, i, now, key, h);
    case Loss(i) => LossPotential(net, i, now, key, h);
    case Local(a, e) =>
      LocalSettled(net, a, e, now, key, h);
      LocalPotential(net, a, e, now, key, h);
  }

  /** How many copies of the flood arrive in the run. */
  ghost function FloodArrivals(net: Net, run: seq<(Happening, Time)>, from: Time, until: Time, key: IdCaches.Key): nat
    requires Runs(net, run, from, until)
    decreases |run|
  {
    if run == [] then 0
    else (if Hits(net, run[0].0, key) then 1 else 0)
           + FloodArrivals(Happen(net, run[0].0, run[0].1), run[1..], run[0].1, until, key)
  }

  /** While the records of the duplicate cache live, only a fixed number of copies
      of one request can arrive, whatever else the nodes do. */
  lemma {:induction false} FloodTerminates(net: Net, run: seq<(Happening, Time)>, from: Time, until: Time,
                                           key: IdCaches.Key)
    requires Runs(net, run, from, until) && NoRepeats(net, run, from, until, key) && Settled(net, key, until, from)
    requires from <= until
    ensures FloodArrivals(net, run, from, until, key) + Potential(End(net, run, from, until), key)
            <= Potential(net, key)
    ensures Settled(End(net, run, from, until), key, until, until)
    decreases |run|
  {
    hide Happen, CanHappen, NoRepeat, Hits, Potential, Settled;
    if run == [] {
      SettledLater(net, key, until, from, until);
    } else {
      var x, now := run[0].0, run[0].1;
      SettledLater(net, key, until, from, now);
      HappenPotential(net, x, now, key, until);
      FloodTerminates(Happen(net, x, now), run[1..], now, until, key);
    }
  }

  // ---------------------------------------------------------------------
  // Each node sends a request at most once

  lemma LocalSpent(s: Node, e: Event, key: IdCaches.Key, h: Time, now: Time)
    requires !e.Receipt? && |s.ifaces| == 1 && now <= h <= now + s.cfg.idLifetime
    requires Knows(s, key, h) || Unaware(s, key)
    requires Unaware(s, key) || !WouldIssue(s, key)
    ensures Spent(Apply(s, e, now), key) <= Spent(s, key)
  {
    hide Apply, InFlood, Knows, Unaware, WouldIssue;
    var s' := Apply(s, e, now);
    LocalFlood(s, e, key, h, now);
    var sends := s'.log.sent[|s.log.sent|..];
    assert s'.log.sent == s.log.sent + sends;
    assert forall j :: 0 <= j < |sends| ==> sends[j] == s'.log.sent[|s.log.sent| + j];
    SendingsAppend(s.log.sent, sends, key);
    LastOnly(sends, key);
  }

  lemma HappenSpent(net: Net, x: Happening, now: Time, key: IdCaches.Key, h: Time, a: Addr)
    requires Settled(net, key, h, now) && CanHappen(net, x) && NoRepeat(net, x, key) && now <= h && a in net.nodes
    ensures var net' := Happen(net, x, now);
            a in net'.nodes && Spent(net'.nodes[a], key) <= Spent(net.nodes[a], key)
  {
    hide Settled, Spent, AllCopies, Receive, Apply, WouldIssue, Unaware, Knows;
    SettledAt(net, key, h, now, a);
    match x
    case Arrival(i) =>
      if net.flight[i].to == a {
        var p, s := net.flight[i], net.nodes[a];
        SpentStep(s, p.msg, p.ttl, p.sender, s.ifaces[0], key, h, now);
      }
    case Loss(i) =>
    case Local(b, e) =>
      if a == b { LocalSpent(net.nodes[a], e, key, h, now); }
  }

  lemma {:induction false} SpentInRun(net: Net, run: seq<(Happening, Time)>, from: Time, until: Time,
                                      key: IdCaches.Key, a: Addr)
    requires Runs(net, run, from, until) && NoRepeats(net, run, from, until, key) && Settled(net, key, until, from)
    requires from <= until && a in net.nodes
    ensures a in End(net, run, from, until).nodes
    ensures Spent(End(net, run, from, until).nodes[a], key) <= Spent(net.nodes[a], key)
    decreases |run|
  {
    hide Settled, Spent, Happen, CanHappen, NoRepeat, Potential;
    if run != [] {
      var x, now := run[0].0, run[0].1;
      SettledLater(net, key, until, from, now);
      HappenPotential(net, x, now, key, until);
      HappenSpent(net, x, now, key, until, a);
      SpentInRun(Happen(net, x, now), run[1..], now, until, key, a);
    }
  }

  /** While duplicate records live, a node sends a request that it had not heard
      of at most once, its own included, and one that it had heard of never again. */
  lemma SentOnce(net: Net, run: seq<(Happening, Time)>, from: Time, until: Time, key: IdCaches.Key, a: Addr)
    requires Runs(net, run, from, until) && NoRepeats(net, run, from, until, key) && Settled(net, key, until, from)
    requires from <= until && a in net.nodes
    ensures a in End(net, run, from, until).nodes
    ensures Sendings(End(net, run, from, until).nodes[a].log.sent, key)
            <= Sendings(net.nodes[a].log.sent, key) + if Unaware(net.nodes[a], key) then 1 else 0
  {
    hide Runs, NoRepeats, End, Sendings, Unaware, Settled;
    SpentInRun(net, run, from, until, key, a);
  }

  // ---------------------------------------------------------------------
  // The ring

  /** Nobody starts the flood again: it is on its way already. */
  ghost predicate Launched(net: Net, run: seq<(Happening, Time)>, from: Time, until: Time, key: IdCaches.Key)
    requires Runs(net, run, from, until)
    decreases |run|
  {
    run != [] ==>
      && (run[0].0.Local? ==> !WouldIssue(net.nodes[run[0].0.at], key))
      && Launched(Happen(net, run[0].0, run[0].1), run[1..], run[0].1, until, key)
  }

  lemma HappenOnRing(net: Net, x: Happening, now: Time, key: IdCaches.Key, h: Time, ring: U8)
    requires Settled(net, key, h, now) && CanHappen(net, x) && now <= h && OnRing(net.flight, key, ring)
    requires x.Local? ==> !WouldIssue(net.nodes[x.at], key)
    ensures OnRing(Happen(net, x, now).flight, key, ring)
  {
    hide Deliver, Apply, WouldIssue, AllCopies, Unaware, Knows, InFlood;
    match x
    case Arrival(i) => OnRingStep(net, i, now, key, h, ring);
    case Loss(i) =>
    case Local(a, e) =>
      SettledAt(net, key, h, now, a);
      var s, s' := net.nodes[a], Apply(net.nodes[a], e, now);
      LocalFlood(s, e, key, h, now);
      var sends := NewSends(s, s');
      assert forall j :: 0 <= j < |sends| ==> sends[j] == s'.log.sent[|s.log.sent| + j];
      AllCopiesMembers(net, a, sends);
      assert forall p :: p in AllCopies(net, a, sends) ==> !InFlood(p.msg, key);
  }

  /** While duplicate records live, every copy in flight keeps the originating
      TTL as the sum of its hop count and its TTL. */
  lemma {:induction false} HopCountPlusTtl(net: Net, run: seq<(Happening, Time)>, from: Time, until: Time,
                                           key: IdCaches.Key, ring: U8)
    requires Runs(net, run, from, until) && NoRepeats(net, run, from, until, key) && Settled(net, key, until, from)
    requires from <= until
    requires Launched(net, run, from, until, key) && OnRing(net.flight, key, ring)
    ensures OnRing(End(net, run, from, until).flight, key, ring)
    decreases |run|
  {
    hide Settled, OnRing, Happen, CanHappen, NoRepeat, WouldIssue, Potential;
    if run != [] {
      var x, now := run[0].0, run[0].1;
      SettledLater(net, key, until, from, now);
      HappenPotential(net, x, now, key, until);
      HappenOnRing(net, x, now, key, until, ring);
      HopCountPlusTtl(Happen(net, x, now), run[1..], now, until, key, ring);
    }
  }

  // ---------------------------------------------------------------------
  // Recorded hop counts

  /** No reply installs a forward route to `o`, nobody else asks for `o`, and
      `o` itself starts no request with a larger TTL than `ring`. */
  ghost predicate KeepsRing(net: Net, x: Happening, now: Time, o: Addr, ring: U8) {
    match x
    case Arrival(i) => i < |net.flight| ==> NotAbout(net.flight[i].msg, o)
    case Loss(i) => true
    case Local(a, e) =>
      a in net.nodes ==>
        if a == o then
          var s := net.nodes[a];
          forall m :: m in NewSends(s, Apply(s, e, now)) && m.msg.RREQ? ==> 1 <= m.ttl <= ring
        else !AsksFor(e, o)
  }

  ghost predicate KeepRing(net: Net, run: seq<(Happening, Time)>, from: Time, until: Time, o: Addr, ring: U8)
    requires Runs(net, run, from, until)
    decreases |run|
  {
    run != [] ==>
      && KeepsRing(net, run[0].0, run[0].1, o, ring)
      && KeepRing(Happen(net, run[0].0, run[0].1), run[1..], run[0].1, until, o, ring)
  }

  /** What a node's own event puts on the air: no request of another node. */
  lemma LocalContained(net: Net, a: Addr, e: Event, now: Time, o: Addr, ring: U8)
    requires WellFormed(net) && CanHappen(net, Local(a, e)) && KeepsRing(net, Local(a, e), now, o, ring)
    ensures Contained(AllCopies(net, a, NewSends(net.nodes[a], Apply(net.nodes[a], e, now))), o, ring)
  {
    hide Apply, AllCopies, AsksFor;
    var s, s' := net.nodes[a], Apply(net.nodes[a], e, now);
    EventIssues(s, e, now);
    var sends := NewSends(s, s');
    forall j | 0 <= j < |sends| && IsRequestOf(sends[j].msg, o)
      ensures sends[j].ttl >= 1 && sends[j].msg.rreq.hopCount + sends[j].ttl <= ring
    {
      assert sends[j] == s'.log.sent[|s.log.sent| + j] && sends[j] in sends;
      assert s.IsMyOwnAddress(o);
    }
    AllCopiesMembers(net, a, sends);
  }

  lemma LocalWithin(s: Node, e: Event, now: Time, o: Addr, ring: U8)
    requires TableOk(s.table) && WithinAt(s.table, o, ring) && o != NO_ADDR && ring >= 1 && !e.Receipt?
    requires !AsksFor(e, o)
    ensures WithinAt(Apply(s, e, now).table, o, ring)
  {
    hide Apply, TableOk, AsksFor;
    EventSpares(s, e, now);
    SubjectsOf(e, o);
    assert Calm(s.table, Apply(s, e, now).table, o);
  }

  lemma LocalIfaces(s: Node, e: Event, now: Time)
    requires TableOk(s.table)
    ensures Apply(s, e, now).ifaces == s.ifaces && TableOk(Apply(s, e, now).table)
  {
    hide Apply, TableOk;
    StepTableOk(s, e, now);
    StepIfaces(s, e, now);
  }

  lemma StepIfaces(s: Node, e: Event, now: Time)
    ensures Apply(s, e, now).ifaces == s.ifaces
  {
    hide Receive, RouteRequestTimerExpire, PurgeNeighbors, RouteOutput, Forwarding, RecvRequest, RouteToNeighbor,
         DeliverLocally, DeferredRouteOutput, SendRequest, CloseNeighbors, HelloTimerExpire, Accepts, Recorded,
         ProcessRequest;
    if e.Receipt? && e.msg.Some? && e.msg.value.RREQ? {
      RequestIfaces(s, e.msg.value.rreq, e.ttl, e.sender, e.rcv, now);
    } else {
      EventIssues(s, e, now);
    }
  }

  lemma HappenWithin(net: Net, x: Happening, now: Time, o: Addr, ring: U8)
    requires WellFormed(net) && CanHappen(net, x) && KeepsRing(net, x, now, o, ring) && o != NO_ADDR && ring >= 1
    requires Contained(net.flight, o, ring) && Within(net, o, ring)
    ensures var net' := Happen(net, x, now);
            WellFormed(net') && Contained(net'.flight, o, ring) && Within(net', o, ring)
  {
    hide Apply, AllCopies, TableOk, Receive, WithinAt, NotAbout, AsksFor;
    match x
    case Arrival(i) =>
      hide Deliver;
      RingStep(net, i, now, o, ring);
      DeliverWellFormed(net, i, now, o, ring);
    case Loss(i) =>
    case Local(a, e) =>
      LocalContained(net, a, e, now, o, ring);
      LocalIfaces(net.nodes[a], e, now);
      if a != o { LocalWithin(net.nodes[a], e, now, o, ring); }
  }

  lemma DeliverWellFormed(net: Net, i: nat, now: Time, o: Addr, ring: U8)
    requires WellFormed(net) && CanDeliver(net, i) && Within(net, o, ring)
    ensures WellFormed(Deliver(net, i, now))
  {
    hide Receive, AllCopies, TableOk, WithinAt;
    var p := net.flight[i];
    var s := net.nodes[p.to];
    LocalIfaces(s, Receipt(Some(p.msg), p.ttl, p.sender, s.ifaces[0]), now);
  }

  /** No node ever records a reverse route to `o` longer than the largest TTL of
      its requests, whatever else happens, apart from replies that install
      forward routes to `o` and searches for `o`. */
  lemma {:induction false} RingBound(net: Net, run: seq<(Happening, Time)>, from: Time, until: Time, o: Addr, ring: U8)
    requires Runs(net, run, from, until) && KeepRing(net, run, from, until, o, ring) && o != NO_ADDR && ring >= 1
    requires WellFormed(net) && Contained(net.flight, o, ring) && Within(net, o, ring)
    ensures Within(End(net, run, from, until), o, ring)
    decreases |run|
  {
    hide Contained, Within, Happen, CanHappen, KeepsRing, WellFormed;
    if run != [] {
      var x, now := run[0].0, run[0].1;
      HappenWithin(net, x, now, o, ring);
      RingBound(Happen(net, x, now), run[1..], now, until, o, ring);
    }
  }
}
