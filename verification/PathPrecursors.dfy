/** The precursors that a discovery leaves along the route it finds: every node
    on the way lists the one before it. */
module PathPrecursors {
  import opened Base
  import opened Messages
  import opened RouteTable
  import opened NodeState
  import opened LinkBreak
  import opened Routes
  import opened NodeEvents
  import opened Emissions
  import opened Frames
  import opened LoopFreedom
  import opened Network
  import opened Flood
  import opened SteadyNode
  import opened ReplyDelivery
  import opened ReplyRuns
  import opened Precursors

  // ---------------------------------------------------------------------
  // One node

  /** Passing a reply on, when nothing expires, makes the next hop towards the
      originator a precursor of the route to the destination. */
  lemma ForwardJoins(s: Node, h: Rrep, hop: U8, ttl: U8, iface: Iface, until: Time, now: Time)
    requires Steady(s.table, iface, until, {}) && now <= until
    requires h.origin in s.table && h.dst in s.table && h.dst != h.origin && h.origin != LOOPBACK && h.dst != NO_ADDR
    ensures var t' := ForwardReply(s, h, hop, ttl, now).table;
            h.dst in t' && s.table[h.origin].route.nextHop in t'[h.dst].info.precursors
  {
    hide Purge, Update, ConnectPrecursors, Steady, Extended, ForwardReply, TableOk, Joins;
    var bad := s.cfg.badLinkLifetime;
    SteadyPurge(s.table, iface, until, {}, now, bad);
    SteadyEntry(s.table, iface, until, {}, h.origin);
    var e := Extended(s.cfg, s.table[h.origin], now);
    var t := Update(s.table, e);
    ExtendSteady(s.cfg, s.table, h.origin, iface, until, now);
    SteadyPurge(t, iface, until, {}, now, bad);
    SteadyEntry(t, iface, until, {}, h.dst);
    SteadyOk(t, iface, until, {});
    ForwardUnfolds(s, h, hop, ttl, now);
    EntryAt(t, h.origin);
    ConnectExactly(t, h.dst, e, h.dst, now);
    JoinsDst(h.dst, h.origin, t[h.dst].route.nextHop, e.route.nextHop);
    assert e.route.nextHop in ListedAt(ConnectPrecursors(t, h.dst, e, now), h.dst);
  }

  lemma JoinsDst(d: Addr, o: Addr, x: Addr, y: Addr)
    ensures Joins(d, o, x, y, d, y)
  {
  }

  lemma PassJoins(s: Node, h: Rrep, ttl: U8, sender: Addr, rcv: Iface, until: Time, life: Time, now: Time)
    requires Calmly(s, rcv, until, {}) && now <= until <= now + life
    requires FromMilliseconds(h.lifeTime) >= life && s.cfg.activeRouteTimeout >= life
    requires !h.ackRequired && h.dst != h.origin && rcv.local != h.origin && h.hopCount <= 254
    requires h.origin in s.table && h.origin != LOOPBACK && h.dst !in s.table
    requires h.origin != sender && sender != NO_ADDR && h.dst != NO_ADDR
    ensures var t' := Receive(s, Some(RREP(h)), ttl, sender, rcv, now).table;
            h.dst in t' && s.table[h.origin].route.nextHop in t'[h.dst].info.precursors
  {
    hide Purge, RecvReply, Steady, RouteToNeighbor, LearnFromReply, ForwardReply, FromMilliseconds, Meets;
    var s1, hop := Met(s, sender, rcv, now), Wrap8(h.hopCount + 1);
    MetSteady(s, sender, rcv, until, {}, now);
    MetEntry(s, sender, rcv, until, {}, now, h.dst);
    MetEntry(s, sender, rcv, until, {}, now, h.origin);
    PassedUnfolds(s1, h, ttl, sender, rcv, now);
    LearnReplySteady(s1, h, hop, sender, rcv, until, {}, now);
    ForwardJoins(LearnFromReply(s1, h, hop, sender, rcv, now), h, hop, ttl, rcv, until, now);
  }

  // ---------------------------------------------------------------------
  // The network

  /** `via` has a route to the destination that lists `a`, and one to `a`. */
  ghost predicate Lists(net: Net, q: Quest, via: Addr, a: Addr) {
    && via in net.nodes && q.d in net.nodes[via].table && a in net.nodes[via].table
    && a in net.nodes[via].table[q.d].info.precursors
  }

  /** The node routes to the destination over another node. */
  ghost predicate RoutesOver(net: Net, q: Quest, a: Addr) {
    (HasRoute(net, q, a) || (a == q.o && a in net.nodes && q.d in net.nodes[a].table && !Waiting(net, q)))
    && net.nodes[a].table[q.d].route.nextHop != q.d
  }

  /** Whoever routes over a node is listed there, and so is whom the reply goes to. */
  ghost predicate Linked(net: Net, q: Quest) {
    && (forall a :: RoutesOver(net, q, a) ==>
          && Lists(net, q, net.nodes[a].table[q.d].route.nextHop, a)
          && net.nodes[a].table[q.d].route.nextHop in net.nodes[a].table)
    && (forall p :: p in net.flight && p.msg.RREP? && p.sender != q.d ==> Lists(net, q, p.sender, p.to))
  }

  /** What is known of the destination at `x` stays as it is, and no route is lost. */
  ghost predicate Spared(net: Net, net': Net, q: Quest, x: Addr) {
    && x in net.nodes && x in net'.nodes && net'.nodes == net.nodes[x := net'.nodes[x]]
    && (x != q.d ==> Get(net'.nodes[x].table, q.d) == Get(net.nodes[x].table, q.d))
    && (forall k :: k in net.nodes[x].table ==> k in net'.nodes[x].table)
  }

  lemma SparedLinked(net: Net, net': Net, q: Quest, x: Addr)
    requires Linked(net, q) && Spared(net, net', q, x) && q.o != q.d
    requires forall p :: p in net'.flight && p.msg.RREP? ==> p in net.flight || p.sender == q.d
    ensures Linked(net', q)
  {
    forall a | RoutesOver(net', q, a)
      ensures Lists(net', q, net'.nodes[a].table[q.d].route.nextHop, a)
      ensures net'.nodes[a].table[q.d].route.nextHop in net'.nodes[a].table
    {
      assert RoutesOver(net, q, a);
    }
    forall p | p in net'.flight && p.msg.RREP? && p.sender != q.d ensures Lists(net', q, p.sender, p.to) {
      assert Lists(net, q, p.sender, p.to);
    }
  }

  lemma RestIn(net: Net, i: nat)
    requires i < |net.flight|
    ensures forall p :: p in Rest(net, i) ==> p in net.flight
  {
  }

  lemma RepeatLinked(net: Net, q: Quest, depth: map<Addr, int>, i: nat, now: Time)
    requires Full(net, q, depth) && Linked(net, q) && i < |net.flight| && Timely(q, now) && CanDeliver(net, i)
    requires net.flight[i].msg.RREQ? && Aware(net, q, net.flight[i].to)
    ensures Linked(Deliver(net, i, now), q)
  {
    hide Linked, Full, Receive, Calmly, Meets, Aware, Lasting, Knows, Unaware;
    var p := net.flight[i];
    var x, s, net' := p.to, net.nodes[p.to], Deliver(net, i, now);
    FullInv(net, q, depth);
    RepeatStep(net, q, depth, i, now);
    RestIn(net, i);
    RequestFacts(net, q, depth, i);
    HearAgain(s, p.msg.rreq, p.ttl, p.sender, s.ifaces[0], q.until, Sought(q, x), now);
    MeetsAllKeys(s.table, net'.nodes[x].table, p.sender);
    SparedLinked(net, net', q, x);
  }

  lemma MeetsAllKeys(t: Table, t': Table, sender: Addr)
    requires Meets(t, t', sender, {})
    ensures forall k :: k in t ==> k in t'
  {
  }

  lemma FullInv(net: Net, q: Quest, depth: map<Addr, int>)
    requires Full(net, q, depth)
    ensures ReplyDelivery.Inv(net, q, depth) && q.o != q.d
  {
    hide Good, Depths, ForwardRoutes, Flying, Answers, Levels, Covered, Lasting;
  }

  lemma RequestFacts(net: Net, q: Quest, depth: map<Addr, int>, i: nat)
    requires Full(net, q, depth) && i < |net.flight| && net.flight[i].msg.RREQ? && CanDeliver(net, i)
    ensures var p := net.flight[i]; var s := net.nodes[p.to];
            && s.ifaces != [] && p.sender != q.d && p.sender != NO_ADDR
               && Calmly(s, s.ifaces[0], q.until, Sought(q, p.to))
            && (Aware(net, q, p.to) ==> Knows(s, KeyOf(p.msg.rreq), q.until)) && s.cfg.activeRouteTimeout >= q.life
  {
    hide Depths, ForwardRoutes, Answers, Levels, Covered, Steady, OpenUntil;
    var p := net.flight[i];
    assert PacketOk(net, q, depth, p);
    assert GoodNode(net.nodes[p.to], q, Sought(q, p.to));
  }

  lemma FirstLinked(net: Net, q: Quest, depth: map<Addr, int>, i: nat, now: Time)
    requires Full(net, q, depth) && Linked(net, q) && i < |net.flight| && Timely(q, now) && CanDeliver(net, i)
    requires net.flight[i].msg.RREQ? && !Aware(net, q, net.flight[i].to)
    ensures Linked(Deliver(net, i, now), q)
  {
    hide Linked, Full, Deliver, CanDeliver, Aware, Spared, FirstSends;
    var p, net' := net.flight[i], Deliver(net, i, now);
    FullInv(net, q, depth);
    FirstStep(net, q, depth, i, now);
    FirstSpared(net, net', q, depth, p);
    RestIn(net, i);
    var sends := FirstSends(net, net', q, p);
    AllCopiesMembers(net, p.to, sends);
    FirstReplies(net, net', q, p);
    forall r | r in AllCopies(net, p.to, sends) && r.msg.RREP? ensures r.sender == q.d {
      var j :| 0 <= j < |sends| && sends[j].msg == r.msg && sends[j].ttl == r.ttl;
    }
    SparedLinked(net, net', q, p.to);
  }

  lemma FirstReplies(net: Net, net': Net, q: Quest, p: Packet)
    requires p.to in net.nodes && p.to in net'.nodes && net.nodes[p.to].ifaces != [] && q.o in net'.nodes[p.to].table
    requires p.msg.RREQ? && p.msg.rreq.hopCount <= 254
    ensures forall j :: 0 <= j < |FirstSends(net, net', q, p)| && FirstSends(net, net', q, p)[j].msg.RREP? ==>
            p.to == q.d
  {
    hide ToMilliseconds;
  }

  lemma FirstSpared(net: Net, net': Net, q: Quest, depth: map<Addr, int>, p: Packet)
    requires Full(net, q, depth) && FirstHeard(net, net', q, p) && !Aware(net, q, p.to)
    ensures Spared(net, net', q, p.to)
  {
    hide Flying, Answers, Levels, Covered, Frame, GoodNode, Aware, Via;
    UnawareAt(net, q, depth, p.to);
  }

  /** The node that passes the reply on lists the node to which it goes. */
  lemma PassLinked(net: Net, q: Quest, depth: map<Addr, int>, i: nat, now: Time)
    requires Full(net, q, depth) && Linked(net, q) && i < |net.flight| && Timely(q, now) && CanDeliver(net, i)
    requires net.flight[i].msg.RREP? && net.flight[i].to != q.o
    ensures Linked(Deliver(net, i, now), q)
  {
    hide Linked, Full, Deliver, Aware, Replied, ReplyOk, CanDeliver, ReplyDelivery.Inv, Rest, Work, Lists;
    var p, net' := net.flight[i], Deliver(net, i, now);
    FullInv(net, q, depth);
    var r := PassStep(net, q, depth, i, now);
    PassListed(net, q, depth, i, now);
    PassUnrouted(net, q, depth, i);
    OnlyThis(net, q, depth, i, r);
    PassSent(net, q, depth, i, r, now);
    PassedLinked(net, net', q, p, r);
  }

  lemma OnlyThis(net: Net, q: Quest, depth: map<Addr, int>, i: nat, r: Packet)
    requires Full(net, q, depth) && i < |net.flight| && net.flight[i].msg.RREP?
    ensures forall c :: c in Rest(net, i) + [r] && c.msg.RREP? ==> c == r
  {
    hide Frame, Good, Depths, ForwardRoutes, Flying, Levels, Covered, Rest;
    OneReply(net, q, i);
    FilterMembers(IsReply(), Rest(net, i));
    assert forall c :: c in Rest(net, i) && c.msg.RREP? ==> c in Filter(IsReply(), Rest(net, i));
  }

  lemma PassUnrouted(net: Net, q: Quest, depth: map<Addr, int>, i: nat)
    requires Full(net, q, depth) && i < |net.flight| && CanDeliver(net, i)
    requires net.flight[i].msg.RREP? && net.flight[i].to != q.o
    ensures var p := net.flight[i]; p.to in net.nodes && q.o in net.nodes[p.to].table && q.d !in net.nodes[p.to].table
  {
    hide Full, Calmly, FromMilliseconds;
    PassFacts(net, q, depth, i);
  }

  lemma PassListed(net: Net, q: Quest, depth: map<Addr, int>, i: nat, now: Time)
    requires Full(net, q, depth) && i < |net.flight| && Timely(q, now) && CanDeliver(net, i)
    requires net.flight[i].msg.RREP? && net.flight[i].to != q.o
    ensures var x := net.flight[i].to; var net' := Deliver(net, i, now);
            && x in net.nodes && x in net'.nodes && q.o in net.nodes[x].table && q.d in net'.nodes[x].table
            && net.nodes[x].table[q.o].route.nextHop in net'.nodes[x].table[q.d].info.precursors
  {
    hide Full, Receive, Calmly, FromMilliseconds, AllCopies;
    var p := net.flight[i];
    var s := net.nodes[p.to];
    PassFacts(net, q, depth, i);
    PassJoins(s, p.msg.rrep, p.ttl, p.sender, s.ifaces[0], q.until, q.life, now);
  }

  lemma PassSent(net: Net, q: Quest, depth: map<Addr, int>, i: nat, r: Packet, now: Time)
    requires Full(net, q, depth) && i < |net.flight| && Timely(q, now) && CanDeliver(net, i)
    requires net.flight[i].msg.RREP? && net.flight[i].to != q.o && Deliver(net, i, now).flight == Rest(net, i) + [r]
    ensures var p := net.flight[i];
            p.to in net.nodes && q.o in net.nodes[p.to].table
            && r.sender == p.to && r.to == net.nodes[p.to].table[q.o].route.nextHop && r.to in net.nodes[p.to].table
  {
    hide Good, ForwardRoutes, Answers, Levels, Covered, Deliver, Unaware, HasRoute, GoodNode, Lasting, AllCopies;
    var p := net.flight[i];
    RestFlying(net, q, depth, i);
    ReplyAt(net, q, depth, p);
    ReplyBounds(net, q, depth, p);
    CanDeliverIfaces(net, i);
    PassDelivery(net, q, depth, i, now);
    NextIsNode(net, q, depth, p.to);
    FrameAt(net, q, p.to);
    var m := PassedOn(net.nodes[p.to], q, p.msg.rrep, p.ttl);
    UnicastFlies(net, p.to, m);
    var c := Packet(m.to, p.to, m.msg, m.ttl);
    assert (Rest(net, i) + [r])[|Rest(net, i)|] == (Rest(net, i) + [c])[|Rest(net, i)|];
  }

  lemma PassFacts(net: Net, q: Quest, depth: map<Addr, int>, i: nat)
    requires Full(net, q, depth) && i < |net.flight| && CanDeliver(net, i)
    requires net.flight[i].msg.RREP? && net.flight[i].to != q.o
    ensures var p := net.flight[i]; var s := net.nodes[p.to]; var h := p.msg.rrep;
            && s.ifaces != [] && Calmly(s, s.ifaces[0], q.until, {}) && s.ifaces[0].local != h.origin
            && FromMilliseconds(h.lifeTime) >= q.life && s.cfg.activeRouteTimeout >= q.life
            && h.origin == q.o && h.dst == q.d && !h.ackRequired && h.dst != h.origin && h.hopCount <= 254
            && h.origin in s.table && h.origin != LOOPBACK && h.dst !in s.table
            && h.origin != p.sender && p.sender != NO_ADDR && h.dst != NO_ADDR
  {
    hide Answers, Levels, Covered, Steady, OpenUntil, FromMilliseconds;
    var p := net.flight[i];
    RestFlying(net, q, depth, i);
    ReplyAt(net, q, depth, p);
    assert GoodNode(net.nodes[p.to], q, Sought(q, p.to));
  }

  lemma PassedLinked(net: Net, net': Net, q: Quest, p: Packet, r: Packet)
    requires Linked(net, q) && Replied(net, net', q, p) && p.to in net.nodes && p in net.flight && q.o != q.d
    requires p.to != q.o && q.d !in net.nodes[p.to].table && q.o in net.nodes[p.to].table
    requires q.d in net'.nodes[p.to].table && r.to in net'.nodes[p.to].table[q.d].info.precursors
    requires r.sender == p.to && r.to in net.nodes[p.to].table
    requires forall c :: c in net'.flight && c.msg.RREP? ==> c == r
    ensures Linked(net', q)
  {
    hide GoodNode, Aware;
    forall a | RoutesOver(net', q, a)
      ensures Lists(net', q, net'.nodes[a].table[q.d].route.nextHop, a)
      ensures net'.nodes[a].table[q.d].route.nextHop in net'.nodes[a].table
    {
      if a != p.to {
        assert RoutesOver(net, q, a);
      }
    }
  }

  lemma GetLinked(net: Net, q: Quest, depth: map<Addr, int>, i: nat, now: Time)
    requires Full(net, q, depth) && Linked(net, q) && i < |net.flight| && Timely(q, now) && CanDeliver(net, i)
    requires net.flight[i].msg.RREP? && net.flight[i].to == q.o
    ensures Linked(Deliver(net, i, now), q)
  {
    hide Linked, Full, Deliver, Aware, Lists, Replied, ReplyOk, CanDeliver;
    var p, net' := net.flight[i], Deliver(net, i, now);
    FullInv(net, q, depth);
    GetStep(net, q, depth, i, now);
    OneReply(net, q, i);
    FilterMembers(IsReply(), Rest(net, i));
    assert forall c :: c in Rest(net, i) && c.msg.RREP? ==> c in Filter(IsReply(), Rest(net, i));
    GetFacts(net, q, depth, i);
    GotLinked(net, net', q, p);
  }

  lemma GetFacts(net: Net, q: Quest, depth: map<Addr, int>, i: nat)
    requires Full(net, q, depth) && i < |net.flight| && net.flight[i].msg.RREP? && net.flight[i].to == q.o
    ensures net.flight[i].sender != q.o && q.o in net.nodes && Waiting(net, q)
    ensures forall a :: HasRoute(net, q, a) ==> net.nodes[a].table[q.d].route.nextHop != q.o
  {
    hide Good, Depths, Levels, Covered;
    assert PacketOk(net, q, depth, net.flight[i]);
    OneReply(net, q, i);
    forall a | HasRoute(net, q, a) ensures net.nodes[a].table[q.d].route.nextHop != q.o {
      assert ForwardOk(net, q, a);
    }
  }

  lemma GotLinked(net: Net, net': Net, q: Quest, p: Packet)
    requires Linked(net, q) && Replied(net, net', q, p) && p.to == q.o && q.o in net.nodes && p in net.flight
             && q.o != q.d
    requires Waiting(net, q) && p.sender != q.o
    requires forall a :: HasRoute(net, q, a) ==> net.nodes[a].table[q.d].route.nextHop != q.o
    requires forall c :: c in net'.flight ==> !c.msg.RREP?
    ensures Linked(net', q)
  {
    hide GoodNode, Aware;
    forall a | RoutesOver(net', q, a)
      ensures Lists(net', q, net'.nodes[a].table[q.d].route.nextHop, a)
      ensures net'.nodes[a].table[q.d].route.nextHop in net'.nodes[a].table
    {
      if a != q.o {
        assert HasRoute(net, q, a) && RoutesOver(net, q, a);
      }
    }
  }

  lemma LinkedStep(net: Net, q: Quest, depth: map<Addr, int>, i: nat, now: Time)
    requires Full(net, q, depth) && Linked(net, q) && i < |net.flight| && Timely(q, now) && CanDeliver(net, i)
    ensures Linked(Deliver(net, i, now), q)
  {
    hide Full, Linked, Deliver, Aware, CanDeliver;
    KindAt(net, q, depth, i);
    if net.flight[i].msg.RREP? {
      if net.flight[i].to == q.o { GetLinked(net, q, depth, i, now); } else { PassLinked(net, q, depth, i, now); }
    } else if Aware(net, q, net.flight[i].to) {
      RepeatLinked(net, q, depth, i, now);
    } else {
      FirstLinked(net, q, depth, i, now);
    }
  }

  lemma {:induction false} LinkedRun(net: Net, q: Quest, depth: map<Addr, int>, run: seq<(nat, Time)>, from: Time)
    requires Full(net, q, depth) && Linked(net, q) && Deliveries(net, run, from, q.until) && q.until <= from + q.life
    ensures Linked(After(net, run, from, q.until), q)
    decreases |run|
  {
    hide Full, Linked, Deliver, Work;
    if run != [] {
      var i, now := run[0].0, run[0].1;
      LinkedStep(net, q, depth, i, now);
      var depth1 := FullStep(net, q, depth, i, now);
      LinkedRun(Deliver(net, i, now), q, depth1, run[1..], now);
    }
  }

  lemma StartLinked(net: Net, q: Quest, depth: map<Addr, int>)
    requires Full(net, q, depth) && !Aware(net, q, q.d)
    ensures Linked(net, q)
  {
    hide Frame, Good, Depths, ForwardRoutes, Flying, Levels, Covered, Aware;
    FilterMembers(IsReply(), net.flight);
    assert forall p :: p in net.flight && p.msg.RREP? ==> p in Filter(IsReply(), net.flight);
  }

  /** Two nodes in a row: the second lists the first, and each has a route to the other. */
  ghost predicate ListsBefore(net: Net, a: Addr, b: Addr, d: Addr) {
    && a in net.nodes && b in net.nodes && d in net.nodes[b].table
    && a in net.nodes[b].table && b in net.nodes[a].table && a in net.nodes[b].table[d].info.precursors
  }

  /** Every node of the path but the first and the last lists the one before it. */
  ghost predicate ListedAlong(net: Net, path: seq<Addr>, d: Addr) {
    forall i :: 0 <= i < |path| - 2 ==> ListsBefore(net, path[i], path[i + 1], d)
  }

  lemma LinkedAlong(net: Net, q: Quest, path: seq<Addr>)
    requires Linked(net, q) && LeadsTo(net, path, q.o, q.d)
    ensures ListedAlong(net, path, q.d)
  {
    hide Linked;
    forall i | 0 <= i < |path| - 2 ensures ListsBefore(net, path[i], path[i + 1], q.d) {
      assert path[i + 1] in net.nodes && path[i + 1] != q.d;
      ListedBy(net, q, path[i]);
    }
  }

  lemma ListedBy(net: Net, q: Quest, a: Addr)
    requires Linked(net, q) && RoutesOver(net, q, a)
    ensures Lists(net, q, net.nodes[a].table[q.d].route.nextHop, a)
    ensures net.nodes[a].table[q.d].route.nextHop in net.nodes[a].table
  {
  }

  /** On the route that a discovery finds, every node lists the one before it as a
      precursor of its route to the destination. */
  lemma RouteIsListed(net: Net, q: Quest, start: Time, run: seq<(nat, Time)>) returns (path: seq<Addr>)
    requires Clean(net, q, start) && Deliveries(Launched(net, q, start), run, start, q.until)
    requires Routed(After(Launched(net, q, start), run, start, q.until), q)
    ensures var end := After(Launched(net, q, start), run, start, q.until);
            LeadsTo(end, path, q.o, q.d) && ListedAlong(end, path, q.d)
  {
    hide Launched, Full, Clean, Waiting, Deliver, LeadsTo, Linked, Routed, Aware;
    CleanTime(net, q, start);
    Launch(net, q, start);
    StartLinked(Launched(net, q, start), q, map[]);
    LinkedRun(Launched(net, q, start), q, map[], run, start);
    path := RouteLeadsToDestination(net, q, start, run);
    LinkedAlong(After(Launched(net, q, start), run, start, q.until), q, path);
  }
}
