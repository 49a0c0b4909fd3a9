/** Whole runs of one request of a route discovery, the first or any later one of
    the ring search: from the request to the route. */
module ReplyRuns {
  import opened Base
  import opened Messages
  import opened RouteTable
  import opened NodeState
  import opened Discovery
  import opened NodeEvents
  import opened Network
  import opened Flood
  import opened SteadyNode
  import opened ReplyDelivery
  import IdCaches

  // ---------------------------------------------------------------------
  // The start

  /** `o` is about to send a request for `d`: nothing is in flight, nobody has
      heard of the request, nobody on the way knows a route to `d`, and whatever
      else the nodes know does not expire. */
  ghost predicate Clean(net: Net, q: Quest, now: Time) {
    && Frame(net, q) && net.flight == [] && Timely(q, now) && q.reach >= 1
    && (forall a :: a in net.nodes ==>
          && CleanNode(net.nodes[a], q, Sought(q, a))
          && (a != q.o && a != q.d ==> q.d !in net.nodes[a].table))
    && NextSend(net.nodes[q.o], q)
  }

  /** Nothing that the node knows expires, and its routes are VALID, apart from
      what it may know of a destination that it seeks. */
  ghost predicate CleanNode(s: Node, q: Quest, sought: set<Addr>) {
    && s.ifaces != [] && Calmly(s.(table := s.table - sought), s.ifaces[0], q.until, {}) && Unaware(s, q.Key())
    && forall k :: k in sought && k in s.table ==>
         EntryOk(k, s.table[k]) && s.table[k].info.lifeTime >= q.until && !s.table[k].info.blackList
  }

  /** The next request of the node has the quest's number and TTL, whether it is
      the first one, the first one after a route went down, or one of a search
      that runs already, and its entry lasts. */
  predicate NextSend(s: Node, q: Quest) {
    && !RateLimited(s) && q.id == Wrap32(s.ctr.requestId + 1) && s.cfg.pathDiscoveryTime >= q.life
    && (if q.d in s.table then s.table[q.d].info.flag != VALID && NextTtl(s.cfg, s.table[q.d].info) == q.reach
        else s.cfg.ttlStart == q.reach)
  }

  lemma CleanPurge(s: Node, q: Quest, sought: set<Addr>, now: Time)
    requires CleanNode(s, q, sought) && now <= q.until
    ensures s.Purged(now) == s.table
  {
    hide Unaware, EntryOk;
    var rest := s.table - sought;
    SteadyPurge(rest, s.ifaces[0], q.until, {}, now, s.cfg.badLinkLifetime);
    forall k | k in s.table ensures s.table[k].info.Purge(now, s.cfg.badLinkLifetime) == Some(s.table[k].info) {
      assert k !in sought ==> k in rest && rest[k] == s.table[k];
    }
  }

  function Launched(net: Net, q: Quest, now: Time): Net
    requires q.o in net.nodes
  {
    var s := net.nodes[q.o];
    var s' := SendRequest(s, q.d, now);
    net.(nodes := net.nodes[q.o := s'], flight := AllCopies(net, q.o, NewSends(s, s')))
  }

  /** The originator after its request. */
  lemma LaunchNode(s: Node, q: Quest, now: Time)
    requires |s.ifaces| == 1 && s.ifaces[0].local == q.o != q.d && q.d != NO_ADDR && Timely(q, now)
    requires CleanNode(s, q, {q.d}) && Lasting(s.cfg, q.life, q.reach) && NextSend(s, q)
    ensures var s' := SendRequest(s, q.d, now);
            && GoodNode(s', q, {q.d}) && Knows(s', q.Key(), q.until) && s'.cfg == s.cfg && s'.ifaces == s.ifaces
            && s'.table.Keys == s.table.Keys + {q.d} && s'.table[q.d].info.flag == IN_SEARCH
            && s'.log.sent == s.log.sent +
                 [Sent(RREQ(RequestFor(s, q.d, q.o, now)), q.reach, s.ifaces[0], s.ifaces[0].BroadcastTarget())]
  {
    hide IdCaches.Record, IdCaches.Duplicate, Lasting, Knows, SendRequest, RequestFor, SearchEntry, Steady, NextTtl;
    var s' := SendRequest(s, q.d, now);
    CleanPurge(s, q, {q.d}, now);
    LaunchParts(s, q.d, now);
    LaunchSteady(s, q, now);
    assert s.ifaces[1..] == [];
    LastingIds(s.cfg, q.life, q.reach);
    assert RecordOwn(s.ids, s.ifaces, q.id, s.cfg.idLifetime, now)
        == RecordOwn(IdCaches.Record(s.ids, q.Key(), s.cfg.idLifetime, now), [], q.id, s.cfg.idLifetime, now);
    UnawareIsNew(s, q.Key(), now);
    RecordMembers(s.ids, q.Key(), s.cfg.idLifetime, now);
    KnowsIn(s', q.Key(), IdCaches.UniqueId(q.Key(), s.cfg.idLifetime + now), q.until);
    assert Requests(s, s.ifaces, q.d, q.reach, now)
        == [Sent(RREQ(RequestFor(s, q.d, q.o, now)), q.reach, s.ifaces[0], s.ifaces[0].BroadcastTarget())];
  }

  lemma LaunchParts(s: Node, d: Addr, now: Time)
    requires s.Purged(now) == s.table && !RateLimited(s)
    ensures var s' := SendRequest(s, d, now);
            var e := SearchEntry(s.cfg, s.table, d, now);
            && s'.cfg == s.cfg && s'.ifaces == s.ifaces && s'.neighbors == s.neighbors
            && s'.table == s.table[d := e] && e.info.flag == IN_SEARCH
            && s'.ids == RecordOwn(s.ids, s.ifaces, Wrap32(s.ctr.requestId + 1), s.cfg.idLifetime, now)
            && s'.log.sent == s.log.sent + Requests(s, s.ifaces, d, Wrap8(e.info.hops), now)
  {
    hide Purge, RecordOwn, Requests, RetryDelay, NextTtl;
  }

  lemma LaunchSteady(s: Node, q: Quest, now: Time)
    requires CleanNode(s, q, {q.d}) && q.d != NO_ADDR && NextSend(s, q) && q.until <= now + q.life
    ensures var e := SearchEntry(s.cfg, s.table, q.d, now);
            && Steady(s.table[q.d := e], s.ifaces[0], q.until, {q.d}) && e.info.hops == q.reach
  {
    hide NextTtl;
  }

  lemma KnowsIn(s: Node, key: IdCaches.Key, u: IdCaches.UniqueId, until: Time)
    requires u in s.ids && u.key == key && u.expire >= until
    ensures Knows(s, key, until)
  {
  }

  lemma LastingIds(cfg: Config, life: Time, reach: nat)
    requires Lasting(cfg, life, reach)
    ensures cfg.idLifetime >= life
  {
  }

  // ---------------------------------------------------------------------
  // Coverage

  ghost predicate Coming(flight: seq<Packet>, b: Addr) {
    exists p :: p in flight && p.to == b && p.msg.RREQ?
  }

  /** A node that passes requests on. */
  ghost predicate Relaying(q: Quest, depth: map<Addr, int>, a: Addr) {
    a == q.o || (a in depth && a != q.d && depth[a] < q.reach)
  }

  /** Every neighbour of a node that passes the request on has it, or a copy is on its way. */
  ghost predicate Covered(net: Net, q: Quest, depth: map<Addr, int>) {
    forall a: Addr, b: Addr :: Relaying(q, depth, a) && b in net.nodes && (a, b) in net.links ==>
      Aware(net, q, b) || Coming(net.flight, b)
  }

  ghost predicate Full(net: Net, q: Quest, depth: map<Addr, int>) {
    Inv(net, q, depth) && Levels(depth) && Covered(net, q, depth)
  }

  lemma Launch(net: Net, q: Quest, now: Time)
    requires Clean(net, q, now)
    ensures Full(Launched(net, q, now), q, map[]) && !Aware(Launched(net, q, now), q, q.d)
  {
    hide Knows, Unaware, Lasting, Calmly, SendRequest, GoodNode, RequestFor, RateLimited, Copies, Steady, Clean,
         Frame, Good;
    CleanOriginator(net, q, now);
    CleanTime(net, q, now);
    var s := net.nodes[q.o];
    var net' := Launched(net, q, now);
    LaunchNode(s, q, now);
    var s' := net'.nodes[q.o];
    KnowsNot(s', q.Key(), q.until);
    var m := Sent(RREQ(RequestFor(s, q.d, q.o, now)), q.reach, s.ifaces[0], s.ifaces[0].BroadcastTarget());
    assert NewSends(s, s') == [m];
    LaunchGood(net, net', q, now);
    LaunchFlies(net, net', q, now, m);
    LaunchAware(net, net', q, now);
  }

  /** Only the originator knows of the request, and nobody has a route. */
  lemma LaunchAware(net: Net, net': Net, q: Quest, now: Time)
    requires Clean(net, q, now) && net'.nodes.Keys == net.nodes.Keys
    requires forall a :: a in net.nodes && a != q.o ==> net'.nodes[a] == net.nodes[a]
    requires !Unaware(net'.nodes[q.o], q.Key())
    ensures forall a :: Aware(net', q, a) <==> a == q.o
    ensures forall a :: !HasRoute(net', q, a)
  {
    hide Unaware, Steady, Lasting;
  }

  lemma CleanOriginator(net: Net, q: Quest, now: Time)
    requires Clean(net, q, now)
    ensures q.o in net.nodes && net.flight == []
    ensures var s := net.nodes[q.o];
            && |s.ifaces| == 1 && s.ifaces[0].local == q.o != q.d && q.d != NO_ADDR && Timely(q, now)
            && CleanNode(s, q, {q.d}) && Lasting(s.cfg, q.life, q.reach) && NextSend(s, q)
  {
    hide CleanNode, Lasting, NextSend;
  }

  lemma LaunchGood(net: Net, net': Net, q: Quest, now: Time)
    requires Clean(net, q, now) && net'.nodes.Keys == net.nodes.Keys && net'.links == net.links
    requires forall a :: a in net.nodes && a != q.o ==> net'.nodes[a] == net.nodes[a]
    requires GoodNode(net'.nodes[q.o], q, {q.d})
    requires net'.nodes[q.o].ifaces == net.nodes[q.o].ifaces && net'.nodes[q.o].cfg == net.nodes[q.o].cfg
    ensures Frame(net', q) && Good(net', q)
  {
    hide Lasting, GoodNode, CleanNode, NextSend;
    forall a | a in net.nodes && a != q.o ensures GoodNode(net.nodes[a], q, {}) {
      CleanIsGood(net.nodes[a], q);
    }
  }

  lemma CleanIsGood(s: Node, q: Quest)
    requires CleanNode(s, q, {})
    ensures GoodNode(s, q, {})
  {
    hide Steady, Unaware;
    assert s.table - {} == s.table;
  }

  lemma LaunchFlies(net: Net, net': Net, q: Quest, now: Time, m: Sent)
    requires Clean(net, q, now) && net'.nodes.Keys == net.nodes.Keys && net'.links == net.links
    requires var s := net.nodes[q.o];
             && s.ifaces != []
             && m == Sent(RREQ(RequestFor(s, q.d, q.o, now)), q.reach, s.ifaces[0], s.ifaces[0].BroadcastTarget())
    ensures var c := AllCopies(net, q.o, [m]);
            && Flying(net', q, map[], c) && Filter(IsReply(), c) == []
            && forall b :: b in Neighbors(net, q.o) ==> Coming(c, b)
  {
    hide AllCopies, ReplyOk, IsReply, Frame, Lasting, Unaware;
    FrameQuest(net, q);
    BroadcastFlies(net', q, map[], q.o, m);
    SameCopies(net, net', q.o, m);
    forall b | b in Neighbors(net, q.o) ensures Coming(AllCopies(net, q.o, [m]), b) {
      assert b in Neighbors(net', q.o);
      assert Packet(b, q.o, m.msg, m.ttl) in AllCopies(net, q.o, [m]);
    }
  }

  // ---------------------------------------------------------------------
  // One delivery

  /** How many more deliveries the reply needs at most. */
  ghost function Work(net: Net, q: Quest, depth: map<Addr, int>): int {
    if !Aware(net, q, q.d) then q.reach
    else
      var replies := Filter(IsReply(), net.flight);
      if replies == [] then 0 else Hops(q, depth, replies[0])
  }

  ghost function Hops(q: Quest, depth: map<Addr, int>, r: Packet): int {
    if r.to != q.o && r.to in depth then depth[r.to] + 1 else 1
  }

  lemma RestComing(net: Net, i: nat, b: Addr)
    requires i < |net.flight| && Coming(net.flight, b)
    ensures Coming(Rest(net, i), b) || net.flight[i].to == b
    ensures !net.flight[i].msg.RREQ? ==> Coming(Rest(net, i), b)
  {
    var p :| p in net.flight && p.to == b && p.msg.RREQ?;
    var j :| 0 <= j < |net.flight| && net.flight[j] == p;
    if j < i { assert Rest(net, i)[j] == p; } else if j > i { assert Rest(net, i)[j - 1] == p; }
  }

  /** A delivery that teaches nobody about the request leaves the coverage as it is. */
  lemma CoveredSame(net: Net, net': Net, q: Quest, depth: map<Addr, int>, i: nat, sent: seq<Packet>)
    requires Covered(net, q, depth) && i < |net.flight|
    requires net'.nodes.Keys == net.nodes.Keys && net'.links == net.links && net'.flight == Rest(net, i) + sent
    requires forall a :: Aware(net', q, a) <==> Aware(net, q, a)
    requires net.flight[i].msg.RREQ? ==> Aware(net, q, net.flight[i].to)
    ensures Covered(net', q, depth)
  {
    hide Aware, Coming;
    forall a: Addr, b: Addr | Relaying(q, depth, a) && b in net'.nodes && (a, b) in net'.links
      ensures Aware(net', q, b) || Coming(net'.flight, b)
    {
      if !Aware(net, q, b) {
        RestComing(net, i, b);
        ComingMore(Rest(net, i), sent, b);
      }
    }
  }

  lemma ComingMore(a: seq<Packet>, b: seq<Packet>, x: Addr)
    ensures Coming(a, x) || Coming(b, x) ==> Coming(a + b, x)
  {
  }

  lemma CoveredGrow(net: Net, net': Net, q: Quest, depth: map<Addr, int>, i: nat, k: int, sent: seq<Packet>)
    requires Covered(net, q, depth) && i < |net.flight|
    requires net'.nodes.Keys == net.nodes.Keys && net'.links == net.links && net'.flight == Rest(net, i) + sent
    requires var x := net.flight[i].to;
             && x != q.o && Aware(net', q, x)
             && (forall a :: a != x ==> (Aware(net', q, a) <==> Aware(net, q, a)))
             && (Relaying(q, depth[x := k], x) ==> forall b :: b in Neighbors(net, x) ==> Coming(sent, b))
    ensures Covered(net', q, depth[net.flight[i].to := k])
  {
    hide Aware, Coming;
    var x := net.flight[i].to;
    forall a: Addr, b: Addr | Relaying(q, depth[x := k], a) && b in net'.nodes && (a, b) in net'.links
      ensures Aware(net', q, b) || Coming(net'.flight, b)
    {
      ComingMore(Rest(net, i), sent, b);
      if a == x {
        assert b in Neighbors(net, x);
      } else if !Aware(net', q, b) {
        assert Relaying(q, depth, a);
        RestComing(net, i, b);
      }
    }
  }

  lemma LevelsGrow(q: Quest, depth: map<Addr, int>, p: Packet)
    requires Levels(depth) && RequestOk(q, depth, p) && p.to !in depth
    ensures Levels(depth[p.to := p.msg.rreq.hopCount + 1])
  {
    var depth' := depth[p.to := p.msg.rreq.hopCount + 1];
    forall a | a in depth' && depth'[a] > 1 ensures exists b :: b in depth' && depth'[b] == depth'[a] - 1 {
      if a == p.to {
        assert p.sender in depth' && depth'[p.sender] == depth'[a] - 1;
      } else {
        var b :| b in depth && depth[b] == depth[a] - 1;
        assert b in depth' && depth'[b] == depth[b];
      }
    }
  }

  lemma ReplyInDepth(net: Net, q: Quest, depth: map<Addr, int>)
    requires Flying(net, q, depth, net.flight)
    ensures var replies := Filter(IsReply(), net.flight);
            replies != [] ==>
              replies[0] in net.flight && replies[0].msg.RREP? && (replies[0].to == q.o || replies[0].to in depth)
  {
    FilterMembers(IsReply(), net.flight);
    var replies := Filter(IsReply(), net.flight);
    if replies != [] {
      assert replies[0] in replies;
      assert PacketOk(net, q, depth, replies[0]);
    }
  }

  lemma RepeatFull(net: Net, q: Quest, depth: map<Addr, int>, i: nat, now: Time)
    requires Full(net, q, depth) && i < |net.flight| && Timely(q, now) && CanDeliver(net, i)
    requires net.flight[i].msg.RREQ? && Aware(net, q, net.flight[i].to)
    ensures Full(Deliver(net, i, now), q, depth) && Work(Deliver(net, i, now), q, depth) == Work(net, q, depth)
  {
    hide Inv, Covered, Levels, Receiver, Aware, Hops, AllCopies;
    RepeatStep(net, q, depth, i, now);
    assert Rest(net, i) + [] == Rest(net, i);
    CoveredSame(net, Deliver(net, i, now), q, depth, i, []);
    RepliesStep(net, i, []);
  }

  lemma RelayFull(net: Net, q: Quest, depth: map<Addr, int>, i: nat, now: Time)
    requires Full(net, q, depth) && i < |net.flight| && Timely(q, now) && CanDeliver(net, i)
    requires net.flight[i].msg.RREQ? && !Aware(net, q, net.flight[i].to) && net.flight[i].to != q.d
    ensures var net' := Deliver(net, i, now);
            var depth' := depth[net.flight[i].to := net.flight[i].msg.rreq.hopCount + 1];
            Full(net', q, depth') && Work(net', q, depth') == Work(net, q, depth)
  {
    hide Covered, Levels, Deliver, Aware, AllCopies, Frame, Good, Depths, ForwardRoutes, Flying, Answers, FirstSends,
         CanDeliver, RequestOk, Coming, PacketOk;
    var p := net.flight[i];
    var x := p.to;
    var net' := Deliver(net, i, now);
    RestFlying(net, q, depth, i);
    RequestAt(net, q, depth, p);
    FirstStep(net, q, depth, i, now);
    RelayStep(net, q, depth, i, now);
    CanDeliverIfaces(net, i);
    UnawareAt(net, q, depth, x);
    RelayedFlies(net, net', q, depth, i, now);
    var c := AllCopies(net, x, FirstSends(net, net', q, p));
    if Relaying(q, depth[x := p.msg.rreq.hopCount + 1], x) { RelayedComing(net, x, c); }
    ChangedKeys(net, net', q, x, p.sender);
    AwareElsewhere(net, net', q, x, p.sender);
    CoveredGrow(net, net', q, depth, i, p.msg.rreq.hopCount + 1, c);
    LevelsGrow(q, depth, p);
    RepliesStep(net, i, c);
    ReplyInDepth(net, q, depth);
  }

  lemma ChangedKeys(net: Net, net': Net, q: Quest, x: Addr, sender: Addr)
    requires Changed(net, net', q, x, sender)
    ensures net'.nodes.Keys == net.nodes.Keys && net'.links == net.links
  {
    hide GoodNode;
  }

  lemma RelayedComing(net: Net, x: Addr, c: seq<Packet>)
    requires forall b :: b in Neighbors(net, x) ==> exists p' :: p' in c && p'.to == b && p'.msg.RREQ?
    ensures forall b :: b in Neighbors(net, x) ==> Coming(c, b)
  {
  }

  lemma AnswerFull(net: Net, q: Quest, depth: map<Addr, int>, i: nat, now: Time) returns (r: Packet)
    requires Full(net, q, depth) && i < |net.flight| && Timely(q, now) && CanDeliver(net, i)
    requires net.flight[i].msg.RREQ? && !Aware(net, q, net.flight[i].to) && net.flight[i].to == q.d
    ensures var net' := Deliver(net, i, now);
            var depth' := depth[net.flight[i].to := net.flight[i].msg.rreq.hopCount + 1];
            && Full(net', q, depth') && Work(net', q, depth') <= Work(net, q, depth)
            && r.msg.RREP? && net'.flight == Rest(net, i) + [r] && Work(net', q, depth') <= r.ttl
  {
    hide Covered, Levels, Deliver, Aware, AllCopies, Frame, Good, Depths, ForwardRoutes, Flying, FirstSends,
         CanDeliver, RequestOk, Coming, PacketOk, HasRoute, Waiting;
    var p := net.flight[i];
    var x := p.to;
    var net' := Deliver(net, i, now);
    RestFlying(net, q, depth, i);
    RequestAt(net, q, depth, p);
    RequestDepth(q, depth, p);
    FirstStep(net, q, depth, i, now);
    UnawareAt(net, q, depth, x);
    r := AnswerStep(net, q, depth, i, now);
    ChangedKeys(net, net', q, x, p.sender);
    AwareElsewhere(net, net', q, x, p.sender);
    CoveredGrow(net, net', q, depth, i, p.msg.rreq.hopCount + 1, [r]);
    LevelsGrow(q, depth, p);
    RepliesStep(net, i, [r]);
    assert Filter(IsReply(), [r]) == [r] + Filter(IsReply(), []);
  }

  lemma OnlyReply(net: Net, q: Quest, i: nat)
    requires Answers(net, q) && i < |net.flight| && net.flight[i].msg.RREP?
    ensures Filter(IsReply(), net.flight) == [net.flight[i]]
  {
    hide Aware, Waiting;
    FilterMembers(IsReply(), net.flight);
    assert net.flight[i] in Filter(IsReply(), net.flight);
  }

  lemma RepliedKeys(net: Net, net': Net, q: Quest, p: Packet)
    requires Replied(net, net', q, p)
    ensures net'.nodes.Keys == net.nodes.Keys && net'.links == net.links
    ensures forall a :: Aware(net', q, a) <==> Aware(net, q, a)
  {
    hide GoodNode, Aware, ReverseKept;
  }

  lemma PassFull(net: Net, q: Quest, depth: map<Addr, int>, i: nat, now: Time)
    requires Full(net, q, depth) && i < |net.flight| && Timely(q, now) && CanDeliver(net, i)
    requires net.flight[i].msg.RREP? && net.flight[i].to != q.o
    ensures var net' := Deliver(net, i, now);
            Full(net', q, depth) && Work(net', q, depth) + 1 <= Work(net, q, depth)
  {
    hide Covered, Levels, Deliver, Aware, AllCopies, Frame, Good, Depths, ForwardRoutes, Flying, CanDeliver, Replied,
         Answers;
    var p := net.flight[i];
    var net' := Deliver(net, i, now);
    OnlyReply(net, q, i);
    OneReply(net, q, i);
    var r := PassStep(net, q, depth, i, now);
    RepliedKeys(net, net', q, p);
    CoveredSame(net, net', q, depth, i, [r]);
    RepliesStep(net, i, [r]);
    assert Filter(IsReply(), [r]) == [r] + Filter(IsReply(), []);
    PositiveDepth(net, q, depth, p.to);
  }

  lemma PositiveDepth(net: Net, q: Quest, depth: map<Addr, int>, a: Addr)
    requires Depths(net, q, depth) && a in depth
    ensures 1 <= depth[a] <= q.reach && a in net.nodes && a != q.o && Aware(net, q, a)
  {
    hide Unaware, ReverseOk;
  }

  lemma GetFull(net: Net, q: Quest, depth: map<Addr, int>, i: nat, now: Time)
    requires Full(net, q, depth) && i < |net.flight| && Timely(q, now) && CanDeliver(net, i)
    requires net.flight[i].msg.RREP? && net.flight[i].to == q.o
    ensures var net' := Deliver(net, i, now);
            Full(net', q, depth) && Work(net', q, depth) + 1 <= Work(net, q, depth)
  {
    hide Covered, Levels, Deliver, Aware, AllCopies, Frame, Good, Depths, ForwardRoutes, Flying, CanDeliver, Replied,
         Answers;
    var p := net.flight[i];
    var net' := Deliver(net, i, now);
    OnlyReply(net, q, i);
    OneReply(net, q, i);
    GetStep(net, q, depth, i, now);
    RepliedKeys(net, net', q, p);
    assert Rest(net, i) + [] == Rest(net, i);
    CoveredSame(net, net', q, depth, i, []);
    RepliesStep(net, i, []);
  }

  /** Any delivery: the invariant holds again, and a reply is one hop nearer home. */
  lemma FullStep(net: Net, q: Quest, depth: map<Addr, int>, i: nat, now: Time) returns (depth': map<Addr, int>)
    requires Full(net, q, depth) && i < |net.flight| && Timely(q, now) && CanDeliver(net, i)
    ensures var net' := Deliver(net, i, now);
            && Full(net', q, depth') && Grown(depth, depth')
            && Work(net', q, depth') + (if net.flight[i].msg.RREP? then 1 else 0) <= Work(net, q, depth)
  {
    hide Full, Deliver, Aware, Work, CanDeliver;
    var p := net.flight[i];
    depth' := depth;
    KindAt(net, q, depth, i);
    DepthIsAware(net, q, depth, p.to);
    if p.msg.RREP? {
      if p.to == q.o { GetFull(net, q, depth, i, now); } else { PassFull(net, q, depth, i, now); }
    } else if Aware(net, q, p.to) {
      RepeatFull(net, q, depth, i, now);
    } else {
      depth' := depth[p.to := p.msg.rreq.hopCount + 1];
      if p.to == q.d { var r := AnswerFull(net, q, depth, i, now); } else { RelayFull(net, q, depth, i, now); }
    }
  }

  lemma DepthIsAware(net: Net, q: Quest, depth: map<Addr, int>, a: Addr)
    requires Full(net, q, depth)
    ensures a in depth <==> a != q.o && Aware(net, q, a)
  {
    hide Frame, Good, ForwardRoutes, Answers, Levels, Covered, Flying, Aware, ReverseOk;
  }

  lemma KindAt(net: Net, q: Quest, depth: map<Addr, int>, i: nat)
    requires Full(net, q, depth) && i < |net.flight|
    ensures net.flight[i].msg.RREP? || net.flight[i].msg.RREQ?
  {
    hide Frame, Good, Depths, ForwardRoutes, Answers, Levels, Covered;
    assert PacketOk(net, q, depth, net.flight[i]);
  }

  // ---------------------------------------------------------------------
  // Whole runs

  /** How many deliveries of the run are of replies. */
  ghost function ReplyDeliveries(net: Net, run: seq<(nat, Time)>, from: Time, until: Time): nat
    requires Deliveries(net, run, from, until)
    decreases |run|
  {
    if run == [] then 0
    else (if net.flight[run[0].0].msg.RREP? then 1 else 0)
           + ReplyDeliveries(Deliver(net, run[0].0, run[0].1), run[1..], run[0].1, until)
  }

  lemma {:induction false} RunFull(net: Net, q: Quest, depth: map<Addr, int>, run: seq<(nat, Time)>, from: Time)
    returns (depth': map<Addr, int>)
    requires Full(net, q, depth) && Deliveries(net, run, from, q.until) && q.until <= from + q.life
    ensures Full(After(net, run, from, q.until), q, depth') && Grown(depth, depth')
    ensures Work(After(net, run, from, q.until), q, depth') + ReplyDeliveries(net, run, from, q.until)
            <= Work(net, q, depth)
    decreases |run|
  {
    hide Full, Deliver, Work;
    depth' := depth;
    if run != [] {
      var i, now := run[0].0, run[0].1;
      var depth1 := FullStep(net, q, depth, i, now);
      depth' := RunFull(Deliver(net, i, now), q, depth1, run[1..], now);
    }
  }

  lemma WorkNatural(net: Net, q: Quest, depth: map<Addr, int>)
    requires Full(net, q, depth)
    ensures Work(net, q, depth) >= 0
  {
    hide Frame, Good, ForwardRoutes, Answers, Levels, Covered, Aware, ReverseOk, Flying;
  }

  /** The originator has a valid route to the destination. */
  ghost predicate Routed(net: Net, q: Quest) {
    q.o in net.nodes && IsValidAt(net.nodes[q.o].table, q.d)
  }

  predicate IsValidAt(t: Table, k: Addr) { k in t && t[k].info.flag == VALID }

  lemma RoutedOrWaiting(net: Net, q: Quest, depth: map<Addr, int>)
    requires Full(net, q, depth)
    ensures Routed(net, q) <==> !Waiting(net, q)
    ensures Aware(net, q, q.d) ==> |Filter(IsReply(), net.flight)| == if Routed(net, q) then 0 else 1
  {
    hide Knows, Unaware, Depths, Levels, Covered, Flying, OpenUntil, TableOk, Lasting;
    assert GoodNode(net.nodes[q.o], q, Sought(q, q.o));
  }

  lemma RoutedIsAware(net: Net, q: Quest, depth: map<Addr, int>)
    requires Full(net, q, depth) && !Waiting(net, q)
    ensures Aware(net, q, q.d)
  {
    hide Aware, Frame, Good, Depths, ForwardRoutes, Flying, Levels, Covered, Waiting;
  }

  lemma CleanTime(net: Net, q: Quest, now: Time)
    requires Clean(net, q, now)
    ensures Timely(q, now) && q.o in net.nodes && q.d in net.nodes
    ensures Launched(net, q, now).nodes.Keys == net.nodes.Keys && Launched(net, q, now).links == net.links
  {
    hide SendRequest;
  }

  lemma RunFromLaunch(net: Net, q: Quest, start: Time, run: seq<(nat, Time)>) returns (depth: map<Addr, int>)
    requires Clean(net, q, start) && Deliveries(Launched(net, q, start), run, start, q.until)
    ensures Full(After(Launched(net, q, start), run, start, q.until), q, depth)
    ensures ReplyDeliveries(Launched(net, q, start), run, start, q.until) <= q.reach
  {
    hide Launched, Full, Clean;
    Launch(net, q, start);
    CleanTime(net, q, start);
    var net' := Launched(net, q, start);
    depth := RunFull(net', q, map[], run, start);
    WorkNatural(After(net', run, start, q.until), q, depth);
  }

  // ---------------------------------------------------------------------
  // The results

  /** Once the destination has the request, its reply is not lost: at every
      moment of every run exactly one copy of it is in flight or the originator
      has its route, and over the whole run it is delivered at most as often as
      the request's TTL says. */
  lemma ReplyNeverLost(net: Net, q: Quest, start: Time, run: seq<(nat, Time)>)
    requires Clean(net, q, start) && Deliveries(Launched(net, q, start), run, start, q.until)
    ensures var end := After(Launched(net, q, start), run, start, q.until);
            && (Aware(end, q, q.d) ==> |Filter(IsReply(), end.flight)| == if Routed(end, q) then 0 else 1)
            && (Routed(end, q) ==> Aware(end, q, q.d))
            && ReplyDeliveries(Launched(net, q, start), run, start, q.until) <= q.reach
  {
    hide Launched, Full, Aware, Clean, Routed, Waiting, IsReply, Deliver;
    CleanTime(net, q, start);
    var depth := RunFromLaunch(net, q, start, run);
    var end := After(Launched(net, q, start), run, start, q.until);
    RoutedOrWaiting(end, q, depth);
    if Routed(end, q) { RoutedIsAware(end, q, depth); }
  }

  /** The destination's reply is delivered at most as often as its TTL, the hop
      count of the reverse route, allows: it never runs out of TTL on the way. */
  lemma ReplyWithinItsTtl(net: Net, q: Quest, start: Time, run: seq<(nat, Time)>, i: nat, now: Time,
                          rest: seq<(nat, Time)>)
    returns (r: Packet)
    requires Clean(net, q, start) && Deliveries(Launched(net, q, start), run, start, q.until)
    requires var before := After(Launched(net, q, start), run, start, q.until);
             && CanDeliver(before, i) && before.flight[i].msg.RREQ? && before.flight[i].to == q.d
             && !Aware(before, q, q.d)
             && Timely(q, now) && Deliveries(Deliver(before, i, now), rest, now, q.until)
    ensures var after := Deliver(After(Launched(net, q, start), run, start, q.until), i, now);
            && r.msg.RREP? && Filter(IsReply(), after.flight) == [r]
            && ReplyDeliveries(after, rest, now, q.until) <= r.ttl
  {
    hide Launched, Full, Clean, Deliver, Aware, IsReply, Work;
    CleanTime(net, q, start);
    var depth := RunFromLaunch(net, q, start, run);
    var before := After(Launched(net, q, start), run, start, q.until);
    r := AnswerFull(before, q, depth, i, now);
    var after := Deliver(before, i, now);
    var depth' := depth[q.d := before.flight[i].msg.rreq.hopCount + 1];
    FirstReply(before, after, q, depth', i, r);
    var depth2 := RunFull(after, q, depth', rest, now);
    WorkNatural(After(after, rest, now, q.until), q, depth2);
  }

  lemma FirstReply(before: Net, after: Net, q: Quest, depth: map<Addr, int>, i: nat, r: Packet)
    requires Full(after, q, depth) && i < |before.flight|
    requires r.msg.RREP? && after.flight == Rest(before, i) + [r]
    ensures Filter(IsReply(), after.flight) == [r]
  {
    hide Frame, Good, Depths, ForwardRoutes, Flying, Levels, Covered, Aware, Waiting;
    FilterAppend(IsReply(), Rest(before, i), [r]);
    assert Filter(IsReply(), [r]) == [r] + Filter(IsReply(), []);
  }

  /** `path` goes over links from `a` along the next hops towards `d`, every
      node nearer to it than the one before. */
  ghost predicate LeadsTo(net: Net, path: seq<Addr>, a: Addr, d: Addr) {
    && path != [] && path[0] == a && path[|path| - 1] == d
    && (forall i :: 0 <= i < |path| - 1 ==>
          && path[i] in net.nodes && path[i] != d && d in net.nodes[path[i]].table
          && net.nodes[path[i]].table[d].info.flag == VALID
          && net.nodes[path[i]].table[d].route.nextHop == path[i + 1]
          && (path[i], path[i + 1]) in net.links)
    && (forall i :: 0 <= i < |path| - 2 ==>
          net.nodes[path[i + 1]].table[d].info.hops < net.nodes[path[i]].table[d].info.hops)
  }

  lemma {:induction false} RouteFrom(net: Net, q: Quest, depth: map<Addr, int>, a: Addr) returns (path: seq<Addr>)
    requires Full(net, q, depth) && HasRoute(net, q, a)
    ensures LeadsTo(net, path, a, q.d) && |path| <= net.nodes[a].table[q.d].info.hops + 1
    decreases net.nodes[a].table[q.d].info.hops
  {
    hide Depths, Flying, Answers, Levels, Covered, Frame, Good;
    assert ForwardOk(net, q, a);
    RouteValid(net, q, depth, a);
    var next := net.nodes[a].table[q.d].route.nextHop;
    if next == q.d {
      path := [a, q.d];
    } else {
      var rest := RouteFrom(net, q, depth, next);
      path := [a] + rest;
      LeadsToStep(net, a, rest, next, q.d);
    }
  }

  lemma LeadsToStep(net: Net, a: Addr, rest: seq<Addr>, next: Addr, d: Addr)
    requires LeadsTo(net, rest, next, d) && |rest| >= 2
    requires a in net.nodes && a != d && d in net.nodes[a].table && net.nodes[a].table[d].info.flag == VALID
    requires net.nodes[a].table[d].route.nextHop == next && (a, next) in net.links
    requires net.nodes[next].table[d].info.hops < net.nodes[a].table[d].info.hops
    ensures LeadsTo(net, [a] + rest, a, d)
  {
    var path := [a] + rest;
    forall i | 0 <= i < |path| - 1 ensures
      && path[i] in net.nodes && path[i] != d && d in net.nodes[path[i]].table
      && net.nodes[path[i]].table[d].info.flag == VALID
      && net.nodes[path[i]].table[d].route.nextHop == path[i + 1]
      && (path[i], path[i + 1]) in net.links
    {
      if i > 0 { assert path[i] == rest[i - 1] && path[i + 1] == rest[i]; }
    }
    forall i | 0 <= i < |path| - 2
      ensures net.nodes[path[i + 1]].table[d].info.hops < net.nodes[path[i]].table[d].info.hops
    {
      if i > 0 { assert path[i] == rest[i - 1] && path[i + 1] == rest[i]; }
    }
  }

  lemma RouteValid(net: Net, q: Quest, depth: map<Addr, int>, a: Addr)
    requires Full(net, q, depth) && HasRoute(net, q, a)
    ensures net.nodes[a].table[q.d].info.flag == VALID
  {
    hide Depths, Flying, Answers, Levels, Covered, ForwardRoutes, OpenUntil, TableOk, Knows, Unaware, Lasting;
    assert GoodNode(net.nodes[a], q, Sought(q, a));
  }

  /** The route the originator gets leads to the destination: following next
      hops over existing links, the hop count decreases strictly until it is there. */
  lemma RouteLeadsToDestination(net: Net, q: Quest, start: Time, run: seq<(nat, Time)>) returns (path: seq<Addr>)
    requires Clean(net, q, start) && Deliveries(Launched(net, q, start), run, start, q.until)
    requires Routed(After(Launched(net, q, start), run, start, q.until), q)
    ensures var end := After(Launched(net, q, start), run, start, q.until);
            LeadsTo(end, path, q.o, q.d) && |path| - 1 <= HopsTo(end, q.o, q.d)
  {
    hide Launched, Full, Clean, Waiting, Deliver, LeadsTo;
    CleanTime(net, q, start);
    var depth := RunFromLaunch(net, q, start, run);
    var end := After(Launched(net, q, start), run, start, q.until);
    RoutedOrWaiting(end, q, depth);
    path := RouteFromOriginator(end, q, depth);
  }

  /** The hop count of the route from `a` to `d`, if there is one. */
  function HopsTo(net: Net, a: Addr, d: Addr): int {
    if a in net.nodes && d in net.nodes[a].table then net.nodes[a].table[d].info.hops else 0
  }

  lemma RouteFromOriginator(net: Net, q: Quest, depth: map<Addr, int>) returns (path: seq<Addr>)
    requires Full(net, q, depth) && !Waiting(net, q) && Routed(net, q)
    ensures LeadsTo(net, path, q.o, q.d) && |path| - 1 <= HopsTo(net, q.o, q.d)
  {
    hide Depths, Flying, Answers, Levels, Covered, Good;
    var next := net.nodes[q.o].table[q.d].route.nextHop;
    if next == q.d {
      path := [q.o, q.d];
    } else {
      var rest := RouteFrom(net, q, depth, next);
      path := [q.o] + rest;
      LeadsToStep(net, q.o, rest, next, q.d);
    }
  }

  // ---------------------------------------------------------------------
  // Discovery succeeds

  ghost function UpTo(depth: map<Addr, int>, k: int): set<Addr> {
    set a | a in depth && depth[a] <= k
  }

  lemma {:induction false} DepthAtMostSize(depth: map<Addr, int>, a: Addr)
    requires Levels(depth) && a in depth
    ensures depth[a] <= |UpTo(depth, depth[a])|
    decreases depth[a]
  {
    if depth[a] > 1 {
      var b :| b in depth && depth[b] == depth[a] - 1;
      DepthAtMostSize(depth, b);
      SubsetAtMost(UpTo(depth, depth[b]) + {a}, UpTo(depth, depth[a]));
    } else {
      SubsetAtMost({a}, UpTo(depth, depth[a]));
    }
  }

  /** With a TTL of one less than the number of nodes, everyone who has the
      request passes it on as long as the destination does not have it. */
  lemma EveryoneRelays(net: Net, q: Quest, depth: map<Addr, int>, a: Addr)
    requires Full(net, q, depth) && q.reach >= |net.nodes| - 1 && Aware(net, q, a) && !Aware(net, q, q.d)
    ensures Relaying(q, depth, a)
  {
    hide Flying, Answers, Covered, Good, ForwardRoutes, Unaware, ReverseOk, Levels;
    if a != q.o {
      DepthAtMostSize(depth, a);
      SubsetAtMost(UpTo(depth, depth[a]), net.nodes.Keys - {q.o, q.d});
      assert |net.nodes.Keys - {q.o, q.d}| == |net.nodes.Keys| - |{q.o, q.d}|;
      assert |net.nodes| == |net.nodes.Keys|;
    }
  }

  ghost predicate Connects(net: Net, path: seq<Addr>, a: Addr, d: Addr) {
    && path != [] && path[0] == a && path[|path| - 1] == d
    && (forall i :: 0 <= i < |path| ==> path[i] in net.nodes)
    && (forall i :: 0 <= i < |path| - 1 ==> (path[i], path[i + 1]) in net.links)
  }

  lemma {:induction false} ReachedAlong(net: Net, q: Quest, depth: map<Addr, int>, path: seq<Addr>, i: nat)
    requires Full(net, q, depth) && q.reach >= |net.nodes| - 1 && net.flight == []
    requires Connects(net, path, q.o, q.d) && i < |path|
    ensures Aware(net, q, path[i]) || Aware(net, q, q.d)
    decreases i
  {
    hide Flying, Answers, Frame, Good, ForwardRoutes, Unaware, ReverseOk, Levels, Relaying;
    if i > 0 {
      ReachedAlong(net, q, depth, path, i - 1);
      if !Aware(net, q, q.d) {
        EveryoneRelays(net, q, depth, path[i - 1]);
        assert (path[i - 1], path[i]) in net.links;
        assert !Coming(net.flight, path[i]);
      }
    }
  }

  /** When the TTL is at least the number of nodes less one and some path of links
      joins originator and destination, then once nothing is left in flight the
      originator has a valid route. */
  lemma DiscoverySucceeds(net: Net, q: Quest, start: Time, run: seq<(nat, Time)>, path: seq<Addr>)
    requires Clean(net, q, start) && Deliveries(Launched(net, q, start), run, start, q.until)
    requires q.reach >= |net.nodes| - 1 && Connects(net, path, q.o, q.d)
    requires After(Launched(net, q, start), run, start, q.until).flight == []
    ensures Routed(After(Launched(net, q, start), run, start, q.until), q)
  {
    hide Launched, Full, Clean, Waiting, Deliver, Aware, Routed;
    CleanTime(net, q, start);
    var depth := RunFromLaunch(net, q, start, run);
    var end := After(Launched(net, q, start), run, start, q.until);
    SameShape(Launched(net, q, start), run, start, q.until);
    assert |end.nodes| == |end.nodes.Keys| == |net.nodes.Keys| == |net.nodes|;
    assert Connects(end, path, q.o, q.d);
    ReachedAlong(end, q, depth, path, |path| - 1);
    RoutedOrWaiting(end, q, depth);
  }

  /** Deliveries add no node and no link. */
  lemma {:induction false} SameShape(net: Net, run: seq<(nat, Time)>, from: Time, until: Time)
    requires Deliveries(net, run, from, until)
    ensures After(net, run, from, until).nodes.Keys == net.nodes.Keys && After(net, run, from, until).links == net.links
    decreases |run|
  {
    hide AllCopies, Receiver;
    if run != [] {
      SameShape(Deliver(net, run[0].0, run[0].1), run[1..], run[0].1, until);
    }
  }

  // ---------------------------------------------------------------------
  // Discovery ends

  lemma FullSettled(net: Net, q: Quest, depth: map<Addr, int>, start: Time)
    requires Full(net, q, depth) && q.until <= start + q.life
    ensures Settled(net, q.Key(), q.until, start)
  {
    hide Flying, Answers, ForwardRoutes, Depths, Levels, Covered, Calmly, Knows, Unaware;
    forall a | a in net.nodes ensures q.until <= start + net.nodes[a].cfg.idLifetime {
      LastingIds(net.nodes[a].cfg, q.life, q.reach);
    }
    assert forall a :: a in net.nodes ==> GoodNode(net.nodes[a], q, Sought(q, a));
  }

  lemma FloodOrReply(net: Net, q: Quest, depth: map<Addr, int>, i: nat)
    requires Full(net, q, depth) && i < |net.flight|
    ensures InFlood(net.flight[i].msg, q.Key()) <==> !net.flight[i].msg.RREP?
  {
    hide Frame, Good, Depths, ForwardRoutes, Answers, Levels, Covered;
    assert PacketOk(net, q, depth, net.flight[i]);
  }

  lemma {:induction false} EveryDeliveryCounts(net: Net, q: Quest, depth: map<Addr, int>, run: seq<(nat, Time)>,
                                               from: Time)
    requires Full(net, q, depth) && Deliveries(net, run, from, q.until) && q.until <= from + q.life
    ensures |run| == FloodDeliveries(net, run, from, q.until, q.Key()) + ReplyDeliveries(net, run, from, q.until)
    decreases |run|
  {
    hide Full, Deliver, InFlood;
    if run != [] {
      var i, now := run[0].0, run[0].1;
      FloodOrReply(net, q, depth, i);
      var depth1 := FullStep(net, q, depth, i, now);
      EveryDeliveryCounts(Deliver(net, i, now), q, depth1, run[1..], now);
    }
  }

  /** A whole discovery is a bounded number of deliveries, in whatever order they happen. */
  lemma DiscoveryEnds(net: Net, q: Quest, start: Time, run: seq<(nat, Time)>)
    requires Clean(net, q, start) && Deliveries(Launched(net, q, start), run, start, q.until)
    ensures |run| <= Potential(Launched(net, q, start), q.Key()) + q.reach
  {
    hide Launched, Full, Clean, Deliver, Potential, Settled;
    CleanTime(net, q, start);
    Launch(net, q, start);
    var net' := Launched(net, q, start);
    var depth := RunFromLaunch(net, q, start, run);
    FullSettled(net', q, map[], start);
    FloodTerminates(net', run, start, q.until, q.Key());
    EveryDeliveryCounts(net', q, map[], run, start);
  }

  lemma FullCanDeliver(net: Net, q: Quest, depth: map<Addr, int>, i: nat)
    requires Full(net, q, depth) && i < |net.flight|
    ensures Inv(net, q, depth) && CanDeliver(net, i)
  {
    hide Good, Depths, ForwardRoutes, Answers, Levels, Covered, RequestOk, ReplyOk, Lasting;
    assert PacketOk(net, q, depth, net.flight[i]);
  }
}
