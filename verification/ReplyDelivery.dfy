/** One route discovery in a lossless network with symmetric links, answered by
    the destination only, while nothing expires (section 6.7 of RFC 3561): the
    reply is never dropped, it reaches the originator, and the routes it leaves
    behind lead to the destination. */
module ReplyDelivery {
  import opened Base
  import opened Messages
  import opened RouteTable
  import opened NodeState
  import opened Routes
  import opened NodeEvents
  import opened Emissions
  import opened Network
  import opened Flood
  import opened SteadyNode
  import IdCaches

  /** `o` looks for `d` with the request `id` and the TTL `reach`; until `until`
      nothing expires, as every lifetime is at least `life`. */
  datatype Quest = Quest(o: Addr, d: Addr, id: U32, reach: U8, until: Time, life: Time) {
    function Key(): IdCaches.Key { IdCaches.Key(o, id) }
  }

  /** What a run never changes. */
  ghost predicate Frame(net: Net, q: Quest) {
    && WellFormed(net) && q.o in net.nodes && q.d in net.nodes && q.o != q.d && NO_ADDR !in net.nodes
    && LOOPBACK !in net.nodes
    && (forall a, b :: (a, b) in net.links ==> (b, a) in net.links)
    && (forall a :: a in net.nodes ==>
          net.nodes[a].ifaces[0].BroadcastTarget() !in net.nodes && Lasting(net.nodes[a].cfg, q.life, q.reach))
  }

  ghost predicate GoodNode(s: Node, q: Quest, sought: set<Addr>) {
    && s.ifaces != [] && Calmly(s, s.ifaces[0], q.until, sought)
    && (Knows(s, q.Key(), q.until) || Unaware(s, q.Key()))
  }

  function Sought(q: Quest, a: Addr): set<Addr> { if a == q.o then {q.d} else {} }

  ghost predicate Good(net: Net, q: Quest) {
    forall a :: a in net.nodes ==> GoodNode(net.nodes[a], q, Sought(q, a))
  }

  ghost predicate Aware(net: Net, q: Quest, a: Addr) { a in net.nodes && !Unaware(net.nodes[a], q.Key()) }

  // ---------------------------------------------------------------------
  // Reverse routes: `depth` is the hop count at which a node processed the request

  ghost predicate ReverseOk(net: Net, q: Quest, depth: map<Addr, int>, a: Addr)
    requires a in net.nodes && a in depth
  {
    var t := net.nodes[a].table;
    && q.o in t
    && (a, t[q.o].route.nextHop) in net.links && t[q.o].route.nextHop in t
    && (t[q.o].route.nextHop == q.o || (t[q.o].route.nextHop in depth && depth[t[q.o].route.nextHop] < depth[a]))
  }

  ghost predicate Depths(net: Net, q: Quest, depth: map<Addr, int>) {
    && Aware(net, q, q.o)
    && (forall a :: a in depth <==> a != q.o && Aware(net, q, a))
    && (forall a :: a in depth ==> 1 <= depth[a] <= q.reach && ReverseOk(net, q, depth, a))
  }

  /** No depth is skipped. */
  ghost predicate Levels(depth: map<Addr, int>) {
    forall a :: a in depth && depth[a] > 1 ==> exists b :: b in depth && depth[b] == depth[a] - 1
  }

  // ---------------------------------------------------------------------
  // Forward routes

  /** A node on the way that the reply has passed. */
  ghost predicate HasRoute(net: Net, q: Quest, a: Addr) {
    a in net.nodes && a != q.o && a != q.d && q.d in net.nodes[a].table
  }

  /** The next hop towards the destination is the destination, or a node that is nearer. */
  ghost predicate ForwardOk(net: Net, q: Quest, a: Addr)
    requires a in net.nodes && q.d in net.nodes[a].table
  {
    var e := net.nodes[a].table[q.d];
    && (a, e.route.nextHop) in net.links
    && ((e.route.nextHop == q.d && e.info.hops == 1)
        || (HasRoute(net, q, e.route.nextHop) && net.nodes[e.route.nextHop].table[q.d].info.hops < e.info.hops))
  }

  ghost predicate Waiting(net: Net, q: Quest) {
    q.o in net.nodes && q.d in net.nodes[q.o].table && net.nodes[q.o].table[q.d].info.flag == IN_SEARCH
  }

  ghost predicate ForwardRoutes(net: Net, q: Quest, depth: map<Addr, int>) {
    && q.o in net.nodes && q.d in net.nodes[q.o].table
    && (Waiting(net, q) || ForwardOk(net, q, q.o))
    && (forall a :: HasRoute(net, q, a) ==> a in depth && ForwardOk(net, q, a))
  }

  // ---------------------------------------------------------------------
  // Copies in flight

  /** A request keeps HopCount + TTL, and comes from the originator or from a
      node that processed it. */
  ghost predicate RequestOk(q: Quest, depth: map<Addr, int>, p: Packet) {
    && p.msg.RREQ? && p.msg.rreq.origin == q.o && p.msg.rreq.id == q.id && p.msg.rreq.dst == q.d
    && p.msg.rreq.hopCount + p.ttl == q.reach && p.ttl >= 1 && p.sender != q.d
    && (if p.sender == q.o then p.msg.rreq.hopCount == 0
        else p.sender in depth && depth[p.sender] == p.msg.rreq.hopCount)
  }

  /** A reply has the TTL it needs to come home, and every node that passed it
      on is farther from the originator than the one it goes to. */
  ghost predicate ReplyOk(net: Net, q: Quest, depth: map<Addr, int>, p: Packet) {
    && p.msg.RREP? && p.msg.rrep.origin == q.o && p.msg.rrep.dst == q.d && !p.msg.rrep.ackRequired
    && FromMilliseconds(p.msg.rrep.lifeTime) >= q.life
    && p.msg.rrep.hopCount + p.ttl <= 255 && p.ttl >= 1 && p.sender != q.o
    && (if p.sender == q.d then p.msg.rrep.hopCount == 0
        else HasRoute(net, q, p.sender) && net.nodes[p.sender].table[q.d].info.hops <= p.msg.rrep.hopCount)
    && q.d in depth
    && (p.to != q.o ==>
          && p.to in depth && p.ttl >= depth[p.to] + 1 && depth[p.to] < depth[q.d]
          && (forall z :: z in depth && HasRoute(net, q, z) ==> depth[z] > depth[p.to]))
  }

  ghost predicate PacketOk(net: Net, q: Quest, depth: map<Addr, int>, p: Packet) {
    && p.to in net.nodes && p.sender in net.nodes && (p.sender, p.to) in net.links
    && (RequestOk(q, depth, p) || ReplyOk(net, q, depth, p))
  }

  ghost predicate Flying(net: Net, q: Quest, depth: map<Addr, int>, flight: seq<Packet>) {
    forall p :: p in flight ==> PacketOk(net, q, depth, p)
  }

  function IsReply(): Packet -> bool { (p: Packet) => p.msg.RREP? }

  /** There is no reply before the destination has the request; after that there
      is one until the originator has it. */
  ghost predicate Answers(net: Net, q: Quest) {
    var replies := Filter(IsReply(), net.flight);
    if Aware(net, q, q.d) then |replies| == if Waiting(net, q) then 1 else 0
    else replies == [] && Waiting(net, q) && forall a :: !HasRoute(net, q, a)
  }

  ghost predicate Inv(net: Net, q: Quest, depth: map<Addr, int>) {
    && Frame(net, q) && Good(net, q) && Depths(net, q, depth) && ForwardRoutes(net, q, depth)
    && Flying(net, q, depth, net.flight) && Answers(net, q)
  }

  // ---------------------------------------------------------------------
  // One node changes

  /** `net'` is `net` with another state at `x`, which received from `sender`. */
  ghost predicate Changed(net: Net, net': Net, q: Quest, x: Addr, sender: Addr) {
    && x in net.nodes && x in net'.nodes && net'.nodes == net.nodes[x := net'.nodes[x]] && net'.links == net.links
    && net'.nodes[x].ifaces == net.nodes[x].ifaces && net'.nodes[x].cfg == net.nodes[x].cfg
    && GoodNode(net'.nodes[x], q, Sought(q, x))
    && (x, sender) in net.links
  }

  lemma ChangedFrame(net: Net, net': Net, q: Quest, x: Addr, sender: Addr)
    requires Frame(net, q) && Good(net, q) && Changed(net, net', q, x, sender)
    ensures Frame(net', q) && Good(net', q)
  {
    hide Lasting, GoodNode;
  }

  /** The reverse route at `x` is as before, or goes straight to the originator it just heard. */
  ghost predicate ReverseKept(t: Table, t': Table, o: Addr, sender: Addr) {
    && (o in t ==> o in t' && (t'[o].route.nextHop == t[o].route.nextHop || (sender == o && t'[o].route.nextHop == o)))
    && (forall k :: k in t ==> k in t')
  }

  lemma DepthsSame(net: Net, net': Net, q: Quest, depth: map<Addr, int>, x: Addr, sender: Addr)
    requires Depths(net, q, depth) && Changed(net, net', q, x, sender)
    requires Aware(net', q, x) <==> Aware(net, q, x)
    requires ReverseKept(net.nodes[x].table, net'.nodes[x].table, q.o, sender)
    ensures Depths(net', q, depth)
  {
    hide GoodNode, Unaware;
    forall a | a in depth ensures ReverseOk(net', q, depth, a) {
      assert ReverseOk(net, q, depth, a);
    }
    forall a ensures Aware(net', q, a) <==> Aware(net, q, a) {
      if a != x { assert net'.nodes.Keys == net.nodes.Keys; }
    }
  }

  lemma DepthsGrow(net: Net, net': Net, q: Quest, depth: map<Addr, int>, x: Addr, src: Addr, c: int)
    requires Depths(net, q, depth) && Changed(net, net', q, x, src)
    requires x != q.o && !Aware(net, q, x) && Aware(net', q, x) && 0 <= c < q.reach
    requires q.o in net'.nodes[x].table && net'.nodes[x].table[q.o].route.nextHop == src && src in net'.nodes[x].table
    requires src == q.o || (src in depth && depth[src] == c)
    ensures Depths(net', q, depth[x := c + 1])
  {
    hide GoodNode, Unaware;
    var depth' := depth[x := c + 1];
    forall a ensures Aware(net', q, a) <==> Aware(net, q, a) || a == x {
      if a != x { assert net'.nodes.Keys == net.nodes.Keys; }
    }
    forall a | a in depth' ensures 1 <= depth'[a] <= q.reach && ReverseOk(net', q, depth', a) {
      if a != x { assert ReverseOk(net, q, depth, a); }
    }
  }

  /** Whatever is known about the destination at `x` stays. */
  ghost predicate SameForward(net: Net, net': Net, q: Quest, x: Addr)
    requires x in net.nodes && x in net'.nodes
  {
    var t, t' := net.nodes[x].table, net'.nodes[x].table;
    && (q.d in t <==> q.d in t')
    && (q.d in t ==> t'[q.d].route.nextHop == t[q.d].route.nextHop && t'[q.d].info.hops == t[q.d].info.hops
                     && (x == q.o ==> t'[q.d].info.flag == t[q.d].info.flag))
  }

  ghost predicate Grown(depth: map<Addr, int>, depth': map<Addr, int>) {
    forall a :: a in depth ==> a in depth' && depth'[a] == depth[a]
  }

  lemma ForwardedSame(net: Net, net': Net, q: Quest, depth: map<Addr, int>, depth': map<Addr, int>, x: Addr,
                      sender: Addr)
    requires ForwardRoutes(net, q, depth) && Changed(net, net', q, x, sender)
    requires SameForward(net, net', q, x) && Grown(depth, depth')
    ensures ForwardRoutes(net', q, depth') && (Waiting(net', q) <==> Waiting(net, q))
    ensures forall a :: HasRoute(net', q, a) <==> HasRoute(net, q, a)
  {
    hide GoodNode;
    assert net'.nodes.Keys == net.nodes.Keys;
    forall a | HasRoute(net', q, a) ensures ForwardOk(net', q, a) {
      assert HasRoute(net, q, a) && ForwardOk(net, q, a);
    }
  }

  lemma FlyingSame(net: Net, net': Net, q: Quest, depth: map<Addr, int>, depth': map<Addr, int>, x: Addr, sender: Addr,
                   rest: seq<Packet>)
    requires Flying(net, q, depth, rest) && Changed(net, net', q, x, sender)
    requires SameForward(net, net', q, x) && Grown(depth, depth')
    requires forall a :: HasRoute(net', q, a) <==> HasRoute(net, q, a)
    requires forall a :: HasRoute(net, q, a) ==> a in depth
    ensures Flying(net', q, depth', rest)
  {
    hide GoodNode;
    assert net'.nodes.Keys == net.nodes.Keys;
    forall p | p in rest ensures PacketOk(net', q, depth', p) {
      assert PacketOk(net, q, depth, p);
    }
  }

  /** Requests only depend on who has processed them. */
  lemma RequestsSame(net: Net, net': Net, q: Quest, depth: map<Addr, int>, rest: seq<Packet>)
    requires Flying(net, q, depth, rest) && net'.nodes.Keys == net.nodes.Keys && net'.links == net.links
    requires Filter(IsReply(), rest) == []
    ensures Flying(net', q, depth, rest)
  {
    FilterMembers(IsReply(), rest);
    forall p | p in rest ensures PacketOk(net', q, depth, p) {
      assert PacketOk(net, q, depth, p);
      assert !IsReply()(p);
    }
  }

  lemma RestFlying(net: Net, q: Quest, depth: map<Addr, int>, i: nat)
    requires Flying(net, q, depth, net.flight) && i < |net.flight|
    ensures Flying(net, q, depth, net.flight[..i] + net.flight[i + 1..])
    ensures PacketOk(net, q, depth, net.flight[i])
  {
    hide PacketOk;
  }

  lemma AppendFlying(net: Net, q: Quest, depth: map<Addr, int>, a: seq<Packet>, b: seq<Packet>)
    requires Flying(net, q, depth, a) && Flying(net, q, depth, b)
    ensures Flying(net, q, depth, a + b)
  {
    hide PacketOk;
  }

  /** The replies in flight after a delivery. */
  lemma RepliesStep(net: Net, i: nat, sent: seq<Packet>)
    requires i < |net.flight|
    ensures var rest := net.flight[..i] + net.flight[i + 1..];
            && |Filter(IsReply(), net.flight)| == |Filter(IsReply(), rest)| + (if net.flight[i].msg.RREP? then 1 else 0)
            && (!net.flight[i].msg.RREP? ==> Filter(IsReply(), rest) == Filter(IsReply(), net.flight))
            && Filter(IsReply(), rest + sent) == Filter(IsReply(), rest) + Filter(IsReply(), sent)
  {
    FilterAround(IsReply(), net.flight, i);
    FilterAppend(IsReply(), net.flight[..i] + net.flight[i + 1..], sent);
  }

  // ---------------------------------------------------------------------
  // What is sent

  /** A broadcast request. */
  lemma BroadcastFlies(net: Net, q: Quest, depth: map<Addr, int>, a: Addr, m: Sent)
    requires a in net.nodes && m.to == m.iface.BroadcastTarget()
    requires m.msg.RREQ? && forall b :: RequestOk(q, depth, Packet(b, a, m.msg, m.ttl))
    ensures Flying(net, q, depth, AllCopies(net, a, [m])) && Filter(IsReply(), AllCopies(net, a, [m])) == []
    ensures forall b :: b in Neighbors(net, a) ==> Packet(b, a, m.msg, m.ttl) in AllCopies(net, a, [m])
  {
    hide Copies, RequestOk, ReplyOk;
    CopiesMembers(net, a, m);
    assert AllCopies(net, a, [m]) == Copies(net, a, m) + AllCopies(net, a, []);
    var c := AllCopies(net, a, [m]);
    forall p | p in c ensures PacketOk(net, q, depth, p) {
      assert p == Packet(p.to, a, m.msg, m.ttl);
    }
    FilterNone(IsReply(), c);
  }

  /** A unicast to a neighbour. */
  lemma UnicastFlies(net: Net, a: Addr, m: Sent)
    requires m.to != m.iface.BroadcastTarget() && m.to in net.nodes && (a, m.to) in net.links
    ensures AllCopies(net, a, [m]) == [Packet(m.to, a, m.msg, m.ttl)]
  {
    assert CopiesTo([m.to], a, m) == [Packet(m.to, a, m.msg, m.ttl)];
    assert AllCopies(net, a, [m]) == Copies(net, a, m) + AllCopies(net, a, []);
  }

  // ---------------------------------------------------------------------
  // The four kinds of delivery

  /** The delivery happens while nothing has expired. */
  ghost predicate Timely(q: Quest, now: Time) { now <= q.until <= now + q.life }

  ghost function Rest(net: Net, i: nat): seq<Packet>
    requires i < |net.flight|
  {
    net.flight[..i] + net.flight[i + 1..]
  }

  lemma MeetsReverse(t: Table, t': Table, o: Addr, sender: Addr, about: set<Addr>)
    requires Meets(t, t', sender, about) && o !in about && forall k :: k in about ==> k in t'
    ensures ReverseKept(t, t', o, sender)
  {
  }

  /** A request that the node has seen before. */
  lemma RepeatStep(net: Net, q: Quest, depth: map<Addr, int>, i: nat, now: Time)
    requires Inv(net, q, depth) && i < |net.flight| && Timely(q, now) && CanDeliver(net, i)
    requires net.flight[i].msg.RREQ? && Aware(net, q, net.flight[i].to)
    ensures var net' := Deliver(net, i, now);
            && Inv(net', q, depth) && net'.flight == Rest(net, i)
            && (forall a :: Aware(net', q, a) <==> Aware(net, q, a))
  {
    hide Receive, Calmly, Meets, ReverseOk, Knows, Unaware, Lasting, Flying, PacketOk, ForwardOk, Waiting, HasRoute;
    var p := net.flight[i];
    var x, s := p.to, net.nodes[p.to];
    var net' := Deliver(net, i, now);
    var s' := net'.nodes[x];
    RestFlying(net, q, depth, i);
    RequestAt(net, q, depth, p);
    AwareKnows(net, q, x);
    FrameAt(net, q, x);
    HearAgain(s, p.msg.rreq, p.ttl, p.sender, s.ifaces[0], q.until, Sought(q, x), now);
    assert AllCopies(net, x, []) == [];
    assert NewSends(s, s') == [];
    assert net'.flight == Rest(net, i);
    KnowsNot(s', q.Key(), q.until);
    GoodAfter(s, s', q, Sought(q, x));
    ChangedFrame(net, net', q, x, p.sender);
    MeetsReverse(s.table, s'.table, q.o, p.sender, {});
    DepthsSame(net, net', q, depth, x, p.sender);
    SameGet(net, net', q, x);
    ForwardedSame(net, net', q, depth, depth, x, p.sender);
    FlyingSame(net, net', q, depth, depth, x, p.sender, Rest(net, i));
    RepliesStep(net, i, []);
    AwareElsewhere(net, net', q, x, p.sender);
    AnswersSame(net, net', q);
  }

  lemma GoodAfter(s: Node, s': Node, q: Quest, sought: set<Addr>)
    requires GoodNode(s, q, sought) && Calmly(s', s.ifaces[0], q.until, sought)
    requires Knows(s', q.Key(), q.until) || Unaware(s', q.Key())
    ensures s'.ifaces == s.ifaces && GoodNode(s', q, sought)
  {
  }

  lemma FrameAt(net: Net, q: Quest, a: Addr)
    requires Frame(net, q) && a in net.nodes
    ensures var s := net.nodes[a];
            && s.ifaces[0].local == a != NO_ADDR && s.ifaces[0].BroadcastTarget() !in net.nodes
            && Lasting(s.cfg, q.life, q.reach) && s.cfg.activeRouteTimeout >= q.life
  {
  }

  lemma RequestAt(net: Net, q: Quest, depth: map<Addr, int>, p: Packet)
    requires PacketOk(net, q, depth, p) && p.msg.RREQ?
    ensures RequestOk(q, depth, p) && KeyOf(p.msg.rreq) == q.Key()
    ensures p.sender in net.nodes && (p.sender, p.to) in net.links
  {
  }

  lemma AwareKnows(net: Net, q: Quest, a: Addr)
    requires Good(net, q) && Aware(net, q, a)
    ensures Knows(net.nodes[a], q.Key(), q.until)
  {
  }

  lemma KnowsNot(s: Node, key: IdCaches.Key, until: Time)
    ensures Knows(s, key, until) ==> !Unaware(s, key)
  {
  }

  lemma SameGet(net: Net, net': Net, q: Quest, x: Addr)
    requires x in net.nodes && x in net'.nodes && Get(net'.nodes[x].table, q.d) == Get(net.nodes[x].table, q.d)
    ensures SameForward(net, net', q, x)
  {
  }

  lemma AwareElsewhere(net: Net, net': Net, q: Quest, x: Addr, sender: Addr)
    requires Changed(net, net', q, x, sender)
    ensures forall a :: a != x ==> (Aware(net', q, a) <==> Aware(net, q, a))
  {
    hide Unaware, GoodNode;
    assert net'.nodes.Keys == net.nodes.Keys;
  }

  lemma AnswersSame(net: Net, net': Net, q: Quest)
    requires Answers(net, q) && |Filter(IsReply(), net'.flight)| == |Filter(IsReply(), net.flight)|
    requires Waiting(net', q) <==> Waiting(net, q)
    requires Aware(net', q, q.d) <==> Aware(net, q, q.d)
    requires forall a :: HasRoute(net', q, a) <==> HasRoute(net, q, a)
    ensures Answers(net', q)
  {
    hide Waiting, Aware, HasRoute;
  }

  // First requests

  /** The facts about the receiver that a first request establishes. */
  ghost predicate FirstHeard(net: Net, net': Net, q: Quest, p: Packet) {
    && Changed(net, net', q, p.to, p.sender) && p.msg.RREQ?
    && Aware(net', q, p.to)
    && q.o in net'.nodes[p.to].table
    && Via(net'.nodes[p.to].table[q.o], p.sender, p.msg.rreq.hopCount + 1)
    && net'.nodes[p.to].table[q.o].route.dst == q.o && p.sender in net'.nodes[p.to].table
    && (forall k :: k in net.nodes[p.to].table ==> k in net'.nodes[p.to].table)
    && SameForward(net, net', q, p.to)
  }

  function SendsAt(s: Node, s': Node, q: Quest, x: Addr, h: Rreq, ttl: U8): seq<Sent>
    requires s.ifaces != [] && q.o in s'.table && h.hopCount <= 254
  {
    if x == q.d then
      [Sent(RREP(Rrep(false, 0, h.dst, s'.ctr.seqNo, h.origin, ToMilliseconds(s.cfg.myRouteTimeout))),
            Wrap8(s'.table[q.o].info.hops), s.ifaces[0], s'.table[q.o].route.nextHop)]
    else if ttl >= 2 then
      [Sent(RREQ(h.(hopCount := h.hopCount + 1)), ttl - 1, s.ifaces[0], s.ifaces[0].BroadcastTarget())]
    else []
  }

  function FirstSends(net: Net, net': Net, q: Quest, p: Packet): seq<Sent>
    requires p.to in net.nodes && p.to in net'.nodes && net.nodes[p.to].ifaces != [] && q.o in net'.nodes[p.to].table
    requires p.msg.RREQ? && p.msg.rreq.hopCount <= 254
  {
    SendsAt(net.nodes[p.to], net'.nodes[p.to], q, p.to, p.msg.rreq, p.ttl)
  }

  /** A first request, seen from the node that receives it. */
  lemma FirstReceipt(s: Node, x: Addr, h: Rreq, ttl: U8, src: Addr, q: Quest, now: Time)
    requires GoodNode(s, q, {}) && Timely(q, now) && s.ifaces[0].local == x && Lasting(s.cfg, q.life, q.reach)
    requires h.hopCount < q.reach && KeyOf(h) == q.Key() && h.dst == q.d != q.o && q.o != NO_ADDR && q.o != LOOPBACK
    requires src != NO_ADDR && src != q.d
    requires Unaware(s, q.Key()) && (x == q.d || q.d !in s.table)
    ensures var s' := Receive(s, Some(RREQ(h)), ttl, src, s.ifaces[0], now);
            && GoodNode(s', q, {}) && s'.cfg == s.cfg && s'.ifaces == s.ifaces && !Unaware(s', q.Key())
            && Meets(s.table, s'.table, src, {q.o})
            && q.o in s'.table && Via(s'.table[q.o], src, h.hopCount + 1) && s'.table[q.o].route.dst == q.o
            && src in s'.table && h.hopCount <= 254 && s'.log.sent == s.log.sent + SendsAt(s, s', q, x, h, ttl)
  {
    hide Receive, Calmly, Meets, Knows, Unaware, Lasting, ToMilliseconds, Via;
    LastingLess(s.cfg, q.life, q.reach, h.hopCount + 1);
    HearFirst(s, h, ttl, src, s.ifaces[0], q.until, q.life, now);
    var s' := Receive(s, Some(RREQ(h)), ttl, src, s.ifaces[0], now);
    KnowsNot(s', q.Key(), q.until);
    GoodAfter(s, s', q, {});
    CalmlyEntry(s', s.ifaces[0], q.until, {}, q.o);
  }

  lemma FirstStep(net: Net, q: Quest, depth: map<Addr, int>, i: nat, now: Time)
    requires Inv(net, q, depth) && i < |net.flight| && Timely(q, now) && CanDeliver(net, i)
    requires net.flight[i].msg.RREQ? && !Aware(net, q, net.flight[i].to)
    ensures var net' := Deliver(net, i, now);
            var p := net.flight[i];
            && p.msg.rreq.hopCount <= 254 && net.nodes[p.to].ifaces != []
            && FirstHeard(net, net', q, p)
            && net'.flight == Rest(net, i) + AllCopies(net, p.to, FirstSends(net, net', q, p))
  {
    hide Receive, GoodNode, Meets, Unaware, Lasting, Flying, PacketOk, Via, SendsAt, Depths, Answers, ForwardRoutes,
         Frame, RequestOk, SameForward, HasRoute;
    var p := net.flight[i];
    var x, s, h := p.to, net.nodes[p.to], p.msg.rreq;
    var net' := Deliver(net, i, now);
    var s' := net'.nodes[x];
    RestFlying(net, q, depth, i);
    RequestAt(net, q, depth, p);
    RequestDepth(q, depth, p);
    RequestKnown(net, q, depth, p);
    FrameAt(net, q, x);
    UnawareAt(net, q, depth, x);
    FirstReceipt(s, x, h, p.ttl, p.sender, q, now);
    MeetsSame(net, net', q, x, p.sender);
    MeetsKeys(s.table, s'.table, p.sender, q.o);
    assert NewSends(s, s') == FirstSends(net, net', q, p);
  }

  lemma RequestKnown(net: Net, q: Quest, depth: map<Addr, int>, p: Packet)
    requires Frame(net, q) && RequestOk(q, depth, p) && p.sender in net.nodes && (p.sender, p.to) in net.links
    ensures p.msg.rreq.dst == q.d != q.o && q.o != NO_ADDR && q.o != LOOPBACK && p.sender != NO_ADDR
    ensures (p.to, p.sender) in net.links
  {
  }

  lemma CalmlyEntry(s: Node, rcv: Iface, until: Time, sought: set<Addr>, k: Addr)
    requires Calmly(s, rcv, until, sought)
    ensures k in s.table ==> s.table[k].route.dst == k
  {
    SteadyEntry(s.table, rcv, until, sought, k);
  }

  lemma LastingLess(cfg: Config, life: Time, reach: nat, hop: nat)
    requires Lasting(cfg, life, reach) && hop <= reach
    ensures Lasting(cfg, life, hop)
  {
    hide ReverseLifetime;
  }

  lemma MeetsSame(net: Net, net': Net, q: Quest, x: Addr, sender: Addr)
    requires x in net.nodes && x in net'.nodes && x != q.o && q.o != q.d && sender != q.d
    requires Meets(net.nodes[x].table, net'.nodes[x].table, sender, {q.o})
    ensures SameForward(net, net', q, x)
  {
  }

  /** A node that has not seen the request has no route that the reply left. */
  lemma UnawareAt(net: Net, q: Quest, depth: map<Addr, int>, x: Addr)
    requires Depths(net, q, depth) && ForwardRoutes(net, q, depth) && Good(net, q) && x in net.nodes
    requires !Aware(net, q, x)
    ensures x != q.o && x !in depth && Unaware(net.nodes[x], q.Key()) && (x == q.d || q.d !in net.nodes[x].table)
    ensures Sought(q, x) == {}
  {
    hide ReverseOk, Unaware, ForwardOk, GoodNode;
    assert HasRoute(net, q, x) ==> x in depth;
  }

  /** A first request at a node on the way. */
  lemma RelayStep(net: Net, q: Quest, depth: map<Addr, int>, i: nat, now: Time)
    requires Inv(net, q, depth) && i < |net.flight| && Timely(q, now) && CanDeliver(net, i)
    requires net.flight[i].msg.RREQ? && !Aware(net, q, net.flight[i].to) && net.flight[i].to != q.d
    ensures var net' := Deliver(net, i, now);
            var p := net.flight[i];
            Inv(net', q, depth[p.to := p.msg.rreq.hopCount + 1])
  {
    hide Deliver, ReverseOk, Unaware, GoodNode, Flying, PacketOk, Waiting, HasRoute, ForwardOk, Depths, Frame, Good,
         ForwardRoutes, Answers, RequestOk, CanDeliver;
    var p := net.flight[i];
    var x := p.to;
    var c: int := p.msg.rreq.hopCount;
    var net' := Deliver(net, i, now);
    var depth' := depth[x := c + 1];
    var rest := Rest(net, i);
    FirstStep(net, q, depth, i, now);
    RestFlying(net, q, depth, i);
    RequestAt(net, q, depth, p);
    RequestDepth(q, depth, p);
    UnawareAt(net, q, depth, x);
    ChangedFrame(net, net', q, x, p.sender);
    DepthsGrow(net, net', q, depth, x, p.sender, c);
    ForwardedSame(net, net', q, depth, depth', x, p.sender);
    RoutedHaveDepth(net, q, depth);
    FlyingSame(net, net', q, depth, depth', x, p.sender, rest);
    var sends := FirstSends(net, net', q, p);
    RelayedFlies(net, net', q, depth, i, now);
    AppendFlying(net', q, depth', rest, AllCopies(net, x, sends));
    RepliesStep(net, i, AllCopies(net, x, sends));
    AwareElsewhere(net, net', q, x, p.sender);
    AnswersSame(net, net', q);
  }

  lemma RoutedHaveDepth(net: Net, q: Quest, depth: map<Addr, int>)
    requires ForwardRoutes(net, q, depth)
    ensures forall a :: HasRoute(net, q, a) ==> a in depth
  {
  }

  lemma RequestDepth(q: Quest, depth: map<Addr, int>, p: Packet)
    requires RequestOk(q, depth, p)
    ensures 0 <= p.msg.rreq.hopCount < q.reach && p.sender != q.d
    ensures p.sender == q.o || (p.sender in depth && depth[p.sender] == p.msg.rreq.hopCount)
    ensures p.sender == q.o ==> p.msg.rreq.hopCount == 0
  {
  }

  /** The copies that a node on the way adds to the flood. */
  lemma RelayedFlies(net: Net, net': Net, q: Quest, depth: map<Addr, int>, i: nat, now: Time)
    requires i < |net.flight| && net.flight[i].to in net.nodes && Frame(net, q)
    requires var p := net.flight[i]; FirstHeard(net, net', q, p) && RequestOk(q, depth, p) && p.to != q.d && p.to != q.o
    ensures var p := net.flight[i];
            && p.msg.rreq.hopCount <= 254 && net.nodes[p.to].ifaces != []
            && var c := AllCopies(net, p.to, FirstSends(net, net', q, p));
               var depth' := depth[p.to := p.msg.rreq.hopCount + 1];
            && Flying(net', q, depth', c) && Filter(IsReply(), c) == []
            && (depth'[p.to] < q.reach ==>
                  forall b :: b in Neighbors(net, p.to) ==> exists p' :: p' in c && p'.to == b && p'.msg.RREQ?)
  {
    hide Aware, ReplyOk, GoodNode, Via, AllCopies, IsReply;
    var p := net.flight[i];
    var depth' := depth[p.to := p.msg.rreq.hopCount + 1];
    var sends := FirstSends(net, net', q, p);
    assert net'.nodes.Keys == net.nodes.Keys;
    if sends == [] {
      NoCopies(net, p.to);
    } else {
      var m := sends[0];
      assert sends == [m];
      BroadcastFlies(net', q, depth', p.to, m);
      SameCopies(net, net', p.to, m);
      forall b | b in Neighbors(net, p.to)
        ensures exists p' :: p' in AllCopies(net, p.to, sends) && p'.to == b && p'.msg.RREQ?
      {
        assert b in Neighbors(net', p.to);
        assert Packet(b, p.to, m.msg, m.ttl) in AllCopies(net, p.to, sends);
      }
    }
  }

  lemma NoCopies(net: Net, a: Addr)
    ensures AllCopies(net, a, []) == []
  {
  }

  /** Copies only depend on who hears whom. */
  lemma SameCopies(net: Net, net': Net, a: Addr, m: Sent)
    requires net'.nodes.Keys == net.nodes.Keys && net'.links == net.links
    ensures AllCopies(net', a, [m]) == AllCopies(net, a, [m])
  {
    hide SortedKeys;
    assert Neighbors(net', a) == Neighbors(net, a);
    NoCopies(net, a);
    NoCopies(net', a);
    assert Copies(net', a, m) == Copies(net, a, m);
    assert AllCopies(net, a, [m]) == Copies(net, a, m) + AllCopies(net, a, []);
    assert AllCopies(net', a, [m]) == Copies(net', a, m) + AllCopies(net', a, []);
  }

  /** A first request at the destination. */
  lemma AnswerStep(net: Net, q: Quest, depth: map<Addr, int>, i: nat, now: Time) returns (r: Packet)
    requires Inv(net, q, depth) && i < |net.flight| && Timely(q, now) && CanDeliver(net, i)
    requires net.flight[i].msg.RREQ? && !Aware(net, q, net.flight[i].to) && net.flight[i].to == q.d
    ensures var net' := Deliver(net, i, now);
            var p := net.flight[i];
            && Inv(net', q, depth[q.d := p.msg.rreq.hopCount + 1])
            && r.msg.RREP? && r.to == p.sender && r.ttl == p.msg.rreq.hopCount + 1 && net'.flight == Rest(net, i) + [r]
  {
    hide Deliver, ReverseOk, Unaware, GoodNode, Flying, PacketOk, HasRoute, ForwardOk, Depths, Frame, Good,
         ForwardRoutes, RequestOk, CanDeliver, ReplyOk, Waiting, Answers, AllCopies;
    var p := net.flight[i];
    var x := p.to;
    var c: int := p.msg.rreq.hopCount;
    var net' := Deliver(net, i, now);
    var depth' := depth[x := c + 1];
    var rest := Rest(net, i);
    FirstStep(net, q, depth, i, now);
    RestFlying(net, q, depth, i);
    RequestAt(net, q, depth, p);
    RequestDepth(q, depth, p);
    UnawareAt(net, q, depth, x);
    ChangedFrame(net, net', q, x, p.sender);
    DepthsGrow(net, net', q, depth, x, p.sender, c);
    ForwardedSame(net, net', q, depth, depth', x, p.sender);
    RoutedHaveDepth(net, q, depth);
    FlyingSame(net, net', q, depth, depth', x, p.sender, rest);
    NoRouteYet(net, q);
    r := AnswerFlies(net, net', q, depth, i);
    AppendFlying(net', q, depth', rest, [r]);
    RepliesStep(net, i, [r]);
    assert Filter(IsReply(), [r]) == [r] + Filter(IsReply(), []);
    NowAnswered(net, net', q);
  }

  lemma NowAnswered(net: Net, net': Net, q: Quest)
    requires Answers(net, q) && !Aware(net, q, q.d) && Aware(net', q, q.d)
    requires |Filter(IsReply(), net'.flight)| == |Filter(IsReply(), net.flight)| + 1
    requires Waiting(net', q) <==> Waiting(net, q)
    ensures Answers(net', q)
  {
    hide Waiting, Aware, HasRoute;
  }

  lemma NoRouteYet(net: Net, q: Quest)
    requires Answers(net, q) && !Aware(net, q, q.d)
    ensures forall a :: !HasRoute(net, q, a)
  {
    hide Waiting, Aware, HasRoute;
  }

  lemma AnswerFlies(net: Net, net': Net, q: Quest, depth: map<Addr, int>, i: nat) returns (r: Packet)
    requires i < |net.flight| && net.flight[i].to in net.nodes && Frame(net, q)
    requires var p := net.flight[i];
             FirstHeard(net, net', q, p) && RequestOk(q, depth, p) && p.to == q.d && p.sender in net.nodes
             && KeyOf(p.msg.rreq) == q.Key()
    requires forall a :: !HasRoute(net', q, a)
    ensures var p := net.flight[i];
            && p.msg.rreq.hopCount <= 254 && net.nodes[p.to].ifaces != []
            && AllCopies(net, p.to, FirstSends(net, net', q, p)) == [r]
            && r.msg.RREP? && r.to == p.sender && r.ttl == p.msg.rreq.hopCount + 1
            && Flying(net', q, depth[p.to := p.msg.rreq.hopCount + 1], [r])
  {
    hide Aware, GoodNode, AllCopies, ReverseLifetime, ToMilliseconds;
    var p := net.flight[i];
    var m := FirstSends(net, net', q, p)[0];
    FrameAt(net, q, p.to);
    UnicastFlies(net, p.to, m);
    r := Packet(m.to, p.to, m.msg, m.ttl);
    assert FirstSends(net, net', q, p) == [m];
    assert net'.nodes.Keys == net.nodes.Keys;
  }

  // Replies

  /** The facts about the receiver that a reply establishes. */
  ghost predicate Replied(net: Net, net': Net, q: Quest, p: Packet) {
    && Changed(net, net', q, p.to, p.sender) && p.msg.RREP?
    && (forall a :: Aware(net', q, a) <==> Aware(net, q, a))
    && ReverseKept(net.nodes[p.to].table, net'.nodes[p.to].table, q.o, p.sender)
    && q.d in net'.nodes[p.to].table
    && net'.nodes[p.to].table[q.d].route.nextHop == p.sender
    && net'.nodes[p.to].table[q.d].info.hops == p.msg.rrep.hopCount + 1
    && (p.to == q.o ==> net'.nodes[p.to].table[q.d].info.flag == VALID)
    && p.sender in net'.nodes[p.to].table
  }

  /** A reply in flight is the only one, and the originator waits for it. */
  lemma OneReply(net: Net, q: Quest, i: nat)
    requires Answers(net, q) && i < |net.flight| && net.flight[i].msg.RREP?
    ensures Aware(net, q, q.d) && Waiting(net, q) && Filter(IsReply(), Rest(net, i)) == []
  {
    hide Aware, Waiting;
    RepliesStep(net, i, []);
  }

  lemma ReplyAt(net: Net, q: Quest, depth: map<Addr, int>, p: Packet)
    requires PacketOk(net, q, depth, p) && p.msg.RREP? && Frame(net, q) && Depths(net, q, depth)
    requires ForwardRoutes(net, q, depth)
    ensures ReplyOk(net, q, depth, p) && p.to in net.nodes && (p.to, p.sender) in net.links
    ensures p.sender != q.o && p.sender != NO_ADDR && q.d != q.o && q.d != NO_ADDR && q.o != NO_ADDR
    ensures p.to != q.o ==>
      && p.to in depth && ReverseOk(net, q, depth, p.to) && q.o in net.nodes[p.to].table
      && q.d !in net.nodes[p.to].table && p.ttl >= 2 && p.to != q.d
    ensures p.to == q.o ==> q.d in net.nodes[q.o].table
  {
    if p.to != q.o {
      assert !HasRoute(net, q, p.to);
    }
  }

  lemma RepliedAt(net: Net, net': Net, q: Quest, p: Packet)
    requires p.to in net.nodes && Changed(net, net', q, p.to, p.sender) && p.msg.RREP? && q.o != q.d && p.sender != q.o
    requires net'.nodes[p.to].ids == net.nodes[p.to].ids
    requires Meets(net.nodes[p.to].table, net'.nodes[p.to].table, p.sender, {q.d})
    requires var t := net'.nodes[p.to].table;
             q.d in t && t[q.d].route.nextHop == p.sender && t[q.d].info.hops == p.msg.rrep.hopCount + 1
             && (p.to == q.o ==> t[q.d].info.flag == VALID) && p.sender in t
    ensures Replied(net, net', q, p)
  {
    hide GoodNode;
    MeetsReverse(net.nodes[p.to].table, net'.nodes[p.to].table, q.o, p.sender, {q.d});
    AwareElsewhere(net, net', q, p.to, p.sender);
  }

  /** A reply on its way, seen from the node that receives it. */
  lemma PassReceipt(s: Node, x: Addr, h: Rrep, ttl: U8, sender: Addr, q: Quest, now: Time)
    requires GoodNode(s, q, {}) && Timely(q, now) && s.ifaces[0].local == x != q.o && Lasting(s.cfg, q.life, q.reach)
    requires h.origin == q.o != q.d == h.dst && !h.ackRequired && h.hopCount <= 254 && ttl >= 2
    requires FromMilliseconds(h.lifeTime) >= q.life && q.o != LOOPBACK
    requires q.o in s.table && q.d !in s.table && q.o != sender && sender != NO_ADDR && q.d != NO_ADDR
    ensures var s' := Receive(s, Some(RREP(h)), ttl, sender, s.ifaces[0], now);
            && GoodNode(s', q, {}) && s'.cfg == s.cfg && s'.ids == s.ids && s'.ifaces == s.ifaces
            && Meets(s.table, s'.table, sender, {q.d}) && sender in s'.table
            && q.d in s'.table && s'.table[q.d].route.nextHop == sender && s'.table[q.d].info.hops == h.hopCount + 1
            && s'.log.sent == s.log.sent + [PassedOn(s, q, h, ttl)]
  {
    hide Receive, Calmly, Meets, Unaware, Knows;
    PassReply(s, h, ttl, sender, s.ifaces[0], q.until, q.life, now);
    var s' := Receive(s, Some(RREP(h)), ttl, sender, s.ifaces[0], now);
    SameKnows(s, s', q.Key(), q.until);
    GoodAfter(s, s', q, {});
  }

  function PassedOn(s: Node, q: Quest, h: Rrep, ttl: U8): Sent
    requires s.ifaces != [] && q.o in s.table && h.hopCount <= 254 && ttl >= 1
  {
    Sent(RREP(h.(hopCount := h.hopCount + 1)), ttl - 1, s.ifaces[0], s.table[q.o].route.nextHop)
  }

  lemma PassDelivery(net: Net, q: Quest, depth: map<Addr, int>, i: nat, now: Time)
    requires Frame(net, q) && Good(net, q) && i < |net.flight| && Timely(q, now) && CanDeliver(net, i)
    requires var p := net.flight[i];
             && p.msg.RREP? && p.to != q.o && ReplyOk(net, q, depth, p) && (p.to, p.sender) in net.links
             && p.sender != NO_ADDR && p.ttl >= 2 && q.o in net.nodes[p.to].table && q.d !in net.nodes[p.to].table
    ensures var net' := Deliver(net, i, now);
            var p := net.flight[i];
            var s := net.nodes[p.to];
            && s.ifaces != [] && p.msg.rrep.hopCount <= 254 && p.ttl >= 1 && Replied(net, net', q, p)
            && net'.flight == Rest(net, i) + AllCopies(net, p.to, [PassedOn(s, q, p.msg.rrep, p.ttl)])
  {
    hide Receive, GoodNode, Meets, Unaware, Lasting, Frame, HasRoute, ReverseKept, PassedOn, Aware, FromMilliseconds;
    var p := net.flight[i];
    var x, s, h := p.to, net.nodes[p.to], p.msg.rrep;
    var net' := Deliver(net, i, now);
    FrameAt(net, q, x);
    FrameQuest(net, q);
    PassReceipt(s, x, h, p.ttl, p.sender, q, now);
    RepliedAt(net, net', q, p);
    assert NewSends(s, net'.nodes[x]) == [PassedOn(s, q, h, p.ttl)];
  }

  lemma FrameQuest(net: Net, q: Quest)
    requires Frame(net, q)
    ensures q.o != q.d && q.o != NO_ADDR && q.d != NO_ADDR && q.o != LOOPBACK && q.o in net.nodes && q.d in net.nodes
  {
  }

  /** The nodes with a route, after the reply has passed `x`. */
  lemma PassedForward(net: Net, net': Net, q: Quest, depth: map<Addr, int>, p: Packet)
    requires Frame(net, q) && ForwardRoutes(net, q, depth) && ReplyOk(net, q, depth, p) && Waiting(net, q)
    requires Replied(net, net', q, p) && p.to != q.o && q.d !in net.nodes[p.to].table && p.to != q.d
    requires (p.to, p.sender) in net.links
    ensures ForwardRoutes(net', q, depth) && Waiting(net', q)
    ensures forall a :: HasRoute(net', q, a) <==> HasRoute(net, q, a) || a == p.to
  {
    hide GoodNode, Aware, ReverseKept;
    var x := p.to;
    assert net'.nodes.Keys == net.nodes.Keys;
    forall a | HasRoute(net', q, a) ensures a in depth && ForwardOk(net', q, a) {
      if a != x {
        assert HasRoute(net, q, a) && ForwardOk(net, q, a);
      }
    }
  }

  lemma PassedFlies(net: Net, net': Net, q: Quest, depth: map<Addr, int>, p: Packet, r: Packet)
    requires ReplyOk(net, q, depth, p) && p.to != q.o && p.to in net.nodes && ReverseOk(net, q, depth, p.to)
    requires Depths(net, q, depth) && net'.nodes.Keys == net.nodes.Keys && net'.links == net.links
    requires p.msg.rrep.hopCount <= 254
    requires r == Packet(net.nodes[p.to].table[q.o].route.nextHop, p.to,
                         RREP(p.msg.rrep.(hopCount := p.msg.rrep.hopCount + 1)), p.ttl - 1)
    requires HasRoute(net', q, p.to) && net'.nodes[p.to].table[q.d].info.hops == p.msg.rrep.hopCount + 1
    requires forall a :: HasRoute(net', q, a) <==> HasRoute(net, q, a) || a == p.to
    ensures Flying(net', q, depth, [r])
    ensures r.to == q.o || (r.to in depth && depth[r.to] < depth[p.to])
  {
    hide Unaware, FromMilliseconds;
  }

  lemma AnswersAfter(net: Net, net': Net, q: Quest)
    requires Aware(net', q, q.d) && |Filter(IsReply(), net'.flight)| == if Waiting(net', q) then 1 else 0
    ensures Answers(net', q)
  {
    hide Waiting, Aware;
  }

  /** A reply at a node on the way is passed on, to a node nearer to the originator. */
  lemma PassStep(net: Net, q: Quest, depth: map<Addr, int>, i: nat, now: Time) returns (r: Packet)
    requires Inv(net, q, depth) && i < |net.flight| && Timely(q, now) && CanDeliver(net, i)
    requires net.flight[i].msg.RREP? && net.flight[i].to != q.o
    ensures var net' := Deliver(net, i, now);
            var p := net.flight[i];
            && Inv(net', q, depth) && Replied(net, net', q, p)
            && net'.flight == Rest(net, i) + [r] && r.msg.RREP?
            && p.to in depth && (r.to == q.o || (r.to in depth && depth[r.to] < depth[p.to]))
  {
    hide Deliver, GoodNode, Flying, PacketOk, HasRoute, ForwardOk, Depths, Frame, Good, ForwardRoutes, CanDeliver,
         ReplyOk, Waiting, Answers, AllCopies, Aware, ReverseKept;
    var p := net.flight[i];
    var x := p.to;
    var net' := Deliver(net, i, now);
    var rest := Rest(net, i);
    RestFlying(net, q, depth, i);
    ReplyAt(net, q, depth, p);
    ReplyBounds(net, q, depth, p);
    CanDeliverIfaces(net, i);
    OneReply(net, q, i);
    var m := PassedOn(net.nodes[x], q, p.msg.rrep, p.ttl);
    PassDelivery(net, q, depth, i, now);
    ChangedFrame(net, net', q, x, p.sender);
    DepthsSame(net, net', q, depth, x, p.sender);
    PassedForward(net, net', q, depth, p);
    RequestsSame(net, net', q, depth, rest);
    NextIsNode(net, q, depth, x);
    FrameAt(net, q, x);
    UnicastFlies(net, x, m);
    r := Packet(m.to, x, m.msg, m.ttl);
    PassedFlies(net, net', q, depth, p, r);
    AppendFlying(net', q, depth, rest, [r]);
    RepliesStep(net, i, [r]);
    assert Filter(IsReply(), [r]) == [r] + Filter(IsReply(), []);
    AnswersAfter(net, net', q);
  }

  lemma ReplyBounds(net: Net, q: Quest, depth: map<Addr, int>, p: Packet)
    requires ReplyOk(net, q, depth, p)
    ensures p.msg.rrep.hopCount <= 254 && p.ttl >= 1 && p.msg.RREP?
  {
  }

  lemma CanDeliverIfaces(net: Net, i: nat)
    requires CanDeliver(net, i)
    ensures net.flight[i].to in net.nodes && net.nodes[net.flight[i].to].ifaces != []
  {
  }

  lemma NextIsNode(net: Net, q: Quest, depth: map<Addr, int>, x: Addr)
    requires Depths(net, q, depth) && x in depth && x in net.nodes && ReverseOk(net, q, depth, x)
    ensures net.nodes[x].table[q.o].route.nextHop in net.nodes
  {
    hide Unaware;
  }

  /** A reply at the originator ends the search with a route to the destination. */
  lemma GetStep(net: Net, q: Quest, depth: map<Addr, int>, i: nat, now: Time)
    requires Inv(net, q, depth) && i < |net.flight| && Timely(q, now) && CanDeliver(net, i)
    requires net.flight[i].msg.RREP? && net.flight[i].to == q.o
    ensures var net' := Deliver(net, i, now);
            && Inv(net', q, depth) && net'.flight == Rest(net, i) && !Waiting(net', q)
            && Replied(net, net', q, net.flight[i])
  {
    hide Deliver, GoodNode, Flying, PacketOk, HasRoute, ForwardOk, Depths, Frame, Good, ForwardRoutes, CanDeliver,
         ReplyOk, Answers, AllCopies, Aware, ReverseKept;
    var p := net.flight[i];
    var net' := Deliver(net, i, now);
    var rest := Rest(net, i);
    RestFlying(net, q, depth, i);
    ReplyAt(net, q, depth, p);
    OneReply(net, q, i);
    GetDelivery(net, q, depth, i, now);
    ChangedFrame(net, net', q, q.o, p.sender);
    DepthsSame(net, net', q, depth, q.o, p.sender);
    GotForward(net, net', q, depth, p);
    RequestsSame(net, net', q, depth, rest);
    RepliesStep(net, i, []);
    AnswersAfter(net, net', q);
  }

  lemma GetDelivery(net: Net, q: Quest, depth: map<Addr, int>, i: nat, now: Time)
    requires Frame(net, q) && Good(net, q) && i < |net.flight| && Timely(q, now) && CanDeliver(net, i)
    requires var p := net.flight[i];
             && p.msg.RREP? && p.to == q.o && ReplyOk(net, q, depth, p) && (p.to, p.sender) in net.links
             && p.sender != NO_ADDR && q.d != NO_ADDR && Waiting(net, q)
    ensures var net' := Deliver(net, i, now);
            Replied(net, net', q, net.flight[i]) && net'.flight == Rest(net, i)
  {
    hide Receive, Calmly, Meets, Unaware, Knows, Lasting, Frame, HasRoute, ReverseKept, Aware, FromMilliseconds;
    var p := net.flight[i];
    var s, h := net.nodes[q.o], p.msg.rrep;
    var net' := Deliver(net, i, now);
    var s' := net'.nodes[q.o];
    FrameAt(net, q, q.o);
    FrameQuest(net, q);
    GetReply(s, h, p.ttl, p.sender, s.ifaces[0], q.until, q.life, now);
    SameKnows(s, s', q.Key(), q.until);
    GoodAfter(s, s', q, {q.d});
    RepliedAt(net, net', q, p);
    assert NewSends(s, s') == [];
    NoCopies(net, q.o);
  }

  lemma GotForward(net: Net, net': Net, q: Quest, depth: map<Addr, int>, p: Packet)
    requires Frame(net, q) && ForwardRoutes(net, q, depth) && ReplyOk(net, q, depth, p)
    requires Replied(net, net', q, p) && p.to == q.o && (p.to, p.sender) in net.links
    ensures ForwardRoutes(net', q, depth) && !Waiting(net', q)
  {
    hide GoodNode, Aware, ReverseKept;
    assert net'.nodes.Keys == net.nodes.Keys;
    forall a | HasRoute(net', q, a) ensures a in depth && ForwardOk(net', q, a) {
      assert HasRoute(net, q, a) && ForwardOk(net, q, a);
    }
  }
}
