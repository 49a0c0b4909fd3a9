/** Route errors: what a node does when a link breaks, when it hears a RERR and
    when it has no route to forward a packet; and the neighbour list behind it. */
module LinkBreak {
  import opened Base
  import opened Messages
  import opened RouteTable
  import opened NodeState

  // ---------------------------------------------------------------------
  // Sending a RERR

  predicate IsValid(p: Table, k: Addr) { k in p && p[k].info.flag == VALID }

  /** The distinct interfaces of the precursors with a valid route. */
  function PrecursorIfaces(p: Table, precursors: seq<Addr>, found: seq<Iface>): seq<Iface>
    decreases |precursors|
  {
    if precursors == [] then found
    else if IsValid(p, precursors[0])
    then PrecursorIfaces(p, precursors[1..], PushNew(found, p[precursors[0]].info.iface))
    else PrecursorIfaces(p, precursors[1..], found)
  }

  /** SendRerrMessage on an already purged table: nothing without precursors or
      over the rate limit; one precursor gets a unicast, which is the only kind
      that counts against the limit. */
  function SendRerrMessage(s: Node, rerr: Rerr, precursors: seq<Addr>): Node {
    if precursors == [] || s.ctr.rerrCount == s.cfg.rerrRateLimit then s
    else if |precursors| == 1 then
      if IsValid(s.table, precursors[0]) then
        s.Send([Sent(RERR(rerr), 1, s.table[precursors[0]].info.iface, precursors[0])])
         .(ctr := s.ctr.(rerrCount := Wrap16(s.ctr.rerrCount + 1)))
      else s
    else s.Send(OnEveryInterface(PrecursorIfaces(s.table, precursors, []), RERR(rerr), 1))
  }

  /** The precursors of the listed entries, each once, in the order found. */
  function CollectPrecursors(p: Table, keys: seq<Addr>, prec: seq<Addr>): (r: seq<Addr>)
    ensures Distinct(prec) ==> Distinct(r)
    ensures forall x :: x in r <==> x in prec || exists k :: k in keys && k in p && x in p[k].info.precursors
    decreases |keys|
  {
    if keys == [] then prec
    else
      var prec' := if keys[0] in p then PushAllNew(prec, p[keys[0]].info.precursors) else prec;
      assert forall k :: k in keys <==> k == keys[0] || k in keys[1..];
      CollectPrecursors(p, keys[1..], prec')
  }

  // ---------------------------------------------------------------------
  // A broken link

  /** What the RERR lists: the lost neighbour and every destination behind it. */
  function LostDestinations(p: Table, nextHop: Addr): map<Addr, U32>
    requires nextHop in p
  {
    RoutedVia(p, nextHop)[nextHop := p[nextHop].info.seqNo]
  }

  function LostPrecursors(p: Table, nextHop: Addr): seq<Addr>
    requires nextHop in p
  {
    CollectPrecursors(p, SortedKeys(RoutedVia(p, nextHop).Keys), PushAllNew([], p[nextHop].info.precursors))
  }

  /** SendRerrWhenBreaksLinkToNextHop.  The message is sent unless its one-byte
      count reads zero. */
  function BreakLink(s: Node, nextHop: Addr, now: Time): Node {
    var p := s.Purged(now);
    var s1 := s.(table := p);
    if nextHop !in p then s1
    else
      var lost := LostDestinations(p, nextHop);
      var s2 := if Wrap8(|lost|) == 0 then s1 else SendRerrMessage(s1, Rerr(0, 0, lost), LostPrecursors(p, nextHop));
      s2.(table := InvalidateAll(p, lost.Keys, now, s.cfg.badLinkLifetime))
  }

  // ---------------------------------------------------------------------
  // The neighbour list

  predicate Closed(nb: Neighbor, now: Time) { nb.expire < now || nb.close }

  function IsClosed(now: Time): Neighbor -> bool { (nb: Neighbor) => Closed(nb, now) }

  function IsOpen(now: Time): Neighbor -> bool { (nb: Neighbor) => !Closed(nb, now) }

  /** The link failure callback for each neighbour in turn. */
  function BreakAll(s: Node, lost: seq<Neighbor>, now: Time): Node
    decreases |lost|
  {
    if lost == [] then s else BreakAll(BreakLink(s, lost[0].addr, now), lost[1..], now)
  }

  /** Neighbors::Purge: report every closed neighbour, then forget them. */
  function PurgeNeighbors(s: Node, now: Time): Node {
    if s.neighbors == [] then s
    else
      BreakAll(s, Filter(IsClosed(now), s.neighbors), now)
        .(neighbors := Filter(IsOpen(now), s.neighbors), neighborTimer := Some(now + s.cfg.neighborDelay))
  }

  function NeighborIndex(nb: seq<Neighbor>, addr: Addr): (i: nat)
    ensures i <= |nb|
    ensures i < |nb| ==> nb[i].addr == addr
    ensures forall j :: 0 <= j < i ==> nb[j].addr != addr
  {
    if nb == [] || nb[0].addr == addr then 0
    else
      var rest := NeighborIndex(nb[1..], addr);
      assert forall j :: 0 < j < |nb| ==> nb[j] == nb[1..][j - 1];
      rest + 1
  }

  /** Neighbors::Update: extend a known neighbour, or add it and purge. */
  function UpdateNeighbor(s: Node, addr: Addr, expire: Time, now: Time): Node {
    var i := NeighborIndex(s.neighbors, addr);
    if i < |s.neighbors| then
      s.(neighbors := s.neighbors[i := s.neighbors[i].(expire := Max(expire + now, s.neighbors[i].expire))])
    else PurgeNeighbors(s.(neighbors := s.neighbors + [Neighbor(addr, expire + now, false)]), now)
  }

  /** A transmission error closes the neighbours behind the failed MAC address. */
  function CloseNeighbors(nb: seq<Neighbor>, hit: set<Addr>): (r: seq<Neighbor>)
    ensures |r| == |nb|
    ensures forall i :: 0 <= i < |nb| ==> r[i] == nb[i].(close := nb[i].close || nb[i].addr in hit)
  {
    if nb == [] then []
    else [nb[0].(close := nb[0].close || nb[0].addr in hit)] + CloseNeighbors(nb[1..], hit)
  }

  function ProcessTxError(s: Node, hit: set<Addr>, now: Time): Node {
    PurgeNeighbors(s.(neighbors := CloseNeighbors(s.neighbors, hit)), now)
  }

  // ---------------------------------------------------------------------
  // Receiving a RERR

  /** The listed destinations that this node reaches through the sender, with
      the sequence numbers of the message. */
  function Affected(p: Table, unreachable: map<Addr, U32>, src: Addr): map<Addr, U32> {
    map k | k in unreachable && k in p && p[k].route.nextHop == src :: unreachable[k]
  }

  function RecvError(s: Node, rerr: Rerr, src: Addr, now: Time): Node {
    var p := s.Purged(now);
    var affected := Affected(p, rerr.unreachable, src);
    var s1 := s.(table := p);
    var s2 :=
      if Wrap8(|affected|) == 0 then s1
      else SendRerrMessage(s1, rerr.(unreachable := affected), CollectPrecursors(p, SortedKeys(affected.Keys), []));
    s2.(table := InvalidateAll(p, affected.Keys, now, s.cfg.badLinkLifetime))
  }

  /** SendRerrWhenNoRouteToForward: unicast towards the packet's origin, or broadcast. */
  function RerrNoRoute(s: Node, dst: Addr, dstSeqNo: U32, origin: Addr, now: Time): Node {
    if s.ctr.rerrCount == s.cfg.rerrRateLimit then s
    else
      var p := s.Purged(now);
      var msg := RERR(Rerr(0, 0, map[dst := dstSeqNo]));
      if IsValid(p, origin)
      then s.(table := p).Send([Sent(msg, 1, p[origin].info.iface, p[origin].route.nextHop)])
      else s.(table := p).Send(OnEveryInterface(s.ifaces, msg, 1))
  }

  function RerrRateLimitTimerExpire(s: Node): Node {
    s.(ctr := s.ctr.(rerrCount := 0))
  }
}
