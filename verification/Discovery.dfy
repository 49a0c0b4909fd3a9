/** Route discovery at the originator: SendRequest, its retry timer, and the
    packets that wait for it. */
module Discovery {
  import opened Base
  import opened Messages
  import opened RouteTable
  import opened NodeState
  import PacketQueue
  import IdCaches

  // ---------------------------------------------------------------------
  // The expanding ring, kept in the hop and retry fields of the entry

  /** The TTL of the next request for a destination that has an entry. */
  function NextTtl(cfg: Config, e: Info): U16 {
    var widened := Wrap16(e.hops + cfg.ttlIncrement);
    if e.flag != IN_SEARCH then Min(widened, Wrap16(cfg.netDiameter))
    else if widened > cfg.ttlThreshold then Wrap16(cfg.netDiameter)
    else widened
  }

  function Searching(cfg: Config, e: Info, now: Time): Info {
    var ttl := NextTtl(cfg, e);
    e.(reqCnt := if ttl == cfg.netDiameter then Wrap8(e.reqCnt + 1) else e.reqCnt,
       hops := ttl, flag := IN_SEARCH, lifeTime := cfg.pathDiscoveryTime + now)
  }

  /** The entry for a destination that had none. */
  function FirstSearch(cfg: Config, dst: Addr, now: Time): Entry {
    var e := NewEntry(NO_DEVICE, dst, false, 0, NO_IFACE, cfg.ttlStart, NO_ADDR, cfg.pathDiscoveryTime, now);
    e.(info := e.info.(reqCnt := if cfg.ttlStart == cfg.netDiameter then 1 else 0, flag := IN_SEARCH))
  }

  function SearchEntry(cfg: Config, p: Table, dst: Addr, now: Time): Entry {
    if dst in p then p[dst].(info := Searching(cfg, p[dst].info, now)) else FirstSearch(cfg, dst, now)
  }

  // ---------------------------------------------------------------------
  // SendRequest

  predicate RateLimited(s: Node) { s.search.rreqCount == s.cfg.rreqRateLimit }

  /** The call comes back 100 microseconds after the next reset of the counter. */
  function Postpone(s: Node, dst: Addr): Node {
    s.(search := s.search.(postponed := s.search.postponed + multiset{(dst, s.search.rateReset + 100 * MICROSECOND)}))
  }

  function RequestFor(s: Node, dst: Addr, origin: Addr, now: Time): Rreq {
    var p := s.Purged(now);
    var known := dst in p && p[dst].info.validSeqNo;
    Rreq(s.cfg.gratuitousReply, s.cfg.destinationOnly, !known, 0,
         Wrap32(s.ctr.requestId + 1), dst, if known then p[dst].info.seqNo else 0,
         origin, Wrap32(s.ctr.seqNo + 1))
  }

  /** The request that goes out on each interface, with that interface as origin. */
  function Requests(s: Node, ifaces: seq<Iface>, dst: Addr, ttl: U8, now: Time): (r: seq<Sent>)
    ensures |r| == |ifaces|
    ensures forall i :: 0 <= i < |ifaces| ==>
      r[i] == Sent(RREQ(RequestFor(s, dst, ifaces[i].local, now)), ttl, ifaces[i], ifaces[i].BroadcastTarget())
  {
    if ifaces == [] then []
    else [Sent(RREQ(RequestFor(s, dst, ifaces[0].local, now)), ttl, ifaces[0], ifaces[0].BroadcastTarget())]
           + Requests(s, ifaces[1..], dst, ttl, now)
  }

  /** The node's own requests are duplicates to itself. */
  function RecordOwn(ids: seq<IdCaches.UniqueId>, ifaces: seq<Iface>, id: U32, lifetime: Time, now: Time)
    : seq<IdCaches.UniqueId>
    decreases |ifaces|
  {
    if ifaces == [] then ids
    else
      RecordOwn(IdCaches.Record(ids, IdCaches.Key(ifaces[0].local, id), lifetime, now), ifaces[1..], id, lifetime, now)
  }

  /** How long to wait for an answer; None stands for the NS_ABORT. */
  function RetryDelay(cfg: Config, e: Info): Option<Time> {
    if e.hops < cfg.netDiameter then Some(2 * cfg.nodeTraversalTime * (e.hops + cfg.timeoutBuffer))
    else if e.reqCnt > 0 then Some(cfg.netTraversalTime * Pow2(e.reqCnt - 1))
    else None
  }

  function ScheduleRreqRetry(s: Search, cfg: Config, dst: Addr, e: Info, now: Time): Search {
    var delay := RetryDelay(cfg, e);
    if delay.Some? then s.(timers := s.timers[dst := Some(now + delay.value)])
    else s.(timers := s.timers[dst := None], aborted := true)
  }

  /** SendRequest below the rate limit. */
  function Originate(s: Node, dst: Addr, now: Time): Node {
    var p := s.Purged(now);
    var e := SearchEntry(s.cfg, p, dst, now);
    var id := Wrap32(s.ctr.requestId + 1);
    s.(table := p[dst := e],
       ids := RecordOwn(s.ids, s.ifaces, id, s.cfg.idLifetime, now),
       ctr := s.ctr.(seqNo := Wrap32(s.ctr.seqNo + 1), requestId := id),
       hello := if s.ifaces == [] then s.hello else s.hello.(lastBcast := now),
       search := ScheduleRreqRetry(s.search.(rreqCount := Wrap16(s.search.rreqCount + 1)), s.cfg, dst, e.info, now),
       log := s.log.(sent := s.log.sent + Requests(s, s.ifaces, dst, Wrap8(e.info.hops), now)))
  }

  function SendRequest(s: Node, dst: Addr, now: Time): Node {
    if RateLimited(s) then Postpone(s, dst) else Originate(s, dst, now)
  }

  // ---------------------------------------------------------------------
  // Handing over the packets that waited

  /** The packet is pinned to another interface than the route's. */
  predicate Mismatch(e: PacketQueue.QueueEntry, dev: Device) {
    e.oif != -1 && e.oif != dev
  }

  /** How many leading packets can be sent over `dev`. */
  function Matching(q: seq<PacketQueue.QueueEntry>, dev: Device): (n: nat)
    ensures n <= |q|
    ensures forall i :: 0 <= i < n ==> !Mismatch(q[i], dev)
    ensures n < |q| ==> Mismatch(q[n], dev)
  {
    if q == [] || Mismatch(q[0], dev) then 0
    else
      var n := Matching(q[1..], dev);
      assert forall i :: 0 < i <= n ==> q[i] == q[1..][i - 1];
      n + 1
  }

  /** The queue without its first `n` packets for `dst`. */
  function WithoutFirst(q: seq<PacketQueue.QueueEntry>, dst: Addr, n: nat): seq<PacketQueue.QueueEntry> {
    if q == [] || n == 0 then q
    else if q[0].header.dst == dst then WithoutFirst(q[1..], dst, n - 1)
    else [q[0]] + WithoutFirst(q[1..], dst, n)
  }

  /** The header goes out with the route's source and the TTL that the trip over
      the loopback device cost. */
  function Forwarded(e: PacketQueue.QueueEntry, route: Route): Delivery {
    Delivery(e.uid, e.header.(src := route.source, ttl := Wrap8(e.header.ttl + 1)), route)
  }

  function ForwardedAll(q: seq<PacketQueue.QueueEntry>, route: Route): (r: seq<Delivery>)
    ensures |r| == |q|
  {
    if q == [] then [] else [Forwarded(q[0], route)] + ForwardedAll(q[1..], route)
  }

  /** SendPacketFromQueue: deliver the live packets for `dst` in order; a packet
      pinned to another interface is thrown away and ends the flush. */
  function SendPacketFromQueue(s: Node, dst: Addr, route: Route, now: Time): Node {
    var live := PacketQueue.Purge(s.queue, now);
    var mine := Filter(PacketQueue.IsFor(dst), live.queue);
    var n := Matching(mine, route.dev);
    s.(queue := WithoutFirst(live.queue, dst, n + 1),
       log := s.log.(errors := s.log.errors + live.failed,
                     delivered := s.log.delivered + ForwardedAll(mine[..n], route)))
  }

  // ---------------------------------------------------------------------
  // The retry timer and the entry point for packets

  /** Stop searching: forget the timer and the entry, fail the packets. */
  function GiveUp(s: Node, dst: Addr, now: Time): Node {
    s.(table := s.Purged(now) - {dst}, search := s.search.(timers := s.search.timers - {dst}))
     .WithQueue(PacketQueue.DropPacketWithDst(s.queue, dst, now))
  }

  function RouteRequestTimerExpire(s: Node, dst: Addr, now: Time): Node {
    var p := s.Purged(now);
    var e := if dst in p then p[dst].info else DefaultEntry(now).info;
    if dst in p && e.flag == VALID then SendPacketFromQueue(s.(table := p), dst, p[dst].route, now)
    else if e.reqCnt == s.cfg.rreqRetries then GiveUp(s, dst, now)
    else if e.flag == IN_SEARCH then SendRequest(s.(table := p), dst, now)
    else GiveUp(s, dst, now)
  }

  function DeferredRouteOutput(s: Node, packet: PacketQueue.QueueEntry, now: Time): Node {
    var queued := s.WithQueue(PacketQueue.Enqueue(s.queue, packet, s.cfg.maxQueueLen, s.cfg.queueTimeout, now));
    if !PacketQueue.Accepts(s.queue, packet, now) then queued
    else
      var dst := packet.header.dst;
      var p := s.Purged(now);
      if dst in p && p[dst].info.flag == IN_SEARCH then queued.(table := p)
      else SendRequest(queued.(table := p), dst, now)
  }

  /** A postponed call comes due. */
  function PostponedRequest(s: Node, dst: Addr, at: Time, now: Time): Node {
    SendRequest(s.(search := s.search.(postponed := s.search.postponed - multiset{(dst, at)})), dst, now)
  }

  function RreqRateLimitTimerExpire(s: Node, now: Time): Node {
    s.(search := s.search.(rreqCount := 0, rateReset := now + SECOND))
  }
}
