/** Everything that can happen to a node, as one step function. */
module NodeEvents {
  import opened Base
  import opened Messages
  import opened RouteTable
  import opened NodeState
  import opened Discovery
  import opened LinkBreak
  import opened Routes
  import PacketQueue

  // ---------------------------------------------------------------------
  // Start

  /** GetMaximumSimulationTime. */
  const FOREVER: Time := 0x7FFF_FFFF_FFFF_FFFF

  /** A route that lasts as long as the simulation. */
  function LocalRoute(dst: Addr, iface: Iface, now: Time): Entry {
    NewEntry(iface.dev, dst, true, 0, iface, 1, dst, FOREVER, now)
  }

  function LoopbackIface(lo: Device): Iface { Iface(LOOPBACK, 0x7FFF_FFFF, false, lo) }

  /** NotifyInterfaceUp on each interface: a route to its broadcast address. */
  function AddBroadcastRoutes(t: Table, ifaces: seq<Iface>, now: Time, bad: Time): Table
    decreases |ifaces|
  {
    if ifaces == [] then t
    else AddBroadcastRoutes(Add(t, LocalRoute(ifaces[0].broadcast, ifaces[0], now), now, bad), ifaces[1..], now, bad)
  }

  /** A node that has been attached to its interfaces and started at `now`; its
      first hello is due after `jitter`. */
  function Started(cfg: Config, ifaces: seq<Iface>, lo: Device, jitter: Time, now: Time): Node {
    var bad := cfg.badLinkLifetime;
    var t := Add(map[], LocalRoute(LOOPBACK, LoopbackIface(lo), now), now, bad);
    NewNode(cfg, ifaces, now).(
      table := AddBroadcastRoutes(t, ifaces, now, bad),
      neighborTimer := if cfg.enableHello then Some(now + cfg.neighborDelay) else None,
      hello := Hello(0, if cfg.enableHello then Some(now + jitter) else None))
  }

  // ---------------------------------------------------------------------
  // Hello messages

  function Hellos(s: Node, ifaces: seq<Iface>): seq<Sent> {
    if ifaces == [] then []
    else
      var me := ifaces[0].local;
      [Sent(RREP(Rrep(false, 0, me, s.ctr.seqNo, me, ToMilliseconds(s.cfg.HelloLifetime()))),
            1, ifaces[0], ifaces[0].BroadcastTarget())] + Hellos(s, ifaces[1..])
  }

  /** HelloTimerExpire: a broadcast since the last expiry stands in for the
      hello and moves the next deadline back by its age. */
  function HelloTimerExpire(s: Node, now: Time): Node {
    var offset := if s.hello.lastBcast > 0 then now - s.hello.lastBcast else 0;
    var s1 := if s.hello.lastBcast > 0 then s else s.Send(Hellos(s, s.ifaces));
    s1.(hello := Hello(0, Some(now + Max(0, s.cfg.helloInterval - offset))))
  }

  // ---------------------------------------------------------------------
  // Data packets

  /** The effect of RouteOutput on the node: a valid route over the right
      interface is kept alive; otherwise the packet goes to the loopback device. */
  function RouteOutput(s: Node, dst: Addr, oif: int, now: Time): Node {
    var p := s.Purged(now);
    if IsValid(p, dst) && (oif == -1 || p[dst].route.dev == oif) then
      var bad := s.cfg.badLinkLifetime;
      s.(table := Refresh(Refresh(p, dst, s.cfg.activeRouteTimeout, now, bad),
                          p[dst].route.nextHop, s.cfg.activeRouteTimeout, now, bad))
    else s.(table := p)
  }

  /** What forwarding does for the routes: keep both directions alive, or report
      that there is no route. */
  function UseRoute(s: Node, origin: Addr, dst: Addr, now: Time): Node {
    var p := s.Purged(now);
    var life, bad := s.cfg.activeRouteTimeout, s.cfg.badLinkLifetime;
    if IsValid(p, dst) then
      var gateway := p[dst].route.nextHop;
      var t1 := Refresh(Refresh(Refresh(p, origin, life, now, bad), dst, life, now, bad), gateway, life, now, bad);
      var back := GetOr(t1, origin, DefaultEntry(now)).route.nextHop;
      var s1 := s.(table := Refresh(t1, back, life, now, bad));
      UpdateNeighbor(UpdateNeighbor(s1, gateway, life, now), back, life, now)
    else if dst in p && p[dst].info.validSeqNo then RerrNoRoute(s.(table := p), dst, p[dst].info.seqNo, origin, now)
    else RerrNoRoute(s.(table := p), dst, 0, origin, now)
  }

  /** Forwarding: the packet goes on unchanged when there is a valid route. */
  function Forwarding(s: Node, uid: int, header: PacketQueue.Header, now: Time): Node {
    var p := s.Purged(now);
    var s1 := UseRoute(s, header.src, header.dst, now);
    if IsValid(p, header.dst)
    then s1.(log := s1.log.(delivered := s1.log.delivered + [Delivery(uid, header, p[header.dst].route)]))
    else s1
  }

  /** Local delivery of a unicast packet keeps the way back alive. */
  function DeliverLocally(s: Node, origin: Addr, now: Time): Node {
    var life, bad := s.cfg.activeRouteTimeout, s.cfg.badLinkLifetime;
    var t := Refresh(s.table, origin, life, now, bad);
    if IsValid(t, origin) then
      var back := t[origin].route.nextHop;
      UpdateNeighbor(s.(table := Refresh(t, back, life, now, bad)), back, life, now)
    else s.(table := t)
  }

  // ---------------------------------------------------------------------
  // Control messages

  /** RecvMadaodv: learn the neighbour, then handle the message; one of unknown
      type (None) is dropped after the first half. */
  function Receive(s: Node, msg: Option<Message>, ttl: U8, sender: Addr, rcv: Iface, now: Time): Node {
    var s1 := s.(table := RouteToNeighbor(s.cfg, s.table, sender, rcv, now));
    match msg
    case None => s1
    case Some(RREQ(h)) => RecvRequest(s1, h, ttl, sender, rcv, now)
    case Some(RREP(h)) => RecvReply(s1, h, ttl, sender, rcv, now)
    case Some(RERR(h)) => RecvError(s1, h, sender, now)
    case Some(RREP_ACK) => RecvReplyAck(s1, sender, now)
  }

  // ---------------------------------------------------------------------
  // Steps

  datatype Event =
    | Receipt(msg: Option<Message>, ttl: U8, sender: Addr, rcv: Iface)
    | Output(packet: PacketQueue.QueueEntry)
    | RetryTimer(dst: Addr)
    | Postponed(dst: Addr, at: Time)
    | RreqReset
    | RerrReset
    | HelloTimer
    | NeighborTimer
    | TxError(hit: set<Addr>)
    | RouteRequest(dst: Addr, oif: int)
    | Forward(uid: int, header: PacketQueue.Header)
    | Delivered(origin: Addr)

  /** When the event can happen: a timer event at its deadline, a postponed call
      at its due time, anything else at any time; nothing after an abort. */
  predicate Enabled(s: Node, e: Event, now: Time) {
    !s.search.aborted &&
    match e
    case RetryTimer(dst) => dst in s.search.timers && s.search.timers[dst] == Some(now)
    case Postponed(dst, at) => s.search.postponed[(dst, at)] > 0 && at == now
    case RreqReset => s.search.rateReset == now
    case HelloTimer => s.hello.timer == Some(now)
    case NeighborTimer => s.neighborTimer == Some(now)
    case Receipt(_, _, _, rcv) => rcv in s.ifaces
    case _ => true
  }

  function Apply(s: Node, e: Event, now: Time): Node {
    match e
    case Receipt(msg, ttl, sender, rcv) => Receive(s, msg, ttl, sender, rcv, now)
    case Output(packet) => DeferredRouteOutput(s, packet, now)
    case RetryTimer(dst) =>
      RouteRequestTimerExpire(s.(search := s.search.(timers := s.search.timers[dst := None])), dst, now)
    case Postponed(dst, at) => PostponedRequest(s, dst, at, now)
    case RreqReset => RreqRateLimitTimerExpire(s, now)
    case RerrReset => RerrRateLimitTimerExpire(s)
    case HelloTimer => HelloTimerExpire(s.(hello := s.hello.(timer := None)), now)
    case NeighborTimer => PurgeNeighbors(s.(neighborTimer := None), now)
    case TxError(hit) => ProcessTxError(s, hit, now)
    case RouteRequest(dst, oif) => RouteOutput(s, dst, oif, now)
    case Forward(uid, header) => Forwarding(s, uid, header, now)
    case Delivered(origin) => DeliverLocally(s, origin, now)
  }

  /** Every event of the run is enabled when it happens and time does not go back. */
  ghost predicate ValidRun(s: Node, run: seq<(Event, Time)>, start: Time)
    decreases |run|
  {
    run != [] ==>
      && start <= run[0].1
      && Enabled(s, run[0].0, run[0].1)
      && ValidRun(Apply(s, run[0].0, run[0].1), run[1..], run[0].1)
  }

  function RunAll(s: Node, run: seq<(Event, Time)>): Node
    decreases |run|
  {
    if run == [] then s else RunAll(Apply(s, run[0].0, run[0].1), run[1..])
  }
}
