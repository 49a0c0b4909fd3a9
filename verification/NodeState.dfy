/** The state of one node as a value: the fields of `RoutingProtocol` and what
    it has sent and delivered so far. */
module NodeState {
  import opened Base
  import opened Messages
  import opened RouteTable
  import PacketQueue
  import IdCaches

  /** The protocol parameters, fixed over a run.  `badLinkLifetime`, `idLifetime`
      and `neighborDelay` are the copies that the routing table, the duplicate
      cache and the neighbour list took when they were constructed. */
  datatype Config = Config(
    rreqRetries: U32, ttlStart: U16, ttlIncrement: U16, ttlThreshold: U16, timeoutBuffer: U16,
    rreqRateLimit: U16, rerrRateLimit: U16, netDiameter: U32,
    activeRouteTimeout: Time, nodeTraversalTime: Time, netTraversalTime: Time,
    pathDiscoveryTime: Time, myRouteTimeout: Time,
    helloInterval: Time, allowedHelloLoss: U32,
    badLinkLifetime: Time, idLifetime: Time, neighborDelay: Time,
    maxQueueLen: U32, queueTimeout: Time,
    destinationOnly: bool, gratuitousReply: bool, enableHello: bool)
  {
    function HelloLifetime(): Time { allowedHelloLoss * helloInterval }
  }

  /** The default parameters. */
  const DEFAULTS := Config(2, 1, 2, 7, 2, 10, 10, 35, 3 * SECOND, 40 * MILLISECOND, 2800 * MILLISECOND,
                           5600 * MILLISECOND, 11200 * MILLISECOND, SECOND, 2, 15 * SECOND, 5600 * MILLISECOND, SECOND,
                           64, 30 * SECOND, false, true, true)

  /** The route discovery machinery. `timers` maps a destination to the deadline
      of its retry timer, or to None when the timer exists but is not running;
      `postponed` holds the rate-limited calls of SendRequest that the simulator
      still has to make; `aborted` records an NS_ABORT. */
  datatype Search = Search(
    timers: map<Addr, Option<Time>>, postponed: multiset<(Addr, Time)>,
    rreqCount: U16, rateReset: Time, aborted: bool)

  datatype Counters = Counters(seqNo: U32, requestId: U32, rerrCount: U16)

  datatype Neighbor = Neighbor(addr: Addr, expire: Time, close: bool)

  /** `lastBcast` is 0 when there was no broadcast since the last hello timer. */
  datatype Hello = Hello(lastBcast: Time, timer: Option<Time>)

  /** One socket send: the message, its TTL, the interface and the IP destination. */
  datatype Sent = Sent(msg: Message, ttl: U8, iface: Iface, to: Addr)

  /** One UnicastForwardCallback: the packet, its rewritten header, the route used. */
  datatype Delivery = Delivery(uid: int, header: PacketQueue.Header, route: Route)

  datatype Log = Log(sent: seq<Sent>, delivered: seq<Delivery>, errors: seq<PacketQueue.QueueEntry>)

  datatype Node = Node(
    cfg: Config, ifaces: seq<Iface>, table: Table, queue: seq<PacketQueue.QueueEntry>,
    search: Search, ids: seq<IdCaches.UniqueId>, neighbors: seq<Neighbor>, neighborTimer: Option<Time>,
    ctr: Counters, hello: Hello, log: Log)
  {
    function Purged(now: Time): Table { Purge(table, now, cfg.badLinkLifetime) }

    predicate IsMyOwnAddress(a: Addr) {
      exists i :: 0 <= i < |ifaces| && ifaces[i].local == a
    }

    function Send(msgs: seq<Sent>): Node { this.(log := log.(sent := log.sent + msgs)) }

    /** The queue after an operation, with its ErrorCallbacks appended to the log. */
    function WithQueue(o: PacketQueue.Outcome): Node {
      this.(queue := o.queue, log := log.(errors := log.errors + o.failed))
    }
  }

  /** A node as its constructor leaves it. */
  function NewNode(cfg: Config, ifaces: seq<Iface>, now: Time): Node {
    Node(cfg, ifaces, map[], [], Search(map[], multiset{}, 0, now + SECOND, false), [], [], None,
         Counters(0, 0, 0), Hello(0, None), Log([], [], []))
  }

  /** One copy of a control message per interface, to its broadcast address. */
  function OnEveryInterface(ifaces: seq<Iface>, msg: Message, ttl: U8): (r: seq<Sent>)
    ensures |r| == |ifaces|
    ensures forall i :: 0 <= i < |ifaces| ==> r[i] == Sent(msg, ttl, ifaces[i], ifaces[i].BroadcastTarget())
  {
    if ifaces == [] then []
    else [Sent(msg, ttl, ifaces[0], ifaces[0].BroadcastTarget())] + OnEveryInterface(ifaces[1..], msg, ttl)
  }
}
