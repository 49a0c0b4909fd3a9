/** Learning routes: the neighbour a message came from, the reverse route of a
    RREQ and the forward route of a RREP, and the replies themselves. */
module Routes {
  import opened Base
  import opened SeqNo
  import opened Messages
  import opened RouteTable
  import opened NodeState
  import opened LinkBreak
  import opened Discovery
  import IdCaches

  function GetOr(t: Table, k: Addr, other: Entry): Entry { if k in t then t[k] else other }

  // ---------------------------------------------------------------------
  // Lifetimes and neighbours

  /** UpdateRouteLifeTime: a VALID entry lives at least `lifetime` longer. */
  function Refresh(t: Table, addr: Addr, lifetime: Time, now: Time, bad: Time): Table {
    var p := Purge(t, now, bad);
    if IsValid(p, addr) then
      p[addr :=
          p[addr].(info := p[addr].info.(reqCnt := 0, lifeTime := Max(lifetime, p[addr].info.GetLifeTime(now)) + now))]
    else p
  }

  /** UpdateRouteToNeighbor: the sender of any message is one hop away.  When
      that is known already, nothing changes: the longer lifetime goes to a
      copy that is never written back. */
  function RouteToNeighbor(cfg: Config, t: Table, sender: Addr, rcv: Iface, now: Time): Table {
    var p := Purge(t, now, cfg.badLinkLifetime);
    if sender !in p then
      p[sender := NewEntry(rcv.dev, sender, false, 0, rcv, 1, sender, cfg.activeRouteTimeout, now)]
    else if p[sender].info.validSeqNo && p[sender].info.hops == 1 && p[sender].route.dev == rcv.dev then p
    else
      p[sender := NewEntry(rcv.dev, sender, false, 0, rcv, 1, sender,
                           Max(cfg.activeRouteTimeout, p[sender].info.GetLifeTime(now)), now)]
  }

  // ---------------------------------------------------------------------
  // The reverse route

  function ReverseLifetime(cfg: Config, hop: int): Time {
    2 * cfg.netTraversalTime - 2 * hop * cfg.nodeTraversalTime
  }

  /** The entry for the originator after a request from `src`: next hop and hop
      count are taken over whatever the sequence numbers say, the flag is kept. */
  function ReverseEntry(cfg: Config, e: Entry, h: Rreq, hop: U8, src: Addr, rcv: Iface, now: Time): Entry {
    Entry(e.route.(nextHop := src, dev := rcv.dev),
          e.info.(seqNo := if e.info.validSeqNo && !Newer(h.originSeqNo, e.info.seqNo)
                           then e.info.seqNo else h.originSeqNo,
                  validSeqNo := true, iface := rcv, hops := hop,
                  lifeTime := Max(ReverseLifetime(cfg, hop), e.info.GetLifeTime(now)) + now))
  }

  function ReverseRoute(cfg: Config, p: Table, h: Rreq, hop: U8, src: Addr, rcv: Iface, now: Time): Table {
    if h.origin in p then Put(p, h.origin, ReverseEntry(cfg, p[h.origin], h, hop, src, rcv, now))
    else p[h.origin := NewEntry(rcv.dev, h.origin, true, h.originSeqNo, rcv, hop, src, ReverseLifetime(cfg, hop), now)]
  }

  /** The entry for the neighbour that relayed the request; when that is the
      originator itself, this takes back the valid sequence number. */
  function RelayRoute(cfg: Config, p: Table, h: Rreq, src: Addr, rcv: Iface, now: Time): Table {
    if src in p then
      var e := p[src];
      p[src := Entry(e.route.(nextHop := src, dev := rcv.dev),
                     e.info.(lifeTime := cfg.activeRouteTimeout + now, validSeqNo := false, seqNo := h.originSeqNo,
                             flag := VALID, iface := rcv, hops := 1, reqCnt := 0))]
    else p[src := NewEntry(rcv.dev, src, false, h.originSeqNo, rcv, 1, src, cfg.activeRouteTimeout, now)]
  }

  // ---------------------------------------------------------------------
  // Replies

  /** SendReply: the destination answers along the reverse route.  It raises its
      own number only when the request asks for exactly the next one. */
  function SendReply(s: Node, h: Rreq, toOrigin: Entry): Node {
    var next := Wrap32(s.ctr.seqNo + 1);
    var seqNo := if !h.unknownSeqNo && h.dstSeqNo == next then next else s.ctr.seqNo;
    s.(ctr := s.ctr.(seqNo := seqNo))
     .Send([Sent(RREP(Rrep(false, 0, h.dst, seqNo, toOrigin.route.dst, ToMilliseconds(s.cfg.myRouteTimeout))),
                 Wrap8(toOrigin.info.hops), toOrigin.info.iface, toOrigin.route.nextHop)])
  }

  function AddPrecursor(e: Entry, id: Addr): Entry { e.(info := e.info.InsertPrecursor(id)) }

  /** SendReplyByIntermediateNode, on the two entries as looked up. */
  function SendReplyByIntermediateNode(s: Node, toDst: Entry, toOrigin: Entry, gratuitous: bool, now: Time): Node {
    var d := AddPrecursor(toDst, toOrigin.route.nextHop);
    var o := AddPrecursor(toOrigin, toDst.route.nextHop);
    var reply := Sent(
      RREP(Rrep(toDst.info.hops == 1, Wrap8(toDst.info.hops), toDst.route.dst, toDst.info.seqNo, toOrigin.route.dst,
                ToMilliseconds(toDst.info.GetLifeTime(now)))),
      Wrap8(toOrigin.info.hops), toOrigin.info.iface, toOrigin.route.nextHop);
    var grat := Sent(
      RREP(Rrep(false, Wrap8(toOrigin.info.hops), toOrigin.route.dst, toOrigin.info.seqNo, toDst.route.dst,
                ToMilliseconds(toOrigin.info.GetLifeTime(now)))),
      Wrap8(toDst.info.hops), toDst.info.iface, toDst.route.nextHop);
    s.(table := Update(Update(s.table, d), o)).Send([reply] + if gratuitous then [grat] else [])
  }

  /** SendReplyAck. */
  function SendReplyAck(s: Node, neighbor: Addr, now: Time): Node {
    var p := s.Purged(now);
    s.(table := p).Send([Sent(RREP_ACK, 1, GetOr(p, neighbor, DefaultEntry(now)).info.iface, neighbor)])
  }

  // ---------------------------------------------------------------------
  // The forward route

  function ForwardEntry(h: Rrep, hop: U8, sender: Addr, rcv: Iface, now: Time): Entry {
    NewEntry(rcv.dev, h.dst, true, h.dstSeqNo, rcv, hop, sender, FromMilliseconds(h.lifeTime), now)
  }

  /** The known route gives way: its number is not valid or older, or equal
      and the route is down or longer. */
  predicate Fresher(h: Rrep, hop: U8, e: Info) {
    || !e.validSeqNo
    || Newer(h.dstSeqNo, e.seqNo)
    || (h.dstSeqNo == e.seqNo && (e.flag != VALID || hop < e.hops))
  }

  function ForwardRoute(p: Table, h: Rrep, hop: U8, sender: Addr, rcv: Iface, now: Time): Table {
    if h.dst in p && !Fresher(h, hop, p[h.dst].info) then p
    else p[h.dst := ForwardEntry(h, hop, sender, rcv, now)]
  }

  /** Precursors on both routes that a forwarded reply connects; every write
      but the last two is of a fresh copy, the third is of the copy of the
      reverse route taken before the second. */
  function ConnectPrecursors(t: Table, dst: Addr, toOrigin: Entry, now: Time): Table
    requires dst in t
  {
    var toDst := AddPrecursor(t[dst], toOrigin.route.nextHop);
    var t1 := Update(t, toDst);
    var hopToDst := AddPrecursor(GetOr(t1, toDst.route.nextHop, DefaultEntry(now)), toOrigin.route.nextHop);
    var t2 := Update(t1, hopToDst);
    var o := AddPrecursor(toOrigin, toDst.route.nextHop);
    var t3 := Update(t2, o);
    var hopToOrigin := AddPrecursor(GetOr(t3, o.route.nextHop, DefaultEntry(now)), toDst.route.nextHop);
    Update(t3, hopToOrigin)
  }

  /** A search that ran when the reply came in ends with it. */
  function EndSearch(s: Node, h: Rrep, hop: U8, sender: Addr, rcv: Iface, searching: bool, now: Time): Node {
    var s1 :=
      if searching
      then s.(table := Update(s.table, ForwardEntry(h, hop, sender, rcv, now)),
              search := s.search.(timers := s.search.timers - {h.dst}))
      else s;
    s1.(table := s1.Purged(now))
  }

  /** The originator's part: end the search and flush the queue over whatever
      route the table now has; `before` is the entry as first looked up. */
  function AcceptReply(s: Node, h: Rrep, hop: U8, sender: Addr, rcv: Iface, before: Entry, now: Time): Node {
    var s1 := EndSearch(s, h, hop, sender, rcv, before.info.flag == IN_SEARCH, now);
    SendPacketFromQueue(s1, h.dst, GetOr(s1.table, h.dst, before).route, now)
  }

  /** The reverse entry kept alive by a reply that passes along it. */
  function Extended(cfg: Config, e: Entry, now: Time): Entry {
    e.(info := e.info.SetLifeTime(Max(cfg.activeRouteTimeout, e.info.GetLifeTime(now)), now))
  }

  /** Forwarding a reply one hop nearer to the originator. */
  function ForwardReply(s: Node, h: Rrep, hop: U8, ttl: U8, now: Time): Node {
    var p := s.Purged(now);
    if h.origin !in p || p[h.origin].info.flag == IN_SEARCH then s.(table := p)
    else
      var toOrigin := Extended(s.cfg, p[h.origin], now);
      var t := Purge(Update(p, toOrigin), now, s.cfg.badLinkLifetime);
      var s1 := s.(table := if IsValid(t, h.dst) then ConnectPrecursors(t, h.dst, toOrigin, now) else t);
      if ttl < 2 then s1
      else
        s1.Send([Sent(RREP(h.(hopCount := hop, ackRequired := false)), ttl - 1, toOrigin.info.iface,
                      toOrigin.route.nextHop)])
  }

  /** The table after a hello: the neighbour is one hop away, with a fresh number. */
  function HelloTable(s: Node, h: Rrep, rcv: Iface, now: Time): Table {
    var p := s.Purged(now);
    if h.dst in p then
      var e := p[h.dst];
      p[h.dst := Entry(e.route.(nextHop := h.dst, dev := rcv.dev),
                       e.info.(lifeTime := Max(s.cfg.HelloLifetime(), e.info.GetLifeTime(now)) + now,
                               seqNo := h.dstSeqNo,
                               validSeqNo := true, flag := VALID, iface := rcv, hops := 1, reqCnt := 0))]
    else p[h.dst := NewEntry(rcv.dev, h.dst, true, h.dstSeqNo, rcv, 1, h.dst, FromMilliseconds(h.lifeTime), now)]
  }

  /** ProcessHello: a reply about its own sender refreshes the neighbour. */
  function ProcessHello(s: Node, h: Rrep, rcv: Iface, now: Time): Node {
    var s1 := s.(table := HelloTable(s, h, rcv, now));
    if s.cfg.enableHello then UpdateNeighbor(s1, h.dst, s.cfg.HelloLifetime(), now) else s1
  }

  /** What any reply does before it is known whose it is. */
  function LearnFromReply(s: Node, h: Rrep, hop: U8, sender: Addr, rcv: Iface, now: Time): Node {
    var s1 := s.(table := ForwardRoute(s.Purged(now), h, hop, sender, rcv, now));
    if h.ackRequired then SendReplyAck(s1, sender, now) else s1
  }

  function RecvReply(s: Node, h: Rrep, ttl: U8, sender: Addr, rcv: Iface, now: Time): Node {
    var hop := Wrap8(h.hopCount + 1);
    if h.dst == h.origin then ProcessHello(s, h, rcv, now)
    else
      var p := s.Purged(now);
      var before := GetOr(p, h.dst, DefaultEntry(now));
      var s2 := LearnFromReply(s, h, hop, sender, rcv, now);
      if s.IsMyOwnAddress(h.origin)
      then AcceptReply(s2, h, hop, sender, rcv, before, now)
      else ForwardReply(s2, h, hop, ttl, now)
  }

  /** RecvReplyAck: the link to the neighbour works. */
  function RecvReplyAck(s: Node, neighbor: Addr, now: Time): Node {
    var p := s.Purged(now);
    if neighbor in p
    then s.(table := p[neighbor := p[neighbor].(info := p[neighbor].info.(flag := VALID, reqCnt := 0))])
    else s.(table := p)
  }

  // ---------------------------------------------------------------------
  // Receiving a request

  /** The request as it is passed on: one hop further, and with the node's own
      number for the destination when that is at least as new. */
  function Relayed(s: Node, h: Rreq, hop: U8): Rreq {
    if h.dst in s.table && KnowsDestination(s.table[h.dst].info, h)
    then h.(hopCount := hop, dstSeqNo := s.table[h.dst].info.seqNo, unknownSeqNo := false)
    else h.(hopCount := hop)
  }

  predicate KnowsDestination(e: Info, h: Rreq) {
    (h.unknownSeqNo || NotOlder(e.seqNo, h.dstSeqNo)) && e.validSeqNo
  }

  function ForwardRequest(s: Node, h: Rreq, ttl: U8, now: Time): Node {
    if ttl < 2 then s
    else
      s.(hello := if s.ifaces == [] then s.hello else s.hello.(lastBcast := now))
       .Send(OnEveryInterface(s.ifaces, RREQ(h), ttl - 1))
  }

  /** Answer, drop or pass on a request whose routes have been learned;
      `stale` is the reverse entry as last looked up. */
  function AnswerRequest(s: Node, h: Rreq, hop: U8, ttl: U8, src: Addr, stale: Entry, now: Time): Node {
    var s1 := s.(table := s.Purged(now));
    if s.IsMyOwnAddress(h.dst) then SendReply(s1, h, GetOr(s1.table, h.origin, stale))
    else if h.dst in s1.table && s1.table[h.dst].route.nextHop == src then s1
    else if h.dst in s1.table && KnowsDestination(s1.table[h.dst].info, h)
            && !h.destinationOnly && s1.table[h.dst].info.flag == VALID
    then SendReplyByIntermediateNode(s1, s1.table[h.dst], GetOr(s1.table, h.origin, stale), h.gratuitous, now)
    else ForwardRequest(s1, Relayed(s1, h, hop), ttl, now)
  }

  /** The routes that a request teaches. */
  function LearnFromRequest(s: Node, h: Rreq, hop: U8, src: Addr, rcv: Iface, now: Time): Node {
    var reverse := ReverseRoute(s.cfg, s.Purged(now), h, hop, src, rcv, now);
    var relay := RelayRoute(s.cfg, Purge(reverse, now, s.cfg.badLinkLifetime), h, src, rcv, now);
    UpdateNeighbor(s.(table := relay), src, s.cfg.HelloLifetime(), now)
  }

  /** The handler's own copy of the reverse entry before it looks it up again. */
  function StaleEntry(s: Node, h: Rreq, hop: U8, src: Addr, rcv: Iface, now: Time): Entry {
    if h.origin in s.table then ReverseEntry(s.cfg, s.table[h.origin], h, hop, src, rcv, now) else DefaultEntry(now)
  }

  /** A request seen for the first time. */
  function ProcessRequest(s: Node, h: Rreq, ttl: U8, src: Addr, rcv: Iface, now: Time): Node {
    var hop := Wrap8(h.hopCount + 1);
    var stale := StaleEntry(s, h, hop, src, rcv, now);
    AnswerRequest(LearnFromRequest(s, h, hop, src, rcv, now), h, hop, ttl, src, stale, now)
  }

  /** Requests from blacklisted neighbours and duplicates are dropped. */
  function RecvRequest(s: Node, h: Rreq, ttl: U8, src: Addr, rcv: Iface, now: Time): Node {
    var p := s.Purged(now);
    if src in p && p[src].info.blackList then s.(table := p)
    else
      var key := IdCaches.Key(h.origin, h.id);
      var s1 := s.(table := p, ids := IdCaches.Record(s.ids, key, s.cfg.idLifetime, now));
      if IdCaches.Duplicate(s.ids, key, now) then s1 else ProcessRequest(s1, h, ttl, src, rcv, now)
  }
}
