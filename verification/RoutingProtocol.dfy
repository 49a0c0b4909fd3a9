/** The protocol itself: one object per node, whose handlers update the routing
    table, the queue, the duplicate cache and the neighbour list in place.  Each
    is proved against the step function of the same name. */
module RoutingProtocols {
  import opened Base
  import opened Messages
  import opened RouteTable
  import opened NodeState
  import opened Discovery
  import opened LinkBreak
  import opened Routes
  import opened NodeEvents
  import opened LinkCut
  import opened RoutingTables
  import opened Flush
  import opened SeqNo
  import opened Packets
  import opened PacketHeaders
  import PacketQueue
  import RequestQueues
  import IdCaches

  /** The neighbour list; closed links are reported to its protocol object. */
  class Neighbors {
    var nb: seq<Neighbor>
    var timer: Option<Time>
    const delay: Time
    var handler: RoutingProtocol?

    constructor (delay: Time)
      ensures nb == [] && timer == None && this.delay == delay && handler == null
    {
      nb, timer, this.delay, handler := [], None, delay, null;
    }

    method ScheduleTimer(now: Time)
      modifies this`timer
      ensures timer == Some(now + delay)
    {
      timer := Some(now + delay);
    }

    method SetCallback(handler: RoutingProtocol)
      modifies this`handler
      ensures this.handler == handler
    {
      this.handler := handler;
    }

    /** Report every closed neighbour, then forget them. */
    method Purge(now: Time)
      requires handler != null && handler.nb == this && handler.Valid()
      modifies this`nb, this`timer, handler.table, handler`sent, handler`ctr
      ensures handler.Valid() && handler.table.Repr == old(handler.table.Repr)
      ensures handler.State() == PurgeNeighbors(old(handler.State()), now)
    {
      hide RouteTable.Purge, TableOk, Represents, RoutingTable.Valid, BreakLink, Filter;
      if nb == [] {
        return;
      }
      ghost var s := handler.State();
      ReportClosed(now);
      BreakAllKeeps(s, Filter(IsClosed(now), s.neighbors), now);
      RemoveClosed(now);
      timer := Some(now + delay);
    }

    /** The failure callback for every closed neighbour in turn. */
    method ReportClosed(now: Time)
      requires handler != null && handler.nb == this && handler.Valid()
      modifies handler.table, handler`sent, handler`ctr
      ensures handler.Valid() && handler.table.Repr == old(handler.table.Repr)
      ensures handler.State() == BreakAll(old(handler.State()), Filter(IsClosed(now), nb), now)
    {
      hide RouteTable.Purge, TableOk, Represents, RoutingTable.Valid, BreakLink, Filter;
      ghost var s := handler.State();
      for j := 0 to |nb|
        invariant nb == old(nb) && handler.Valid() && handler.table.Repr == old(handler.table.Repr)
        invariant BreakAll(handler.State(), Filter(IsClosed(now), nb[j..]), now)
                  == BreakAll(s, Filter(IsClosed(now), nb), now)
      {
        ClosedFirst(handler.State(), nb, j, now);
        if nb[j].expire < now || nb[j].close {
          handler.SendRerrWhenBreaksLinkToNextHop(nb[j].addr, now);
        }
      }
      ClosedNone(nb, now);
    }

    /** `remove_if` and `erase`. */
    method RemoveClosed(now: Time)
      modifies this`nb
      ensures nb == Filter(IsOpen(now), old(nb))
    {
      var kept := [];
      for i := 0 to |nb|
        invariant nb == old(nb) && kept == Filter(IsOpen(now), nb[..i])
      {
        FilterSnoc(IsOpen(now), nb, i);
        if !(nb[i].expire < now || nb[i].close) {
          kept := kept + [nb[i]];
        }
      }
      assert nb[..|nb|] == nb;
      nb := kept;
    }

    method Update(addr: Addr, expire: Time, now: Time)
      requires handler != null && handler.nb == this && handler.Valid()
      modifies this`nb, this`timer, handler.table, handler`sent, handler`ctr
      ensures handler.Valid() && handler.table.Repr == old(handler.table.Repr)
      ensures handler.State() == UpdateNeighbor(old(handler.State()), addr, expire, now)
    {
      hide RouteTable.Purge, TableOk, Represents, RoutingTable.Valid, PurgeNeighbors;
      for i := 0 to |nb|
        invariant handler.Valid() && handler.table.Repr == old(handler.table.Repr)
        invariant handler.State() == old(handler.State())
        invariant forall j :: 0 <= j < i ==> nb[j].addr != addr
      {
        if nb[i].addr == addr {
          assert NeighborIndex(nb, addr) == i;
          nb := nb[i := nb[i].(expire := Max(expire + now, nb[i].expire))];
          return;
        }
      }
      nb := nb + [Neighbor(addr, expire + now, false)];
      Purge(now);
    }

    /** A transmission error closes the neighbours in `hit`, those behind the
        MAC address that the frame did not reach. */
    method ProcessTxError(hit: set<Addr>, now: Time)
      requires handler != null && handler.nb == this && handler.Valid()
      modifies this`nb, this`timer, handler.table, handler`sent, handler`ctr
      ensures handler.Valid() && handler.table.Repr == old(handler.table.Repr)
      ensures handler.State() == LinkBreak.ProcessTxError(old(handler.State()), hit, now)
    {
      hide RouteTable.Purge, TableOk, Represents, RoutingTable.Valid, PurgeNeighbors;
      CloseHit(hit);
      Purge(now);
    }

    method CloseHit(hit: set<Addr>)
      modifies this`nb
      ensures nb == CloseNeighbors(old(nb), hit)
    {
      ghost var closed := CloseNeighbors(nb, hit);
      for i := 0 to |nb|
        invariant |nb| == |old(nb)|
        invariant forall j :: 0 <= j < i ==> nb[j] == closed[j]
        invariant forall j :: i <= j < |nb| ==> nb[j] == old(nb)[j]
      {
        if nb[i].addr in hit {
          nb := nb[i := nb[i].(close := true)];
        }
      }
    }
  }

  class RoutingProtocol {
    const cfg: Config
    const ifaces: seq<Iface>
    const table: RoutingTable
    const queue: RequestQueues.RequestQueue
    const cache: IdCaches.IdCache
    const nb: Neighbors
    var search: Search
    var ctr: Counters
    var hello: Hello
    var sent: seq<Sent>
    var delivered: seq<Delivery>

    ghost predicate Valid()
      reads this, table, table.Repr, queue, cache, nb
    {
      && table.Valid() && table.badLinkLifetime == cfg.badLinkLifetime
      && queue.maxLen == cfg.maxQueueLen && queue.queueTimeout == cfg.queueTimeout
      && cache.lifetime == cfg.idLifetime && nb.delay == cfg.neighborDelay
      && nb.handler == this && cfg.badLinkLifetime >= 0 && cfg.maxQueueLen >= 1
    }

    ghost function State(): Node
      reads this, table, queue, cache, nb
    {
      Node(cfg, ifaces, table.Contents, queue.queue, search, cache.idCache, nb.nb, nb.timer, ctr, hello,
           Log(sent, delivered, queue.errors))
    }

    constructor (cfg: Config, ifaces: seq<Iface>, now: Time)
      requires cfg.badLinkLifetime >= 0 && cfg.maxQueueLen >= 1
      ensures Valid() && fresh(table) && fresh(queue) && fresh(cache) && fresh(nb) && table.Repr == {}
      ensures State() == NewNode(cfg, ifaces, now)
    {
      this.cfg, this.ifaces := cfg, ifaces;
      table := new RoutingTable(cfg.badLinkLifetime);
      queue := new RequestQueues.RequestQueue(cfg.maxQueueLen, cfg.queueTimeout);
      cache := new IdCaches.IdCache(cfg.idLifetime);
      nb := new Neighbors(cfg.neighborDelay);
      search := Search(map[], multiset{}, 0, now + SECOND, false);
      ctr := Counters(0, 0, 0);
      hello := Hello(0, None);
      sent, delivered := [], [];
      new;
      nb.SetCallback(this);
    }

    // -------------------------------------------------------------------
    // Start

    method SetIpv4(lo: Device, now: Time)
      requires Valid()
      modifies table
      ensures Valid() && fresh(table.Repr - old(table.Repr))
      ensures table.Contents
              == Add(old(table.Contents), LocalRoute(LOOPBACK, LoopbackIface(lo), now), now, cfg.badLinkLifetime)
    {
      hide RouteTable.Purge, TableOk, Represents, RoutingTable.Valid;
      var rt := CreateEntry(lo, LOOPBACK, true, 0, LoopbackIface(lo), 1, LOOPBACK, FOREVER, now);
      var added := table.AddRoute(rt, now);
    }

    method NotifyInterfaceUp(iface: Iface, now: Time)
      requires Valid()
      modifies table
      ensures Valid() && fresh(table.Repr - old(table.Repr))
      ensures table.Contents
              == Add(old(table.Contents), LocalRoute(iface.broadcast, iface, now), now, cfg.badLinkLifetime)
    {
      hide RouteTable.Purge, TableOk, Represents, RoutingTable.Valid;
      var rt := CreateEntry(iface.dev, iface.broadcast, true, 0, iface, 1, iface.broadcast, FOREVER, now);
      var added := table.AddRoute(rt, now);
    }

    method Start(now: Time)
      requires Valid()
      modifies nb`timer, this`search
      ensures Valid() && search == old(search).(rateReset := now + SECOND)
      ensures nb.timer == if cfg.enableHello then Some(now + cfg.neighborDelay) else old(nb.timer)
    {
      hide RoutingTable.Valid;
      if cfg.enableHello {
        nb.ScheduleTimer(now);
      }
      search := search.(rateReset := now + SECOND);
    }

    method DoInitialize(jitter: Time, now: Time)
      modifies this`hello
      ensures hello == if cfg.enableHello then old(hello).(timer := Some(now + jitter)) else old(hello)
    {
      if cfg.enableHello {
        hello := hello.(timer := Some(now + jitter));
      }
    }

    /** The simulator's calls on a new node, one interface after the other. */
    method StartUp(lo: Device, jitter: Time, now: Time)
      requires Valid() && State() == NewNode(cfg, ifaces, now)
      modifies table, nb`timer, this`search, this`hello
      ensures Valid() && fresh(table.Repr - old(table.Repr))
      ensures State() == Started(cfg, ifaces, lo, jitter, now)
    {
      hide RouteTable.Purge, Add, TableOk, Represents, RoutingTable.Valid;
      SetIpv4(lo, now);
      ghost var t := table.Contents;
      for i := 0 to |ifaces|
        invariant Valid() && fresh(table.Repr - old(table.Repr))
        invariant AddBroadcastRoutes(table.Contents, ifaces[i..], now, cfg.badLinkLifetime)
               == AddBroadcastRoutes(t, ifaces, now, cfg.badLinkLifetime)
        invariant State() == NewNode(cfg, ifaces, now).(table := table.Contents)
      {
        assert ifaces[i..][1..] == ifaces[i + 1..];
        NotifyInterfaceUp(ifaces[i], now);
      }
      Start(now);
      DoInitialize(jitter, now);
    }

    // -------------------------------------------------------------------
    // Routes

    /** `RoutingTableEntry rt; m_routingTable.LookupRoute(id, rt)`. */
    method Lookup(id: Addr, now: Time) returns (found: bool, rt: RoutingTableEntry)
      requires Valid()
      modifies table
      ensures Valid() && table.Repr == old(table.Repr)
      ensures table.Contents == RouteTable.Purge(old(table.Contents), now, cfg.badLinkLifetime)
      ensures Current(table.Contents, now)
      ensures Current(old(table.Contents), now) ==> table.Contents == old(table.Contents)
      ensures found <==> id in table.Contents
      ensures rt.Value() == GetOr(table.Contents, id, DefaultEntry(now))
      ensures if found then table.Stored(id, rt)
              else fresh(rt.route) && rt.route !in table.Repr && rt.info.precursors == []
      ensures found ==> rt.route in table.Repr && rt.route.destination == id && Distinct(rt.info.precursors)
    {
      hide RouteTable.Purge, TableOk, Represents, Current, OnlyLoses, RoutingTable.Stored;
      PurgeIsCurrent(table.Contents, now, cfg.badLinkLifetime);
      if Current(table.Contents, now) { CurrentPurge(table.Contents, now, cfg.badLinkLifetime); }
      rt := CreateDefaultEntry(now);
      found, rt := table.LookupRoute(id, rt, now);
    }

    method UpdateRouteLifeTime(addr: Addr, lifetime: Time, now: Time) returns (updated: bool)
      requires Valid()
      modifies table
      ensures Valid() && fresh(table.Repr - old(table.Repr))
      ensures table.Contents == Refresh(old(table.Contents), addr, lifetime, now, cfg.badLinkLifetime)
      ensures updated <==> IsValid(RouteTable.Purge(old(table.Contents), now, cfg.badLinkLifetime), addr)
    {
      hide RouteTable.Purge, TableOk, Represents, RoutingTable.Valid, Current;
      var found, rt := Lookup(addr, now);
      updated := false;
      if found {
        if rt.info.flag == VALID {
          rt := rt.(info := rt.info.(reqCnt := 0, lifeTime := Max(lifetime, rt.info.GetLifeTime(now)) + now));
          updated := table.Update(rt);
        }
      }
    }

    method UpdateRouteToNeighbor(sender: Addr, rcv: Iface, now: Time)
      requires Valid()
      modifies table
      ensures Valid() && fresh(table.Repr - old(table.Repr))
      ensures table.Contents == RouteToNeighbor(cfg, old(table.Contents), sender, rcv, now)
    {
      hide RouteTable.Purge, TableOk, Represents, RoutingTable.Valid, Current;
      var found, toNeighbor := Lookup(sender, now);
      CurrentPurge(table.Contents, now, cfg.badLinkLifetime);
      if !found {
        var newEntry := CreateEntry(rcv.dev, sender, false, 0, rcv, 1, sender, cfg.activeRouteTimeout, now);
        var added := table.AddRoute(newEntry, now);
      } else if toNeighbor.info.validSeqNo && toNeighbor.info.hops == 1 && toNeighbor.route.outputDevice == rcv.dev {
        // The longer lifetime goes to the copy only.
        var lifetime := Max(cfg.activeRouteTimeout, toNeighbor.info.GetLifeTime(now));
        toNeighbor := toNeighbor.(info := toNeighbor.info.SetLifeTime(lifetime, now));
      } else {
        var newEntry := CreateEntry(rcv.dev, sender, false, 0, rcv, 1, sender,
                                    Max(cfg.activeRouteTimeout, toNeighbor.info.GetLifeTime(now)), now);
        var updated := table.Update(newEntry);
      }
    }

    // -------------------------------------------------------------------
    // Discovery

    method ScheduleRreqRetry(dst: Addr, now: Time)
      requires Valid() && Current(table.Contents, now)
      modifies table, this`search
      ensures Valid() && table.Contents == old(table.Contents) && table.Repr == old(table.Repr)
      ensures var e := GetOr(table.Contents, dst, DefaultEntry(now)).info;
              search == Discovery.ScheduleRreqRetry(old(search), cfg, dst, e, now)
    {
      hide RouteTable.Purge, TableOk, Represents, RoutingTable.Valid, Current, RoutingTable.Stored, Pow2;
      if dst !in search.timers {
        search := search.(timers := search.timers[dst := None]);
      }
      search := search.(timers := search.timers[dst := None]);
      var found, rt := Lookup(dst, now);
      var retry;
      if rt.info.hops < cfg.netDiameter {
        retry := 2 * cfg.nodeTraversalTime * (rt.info.hops + cfg.timeoutBuffer);
      } else {
        if rt.info.reqCnt == 0 {
          search := search.(aborted := true);
          return;
        }
        retry := cfg.netTraversalTime * Pow2(rt.info.reqCnt - 1);
      }
      search := search.(timers := search.timers[dst := Some(now + retry)]);
    }

    /** The first half of SendRequest: the entry for `dst` goes under search, and
        its hop field becomes the TTL of the request. */
    method StartSearch(dst: Addr, header: Rreq, now: Time) returns (h: Rreq, ttl: U16)
      requires Valid()
      modifies table
      ensures Valid() && fresh(table.Repr - old(table.Repr))
      ensures var p := RouteTable.Purge(old(table.Contents), now, cfg.badLinkLifetime);
              var known := dst in p && p[dst].info.validSeqNo;
              && table.Contents == p[dst := SearchEntry(cfg, p, dst, now)]
              && Current(table.Contents, now)
              && ttl == SearchEntry(cfg, p, dst, now).info.hops
              && h == header.(dstSeqNo := if known then p[dst].info.seqNo else header.dstSeqNo,
                              unknownSeqNo := if known then header.unknownSeqNo else true)
    {
      hide RouteTable.Purge, TableOk, Represents, RoutingTable.Valid, Current;
      h, ttl := header, cfg.ttlStart;
      var found, rt := Lookup(dst, now);
      ghost var p := table.Contents;
      CurrentPurge(p, now, cfg.badLinkLifetime);
      if found {
        if rt.info.flag != IN_SEARCH {
          ttl := Min(Wrap16(rt.info.hops + cfg.ttlIncrement), Wrap16(cfg.netDiameter));
        } else {
          ttl := Wrap16(rt.info.hops + cfg.ttlIncrement);
          if ttl > cfg.ttlThreshold {
            ttl := Wrap16(cfg.netDiameter);
          }
        }
        var reqCnt: U8 := rt.info.reqCnt;
        if ttl == cfg.netDiameter {
          reqCnt := Wrap8(reqCnt + 1);
        }
        if rt.info.validSeqNo {
          h := h.(dstSeqNo := rt.info.seqNo);
        } else {
          h := h.(unknownSeqNo := true);
        }
        rt :=
          rt.(info :=
                rt.info.(reqCnt := reqCnt, hops := ttl, flag := IN_SEARCH, lifeTime := cfg.pathDiscoveryTime + now));
        var updated := table.Update(rt);
      } else {
        h := h.(unknownSeqNo := true);
        var newEntry := CreateEntry(NO_DEVICE, dst, false, 0, NO_IFACE, ttl, NO_ADDR, cfg.pathDiscoveryTime, now);
        newEntry :=
          newEntry.(info := newEntry.info.(reqCnt := if ttl == cfg.netDiameter then 1 else 0, flag := IN_SEARCH));
        var added := table.AddRoute(newEntry, now);
      }
      CurrentWrite(p, dst, table.Contents[dst], now);
    }

    /** The second half: the header goes out on every interface. */
    method BroadcastRequest(header: Rreq, ttl: U16, ghost s: Node, ghost dst: Addr, now: Time)
      requires Valid() && forall a :: header.(origin := a) == RequestFor(s, dst, a, now)
      modifies cache, this`sent, this`hello
      ensures Valid()
      ensures cache.idCache == RecordOwn(old(cache.idCache), ifaces, header.id, cfg.idLifetime, now)
      ensures sent == old(sent) + Requests(s, ifaces, dst, Wrap8(ttl), now)
      ensures hello == if ifaces == [] then old(hello) else old(hello).(lastBcast := now)
    {
      hide RouteTable.Purge, TableOk, Represents, RoutingTable.Valid, RequestFor, IdCaches.Record, IdCaches.Duplicate,
           Requests;
      ghost var all := Requests(s, ifaces, dst, Wrap8(ttl), now);
      for i := 0 to |ifaces|
        invariant Valid()
        invariant RecordOwn(cache.idCache, ifaces[i..], header.id, cfg.idLifetime, now)
               == RecordOwn(old(cache.idCache), ifaces, header.id, cfg.idLifetime, now)
        invariant sent == old(sent) + all[..i]
        invariant hello == if i == 0 then old(hello) else old(hello).(lastBcast := now)
      {
        var iface := ifaces[i];
        assert ifaces[i..][1..] == ifaces[i + 1..];
        var duplicate := cache.IsDuplicate(iface.local, header.id, now);
        hello := hello.(lastBcast := now);
        sent := sent + [Sent(RREQ(header.(origin := iface.local)), Wrap8(ttl), iface, iface.BroadcastTarget())];
        assert all[..i + 1] == all[..i] + [all[i]];
      }
      assert all[..|ifaces|] == all;
    }

    /** The request itself; every interface puts its own address in as origin. */
    method CreateRequest(dst: Addr, now: Time) returns (header: Rreq, ttl: U16)
      requires Valid()
      modifies table, this`ctr
      ensures Valid() && fresh(table.Repr - old(table.Repr)) && Current(table.Contents, now)
      ensures var p := RouteTable.Purge(old(table.Contents), now, cfg.badLinkLifetime);
              && table.Contents == p[dst := SearchEntry(cfg, p, dst, now)]
              && ttl == SearchEntry(cfg, p, dst, now).info.hops
      ensures ctr == old(ctr).(seqNo := Wrap32(old(ctr).seqNo + 1), requestId := Wrap32(old(ctr).requestId + 1))
      ensures header.id == ctr.requestId && forall a :: header.(origin := a) == RequestFor(old(State()), dst, a, now)
    {
      hide RouteTable.Purge, TableOk, Represents, RoutingTable.Valid, SearchEntry, Current;
      header, ttl := StartSearch(dst, Rreq(false, false, false, 0, 0, dst, 0, NO_ADDR, 0), now);
      if cfg.gratuitousReply {
        header := header.(gratuitous := true);
      }
      if cfg.destinationOnly {
        header := header.(destinationOnly := true);
      }
      ctr := ctr.(seqNo := Wrap32(ctr.seqNo + 1));
      header := header.(originSeqNo := ctr.seqNo);
      ctr := ctr.(requestId := Wrap32(ctr.requestId + 1));
      header := header.(id := ctr.requestId);
    }

    /** SendRequest below the rate limit. */
    method Originate(dst: Addr, now: Time)
      requires Valid()
      modifies table, cache, this`search, this`ctr, this`hello, this`sent
      ensures Valid() && fresh(table.Repr - old(table.Repr))
      ensures State() == Discovery.Originate(old(State()), dst, now)
    {
      hide RouteTable.Purge, TableOk, Represents, RoutingTable.Valid, SearchEntry, Requests, RecordOwn, Current,
           Discovery.ScheduleRreqRetry, RequestFor;
      ghost var s := State();
      search := search.(rreqCount := Wrap16(search.rreqCount + 1));
      SameRequests(s, State(), dst, now);
      var header, ttl := CreateRequest(dst, now);
      BroadcastRequest(header, ttl, s, dst, now);
      ScheduleRreqRetry(dst, now);
    }

    method SendRequest(dst: Addr, now: Time)
      requires Valid()
      modifies table, cache, this`search, this`ctr, this`hello, this`sent
      ensures Valid() && fresh(table.Repr - old(table.Repr))
      ensures State() == Discovery.SendRequest(old(State()), dst, now)
    {
      hide RouteTable.Purge, TableOk, Represents, RoutingTable.Valid, Discovery.Originate;
      if search.rreqCount == cfg.rreqRateLimit {
        search := search.(postponed := search.postponed + multiset{(dst, search.rateReset + 100 * MICROSECOND)});
      } else {
        Originate(dst, now);
      }
    }

    /** A postponed call of SendRequest comes due. */
    method PostponedSendRequest(dst: Addr, at: Time, now: Time)
      requires Valid() && (dst, at) in search.postponed
      modifies table, cache, this`search, this`ctr, this`hello, this`sent
      ensures Valid() && fresh(table.Repr - old(table.Repr))
      ensures State() == PostponedRequest(old(State()), dst, at, now)
    {
      hide RouteTable.Purge, TableOk, Represents, RoutingTable.Valid, Discovery.SendRequest;
      search := search.(postponed := search.postponed - multiset{(dst, at)});
      SendRequest(dst, now);
    }

    /** Deliver the packets that waited for `dst`, one by one. */
    method SendPacketFromQueue(dst: Addr, route: Ipv4Route, now: Time)
      requires Valid()
      modifies queue, this`delivered
      ensures Valid()
      ensures State() == Discovery.SendPacketFromQueue(old(State()), dst, route.Value(), now)
    {
      hide TableOk, Represents, RoutingTable.Valid, Discovery.SendPacketFromQueue, Filter, PacketQueue.FirstFor;
      ghost var r := route.Value();
      while true
        invariant Valid() && route.Value() == r
        invariant Discovery.SendPacketFromQueue(State(), dst, r, now)
                  == Discovery.SendPacketFromQueue(old(State()), dst, r, now)
        decreases |queue.queue|
      {
        FlushStep(State(), dst, r, now);
        var entry := queue.Dequeue(dst, now);
        if entry.None? {
          return;
        }
        var p := entry.value;
        if p.oif != -1 && p.oif != route.outputDevice {
          return;
        }
        var header := p.header.(src := route.source);
        header := header.(ttl := Wrap8(header.ttl + 1));
        delivered := delivered + [Delivery(p.uid, header, route.Value())];
      }
    }

    /** The end of a search: forget timer and entry, fail the packets. */
    method StopSearch(dst: Addr, now: Time)
      requires Valid()
      modifies table, queue, this`search
      ensures Valid() && table.Repr == old(table.Repr)
      ensures State() == GiveUp(old(State()), dst, now)
    {
      hide RouteTable.Purge, TableOk, Represents, RoutingTable.Valid, PacketQueue.DropPacketWithDst;
      search := search.(timers := search.timers - {dst});
      var deleted := table.DeleteRoute(dst, now);
      queue.DropPacketWithDst(dst, now);
    }

    method RouteRequestTimerExpire(dst: Addr, now: Time)
      requires Valid()
      modifies table, queue, cache, this`search, this`ctr, this`hello, this`sent, this`delivered
      ensures Valid() && fresh(table.Repr - old(table.Repr))
      ensures State() == Discovery.RouteRequestTimerExpire(old(State()), dst, now)
    {
      hide RouteTable.Purge, TableOk, Represents, RoutingTable.Valid, Current, Discovery.SendPacketFromQueue,
           Discovery.SendRequest, PacketQueue.DropPacketWithDst, RoutingTable.Stored;
      var found, toDst := Lookup(dst, now);
      if found && toDst.info.flag == VALID {
        SendPacketFromQueue(dst, toDst.route, now);
        return;
      }
      if toDst.info.reqCnt == cfg.rreqRetries {
        CurrentPurge(table.Contents, now, cfg.badLinkLifetime);
        StopSearch(dst, now);
        return;
      }
      if toDst.info.flag == IN_SEARCH {
        SendRequest(dst, now);
      } else {
        CurrentPurge(table.Contents, now, cfg.badLinkLifetime);
        StopSearch(dst, now);
      }
    }

    method DeferredRouteOutput(packet: PacketQueue.QueueEntry, now: Time)
      requires Valid()
      modifies table, queue, cache, this`search, this`ctr, this`hello, this`sent
      ensures Valid() && fresh(table.Repr - old(table.Repr))
      ensures State() == Discovery.DeferredRouteOutput(old(State()), packet, now)
    {
      hide RouteTable.Purge, TableOk, Represents, RoutingTable.Valid, Current, Discovery.SendRequest,
           PacketQueue.Enqueue, PacketQueue.Accepts, RoutingTable.Stored;
      var queued := queue.Enqueue(packet, now);
      if queued {
        var result, rt := Lookup(packet.header.dst, now);
        if !result || rt.info.flag != IN_SEARCH {
          SendRequest(packet.header.dst, now);
        }
      }
    }

    // -------------------------------------------------------------------
    // Timers

    method RreqRateLimitTimerExpire(now: Time)
      modifies this`search
      ensures State() == Discovery.RreqRateLimitTimerExpire(old(State()), now)
    {
      search := search.(rreqCount := 0);
      search := search.(rateReset := now + SECOND);
    }

    method RerrRateLimitTimerExpire()
      modifies this`ctr
      ensures State() == LinkBreak.RerrRateLimitTimerExpire(old(State()))
    {
      ctr := ctr.(rerrCount := 0);
    }

    method HelloTimerExpire(now: Time)
      modifies this`hello, this`sent
      ensures State() == NodeEvents.HelloTimerExpire(old(State()), now)
    {
      var offset := 0;
      if hello.lastBcast > 0 {
        offset := now - hello.lastBcast;
      } else {
        SendHello();
      }
      hello := hello.(timer := Some(now + Max(0, cfg.helloInterval - offset)));
      hello := hello.(lastBcast := 0);
    }

    method SendHello()
      modifies this`sent
      ensures sent == old(sent) + Hellos(old(State()), ifaces)
    {
      ghost var s := State();
      for i := 0 to |ifaces|
        invariant sent + Hellos(s, ifaces[i..]) == old(sent) + Hellos(s, ifaces)
      {
        var iface := ifaces[i];
        var hello := Rrep(false, 0, iface.local, ctr.seqNo, iface.local, ToMilliseconds(cfg.HelloLifetime()));
        assert ifaces[i..][1..] == ifaces[i + 1..];
        assert Hellos(s, ifaces[i..])
            == [Sent(RREP(hello), 1, iface, iface.BroadcastTarget())] + Hellos(s, ifaces[i + 1..]);
        sent := sent + [Sent(RREP(hello), 1, iface, iface.BroadcastTarget())];
      }
    }

    // -------------------------------------------------------------------
    // Route errors

    /** The distinct interfaces over which valid routes to the precursors go. */
    method PrecursorInterfaces(precursors: seq<Addr>, now: Time) returns (found: seq<Iface>)
      requires Valid() && Current(table.Contents, now)
      modifies table
      ensures Valid() && table.Contents == old(table.Contents) && table.Repr == old(table.Repr)
      ensures found == PrecursorIfaces(table.Contents, precursors, [])
    {
      hide RouteTable.Purge, TableOk, Represents, RoutingTable.Valid, Current, RoutingTable.Stored;
      found := [];
      for i := 0 to |precursors|
        invariant Valid() && table.Contents == old(table.Contents) && table.Repr == old(table.Repr)
        invariant PrecursorIfaces(table.Contents, precursors[i..], found)
                  == PrecursorIfaces(table.Contents, precursors, [])
      {
        assert precursors[i..][1..] == precursors[i + 1..];
        var known, toPrecursor := Lookup(precursors[i], now);
        if known && toPrecursor.info.flag == VALID && toPrecursor.info.iface !in found {
          found := found + [toPrecursor.info.iface];
        }
      }
    }

    method SendRerrMessage(rerr: Rerr, precursors: seq<Addr>, now: Time)
      requires Valid() && Current(table.Contents, now)
      modifies table, this`sent, this`ctr
      ensures Valid() && table.Repr == old(table.Repr)
      ensures State() == LinkBreak.SendRerrMessage(old(State()), rerr, precursors)
    {
      hide RouteTable.Purge, TableOk, Represents, RoutingTable.Valid, Current, RoutingTable.Stored, PrecursorIfaces;
      if precursors == [] || ctr.rerrCount == cfg.rerrRateLimit {
        return;
      }
      if |precursors| == 1 {
        var known, toPrecursor := Lookup(precursors[0], now);
        if known && toPrecursor.info.flag == VALID {
          sent := sent + [Sent(RERR(rerr), 1, toPrecursor.info.iface, precursors[0])];
          ctr := ctr.(rerrCount := Wrap16(ctr.rerrCount + 1));
        }
        return;
      }
      var found := PrecursorInterfaces(precursors, now);
      BroadcastOver(found, RERR(rerr), 1);
    }

    /** One copy of the message on each of the interfaces. */
    method BroadcastOver(over: seq<Iface>, msg: Message, ttl: U8)
      modifies this`sent
      ensures sent == old(sent) + OnEveryInterface(over, msg, ttl)
    {
      ghost var all := OnEveryInterface(over, msg, ttl);
      for i := 0 to |over|
        invariant sent == old(sent) + all[..i]
      {
        sent := sent + [Sent(msg, ttl, over[i], over[i].BroadcastTarget())];
        assert all[..i + 1] == all[..i] + [all[i]];
      }
      assert all[..|over|] == all;
    }

    /** List the destinations in the message and collect their precursors; the
        source's branch for a full message is never taken, since
        `AddUnDestination` never fails. */
    method ListUnreachable(rerrHeader: RerrHeader, unreachable: map<Addr, U32>, prec: seq<Addr>, now: Time)
      returns (precursors: seq<Addr>)
      requires Valid() && Current(table.Contents, now) && unreachable.Keys <= table.Contents.Keys
      modifies table, rerrHeader`unreachable
      ensures Valid() && table.Contents == old(table.Contents) && table.Repr == old(table.Repr)
      ensures rerrHeader.unreachable == unreachable + old(rerrHeader.unreachable)
      ensures precursors == CollectPrecursors(table.Contents, SortedKeys(unreachable.Keys), prec)
    {
      hide RouteTable.Purge, TableOk, Represents, RoutingTable.Valid, Current, RoutingTable.Stored, SortedKeys,
           CollectPrecursors, PushAllNew, ListedSoFar;
      precursors := prec;
      var todo := unreachable.Keys;
      ghost var before := rerrHeader.unreachable;
      NothingListed(before, unreachable);
      while todo != {}
        invariant Valid() && table.Contents == old(table.Contents) && table.Repr == old(table.Repr)
        invariant todo <= unreachable.Keys
        invariant ListedSoFar(before, rerrHeader.unreachable, unreachable, todo)
        invariant CollectPrecursors(table.Contents, SortedKeys(todo), precursors)
               == CollectPrecursors(table.Contents, SortedKeys(unreachable.Keys), prec)
      {
        var k := Least(todo);
        CollectStep(table.Contents, todo, precursors);
        ListedStep(before, rerrHeader.unreachable, unreachable, todo, k);
        todo := todo - {k};
        var added := rerrHeader.AddUnDestination(k, unreachable[k]);
        var known, toDst := Lookup(k, now);
        precursors := toDst.GetPrecursors(precursors);
      }
      ListedAll(before, rerrHeader.unreachable, unreachable);
      NothingToCollect(table.Contents, precursors);
    }

    /** Report the lost neighbour and everything behind it. */
    method ReportLostLink(nextHop: Addr, toNextHop: RoutingTableEntry, now: Time) returns (unreachable: map<Addr, U32>)
      requires Valid() && Current(table.Contents, now)
      requires nextHop in table.Contents && toNextHop.Value() == table.Contents[nextHop]
      modifies table, this`sent, this`ctr
      ensures Valid() && table.Repr == old(table.Repr)
      ensures unreachable == RoutedVia(old(table.Contents), nextHop)
      ensures var s := old(State());
              var lost := LostDestinations(s.table, nextHop);
              State() == if Wrap8(|lost|) == 0 then s
                         else LinkBreak.SendRerrMessage(s, Rerr(0, 0, lost), LostPrecursors(s.table, nextHop))
    {
      hide RouteTable.Purge, TableOk, Represents, RoutingTable.Valid, Current, RoutingTable.Stored,
           LinkBreak.SendRerrMessage, CollectPrecursors, SortedKeys, PushAllNew, LostDestinations, RoutedVia;
      ghost var p := table.Contents;
      var precursors := toNextHop.GetPrecursors([]);
      var rerrHeader := new RerrHeader();
      var added := rerrHeader.AddUnDestination(nextHop, toNextHop.info.seqNo);
      CurrentPurge(p, now, cfg.badLinkLifetime);
      unreachable := table.GetListOfDestinationWithNextHop(nextHop, now);
      RoutedViaKeys(p, nextHop);
      precursors := ListUnreachable(rerrHeader, unreachable, precursors, now);
      LostIs(p, nextHop, unreachable, rerrHeader.unreachable);
      if Wrap8(|rerrHeader.unreachable|) != 0 {
        SendRerrMessage(Rerr(rerrHeader.flag, rerrHeader.reserved, rerrHeader.unreachable), precursors, now);
      }
    }

    method SendRerrWhenBreaksLinkToNextHop(nextHop: Addr, now: Time)
      requires Valid()
      modifies table, this`sent, this`ctr
      ensures Valid() && table.Repr == old(table.Repr)
      ensures State() == BreakLink(old(State()), nextHop, now)
    {
      hide RouteTable.Purge, TableOk, Represents, RoutingTable.Valid, Current, RoutingTable.Stored,
           LinkBreak.SendRerrMessage, LostPrecursors, InvalidateAll, RoutedVia;
      ghost var s := State();
      var found, toNextHop := Lookup(nextHop, now);
      if found {
        ghost var p := table.Contents;
        var unreachable := ReportLostLink(nextHop, toNextHop, now);
        SendRerrTable(s.(table := p), Rerr(0, 0, LostDestinations(p, nextHop)), LostPrecursors(p, nextHop));
        CurrentPurge(p, now, cfg.badLinkLifetime);
        if nextHop !in unreachable {
          unreachable := unreachable[nextHop := toNextHop.info.seqNo];
        }
        assert unreachable.Keys == LostDestinations(p, nextHop).Keys;
        table.InvalidateRoutesWithDst(unreachable, now);
      }
    }

    /** The nested loop of RecvError drains the message, least address first, and
        keeps what the node reaches through the sender. */
    method DrainUnreachable(rerrHeader: RerrHeader, viaSender: map<Addr, U32>) returns (unreachable: map<Addr, U32>)
      modifies rerrHeader`unreachable
      ensures rerrHeader.unreachable == map[]
      ensures var listed := old(rerrHeader.unreachable);
              unreachable == map k | k in listed && k in viaSender :: listed[k]
    {
      unreachable := map[];
      ghost var all := rerrHeader.unreachable;
      while true
        invariant KeptSoFar(all, rerrHeader.unreachable, viaSender, unreachable)
        decreases rerrHeader.unreachable.Keys
      {
        ghost var rest := rerrHeader.unreachable;
        var un := rerrHeader.RemoveUnDestination();
        if un.None? {
          return;
        }
        var kept := KeepIfRouted(un.value, viaSender, unreachable);
        KeptStep(all, rest, viaSender, unreachable, un.value);
        unreachable := kept;
      }
    }

    /** The inner scan of one removed pair against the routes through the sender. */
    method KeepIfRouted(un: Pair, viaSender: map<Addr, U32>, unreachable: map<Addr, U32>) returns (r: map<Addr, U32>)
      ensures r == if un.addr in viaSender then InsertPair(unreachable, un) else unreachable
    {
      r := unreachable;
      var todo := viaSender.Keys;
      while todo != {}
        invariant todo <= viaSender.Keys
        invariant r == if un.addr in viaSender && un.addr !in todo then InsertPair(unreachable, un) else unreachable
      {
        var i := Least(todo);
        todo := todo - {i};
        if i == un.addr && un.addr !in r {
          r := r[un.addr := un.seqNo];
        }
      }
    }

    /** Rebuild the drained message from the affected destinations and pass it on. */
    method ReportAffected(rerrHeader: RerrHeader, unreachable: map<Addr, U32>, now: Time)
      requires Valid() && Current(table.Contents, now) && unreachable.Keys <= table.Contents.Keys
      requires rerrHeader.unreachable == map[]
      modifies table, rerrHeader`unreachable, this`sent, this`ctr
      ensures Valid() && table.Repr == old(table.Repr)
      ensures var s := old(State());
              State() == if Wrap8(|unreachable|) == 0 then s
                         else LinkBreak.SendRerrMessage(s, Rerr(rerrHeader.flag, rerrHeader.reserved, unreachable),
                                                        CollectPrecursors(s.table, SortedKeys(unreachable.Keys), []))
    {
      hide RouteTable.Purge, TableOk, Represents, RoutingTable.Valid, Current, LinkBreak.SendRerrMessage,
           CollectPrecursors, SortedKeys;
      var precursors := ListUnreachable(rerrHeader, unreachable, [], now);
      assert rerrHeader.unreachable == unreachable;
      if Wrap8(|rerrHeader.unreachable|) != 0 {
        SendRerrMessage(Rerr(rerrHeader.flag, rerrHeader.reserved, rerrHeader.unreachable), precursors, now);
      }
    }

    method RecvError(rerrHeader: RerrHeader, src: Addr, now: Time)
      requires Valid()
      modifies table, rerrHeader`unreachable, this`sent, this`ctr
      ensures Valid() && table.Repr == old(table.Repr)
      ensures State() == LinkBreak.RecvError(old(State()), old(rerrHeader.Value()), src, now)
    {
      hide RouteTable.Purge, TableOk, Represents, RoutingTable.Valid, Current, LinkBreak.SendRerrMessage,
           CollectPrecursors, SortedKeys, InvalidateAll, RoutedVia, Affected;
      ghost var s, rerr := State(), rerrHeader.Value();
      PurgeIsCurrent(table.Contents, now, cfg.badLinkLifetime);
      var viaSender := table.GetListOfDestinationWithNextHop(src, now);
      ghost var p := table.Contents;
      var unreachable := DrainUnreachable(rerrHeader, viaSender);
      AffectedIs(p, rerr.unreachable, src, viaSender);
      ReportAffected(rerrHeader, unreachable, now);
      SendRerrTable(s.(table := p), rerr.(unreachable := unreachable),
                    CollectPrecursors(p, SortedKeys(unreachable.Keys), []));
      CurrentPurge(p, now, cfg.badLinkLifetime);
      table.InvalidateRoutesWithDst(unreachable, now);
    }

    method SendRerrWhenNoRouteToForward(dst: Addr, dstSeqNo: U32, origin: Addr, now: Time)
      requires Valid()
      modifies table, this`sent
      ensures Valid() && table.Repr == old(table.Repr)
      ensures State() == RerrNoRoute(old(State()), dst, dstSeqNo, origin, now)
    {
      hide RouteTable.Purge, TableOk, Represents, RoutingTable.Valid, Current, RoutingTable.Stored;
      if ctr.rerrCount == cfg.rerrRateLimit {
        return;
      }
      var rerrHeader := new RerrHeader();
      var added := rerrHeader.AddUnDestination(dst, dstSeqNo);
      var msg := RERR(Rerr(rerrHeader.flag, rerrHeader.reserved, rerrHeader.unreachable));
      assert rerrHeader.unreachable == map[dst := dstSeqNo];
      var known, toOrigin := Lookup(origin, now);
      if known && toOrigin.info.flag == VALID {
        sent := sent + [Sent(msg, 1, toOrigin.info.iface, toOrigin.route.gateway)];
      } else {
        BroadcastOver(ifaces, msg, 1);
      }
    }

    // -------------------------------------------------------------------
    // Requests

    method IsMyOwnAddress(addr: Addr) returns (mine: bool)
      ensures mine <==> State().IsMyOwnAddress(addr)
    {
      for i := 0 to |ifaces|
        invariant forall j :: 0 <= j < i ==> ifaces[j].local != addr
      {
        if ifaces[i].local == addr {
          return true;
        }
      }
      return false;
    }

    /** Point a looked-up copy elsewhere; the stored entry follows at once. */
    method Redirect(rt: RoutingTableEntry, nextHop: Addr, dev: Device)
      requires Valid() && table.Stored(rt.route.destination, rt)
      modifies rt.route`gateway, rt.route`outputDevice, table`Contents
      ensures Valid() && table.Stored(rt.route.destination, rt)
      ensures rt.Value() == old(rt.Value()).(route := old(rt.Value()).route.(nextHop := nextHop, dev := dev))
      ensures table.Contents == old(table.Contents)[rt.route.destination := rt.Value()]
    {
      hide RouteTable.Purge, TableOk, Represents, RoutingTable.Valid;
      StoredValue(rt);
      table.SetNextHop(rt, nextHop);
      table.SetOutputDevice(rt, dev);
    }

    lemma StoredValue(rt: RoutingTableEntry)
      requires table.Valid() && table.Stored(rt.route.destination, rt)
      ensures rt.route.destination in table.Contents && table.Contents[rt.route.destination] == rt.Value()
    {
    }

    /** The reverse route.  The copy that the handler keeps shares its route
        object with the stored entry. */
    method LearnOrigin(h: Rreq, hop: U8, src: Addr, rcv: Iface, now: Time) returns (toOrigin: RoutingTableEntry)
      requires Valid() && Current(table.Contents, now)
      modifies table, table.Repr
      ensures Valid() && fresh(table.Repr - old(table.Repr))
      ensures table.Contents == ReverseRoute(cfg, old(table.Contents), h, hop, src, rcv, now)
      ensures toOrigin.Value() == if h.origin in old(table.Contents)
                                  then ReverseEntry(cfg, old(table.Contents)[h.origin], h, hop, src, rcv, now)
                                  else DefaultEntry(now)
      ensures toOrigin.route in table.Repr ==> toOrigin.route.gateway == src && toOrigin.route.outputDevice == rcv.dev
      ensures toOrigin.route in table.Repr || fresh(toOrigin.route)
    {
      hide RouteTable.Purge, TableOk, Represents, RoutingTable.Valid, Current, RoutingTable.Stored, Distinct;
      ghost var p := table.Contents;
      var found;
      found, toOrigin := Lookup(h.origin, now);
      if !found {
        var newEntry :=
          CreateEntry(rcv.dev, h.origin, true, h.originSeqNo, rcv, hop, src, ReverseLifetime(cfg, hop), now);
        CurrentPurge(p, now, cfg.badLinkLifetime);
        var added := table.AddRoute(newEntry, now);
      } else {
        var seqNo := toOrigin.info.seqNo;
        if toOrigin.info.validSeqNo {
          if Newer(h.originSeqNo, toOrigin.info.seqNo) {
            seqNo := h.originSeqNo;
          }
        } else {
          seqNo := h.originSeqNo;
        }
        Redirect(toOrigin, src, rcv.dev);
        toOrigin := toOrigin.(info := toOrigin.info.(seqNo := seqNo, validSeqNo := true, iface := rcv, hops := hop,
                              lifeTime := Max(ReverseLifetime(cfg, hop), toOrigin.info.GetLifeTime(now)) + now));
        var updated := table.Update(toOrigin);
      }
    }

    /** The route to the node that relayed the request; writing through a shared
        route object leaves the other copy `o` as it is. */
    method LearnNeighbor(h: Rreq, src: Addr, rcv: Iface, ghost o: RoutingTableEntry, now: Time)
      requires Valid()
      requires o.route in table.Repr ==> o.route.gateway == src && o.route.outputDevice == rcv.dev
      modifies table, table.Repr
      ensures Valid() && fresh(table.Repr - old(table.Repr))
      ensures table.Contents
              == RelayRoute(cfg, RouteTable.Purge(old(table.Contents), now, cfg.badLinkLifetime), h, src, rcv, now)
      ensures o.Value() == old(o.Value())
    {
      hide RouteTable.Purge, TableOk, Represents, RoutingTable.Valid, Current, RoutingTable.Stored, Distinct;
      var found, toNeighbor := Lookup(src, now);
      ghost var p := table.Contents;
      if !found {
        var newEntry := CreateEntry(rcv.dev, src, false, h.originSeqNo, rcv, 1, src, cfg.activeRouteTimeout, now);
        CurrentPurge(p, now, cfg.badLinkLifetime);
        var added := table.AddRoute(newEntry, now);
      } else {
        Redirect(toNeighbor, src, rcv.dev);
        toNeighbor := toNeighbor.(info := toNeighbor.info.(
          lifeTime := cfg.activeRouteTimeout + now, validSeqNo := false, seqNo := h.originSeqNo,
          flag := VALID, iface := rcv, hops := 1));
        var updated := table.Update(toNeighbor);
      }
    }

    /** The destination's answer along the reverse route. */
    method SendReply(h: Rreq, toOrigin: RoutingTableEntry)
      modifies this`ctr, this`sent
      ensures State() == Routes.SendReply(old(State()), h, toOrigin.Value())
    {
      if !h.unknownSeqNo && h.dstSeqNo == Wrap32(ctr.seqNo + 1) {
        ctr := ctr.(seqNo := Wrap32(ctr.seqNo + 1));
      }
      var reply := Rrep(false, 0, h.dst, ctr.seqNo, toOrigin.route.destination, ToMilliseconds(cfg.myRouteTimeout));
      sent := sent + [Sent(RREP(reply), Wrap8(toOrigin.info.hops), toOrigin.info.iface, toOrigin.route.gateway)];
    }

    /** Each route's next hop becomes a precursor of the other. */
    method ExchangePrecursors(toDst0: RoutingTableEntry, toOrigin0: RoutingTableEntry)
      returns (toDst: RoutingTableEntry, toOrigin: RoutingTableEntry)
      requires Valid() && Distinct(toDst0.info.precursors) && Distinct(toOrigin0.info.precursors)
      modifies table
      ensures Valid() && table.Repr == old(table.Repr) + {toDst0.route, toOrigin0.route}
      ensures toDst == toDst0.(info := toDst0.info.InsertPrecursor(toOrigin0.route.gateway))
      ensures toOrigin == toOrigin0.(info := toOrigin0.info.InsertPrecursor(toDst0.route.gateway))
      ensures table.Contents
              == RouteTable.Update(RouteTable.Update(old(table.Contents), toDst.Value()), toOrigin.Value())
    {
      hide RouteTable.Purge, TableOk, Represents, RoutingTable.Valid, PushNew, RouteTable.Update, Distinct;
      var inserted;
      toDst, inserted := toDst0.InsertPrecursor(toOrigin0.route.gateway);
      toOrigin, inserted := toOrigin0.InsertPrecursor(toDst.route.gateway);
      StillDistinct(toDst0.info.precursors, toOrigin.route.gateway);
      StillDistinct(toOrigin0.info.precursors, toDst.route.gateway);
      var updated := table.Update(toDst);
      updated := table.Update(toOrigin);
    }

    /** A reply about one entry, sent along the other. */
    method SendReplyAbout(about: RoutingTableEntry, along: RoutingTableEntry, ackRequired: bool, now: Time)
      modifies this`sent
      ensures sent == old(sent) + [Sent(
        RREP(Rrep(ackRequired, Wrap8(about.info.hops), about.route.destination, about.info.seqNo,
                  along.route.destination, ToMilliseconds(about.info.GetLifeTime(now)))),
        Wrap8(along.info.hops), along.info.iface, along.route.gateway)]
    {
      var reply := Rrep(ackRequired, Wrap8(about.info.hops), about.route.destination, about.info.seqNo,
                        along.route.destination, ToMilliseconds(about.info.GetLifeTime(now)));
      sent := sent + [Sent(RREP(reply), Wrap8(along.info.hops), along.info.iface, along.route.gateway)];
    }

    method SendReplyByIntermediateNode(toDst0: RoutingTableEntry, toOrigin0: RoutingTableEntry, gratRep: bool,
                                       now: Time)
      requires Valid() && Distinct(toDst0.info.precursors) && Distinct(toOrigin0.info.precursors)
      requires Current(table.Contents, now)
      modifies table, this`sent
      ensures Valid() && table.Repr == old(table.Repr) + {toDst0.route, toOrigin0.route}
      ensures State()
              == Routes.SendReplyByIntermediateNode(old(State()), toDst0.Value(), toOrigin0.Value(), gratRep, now)
    {
      hide RouteTable.Purge, TableOk, Represents, RoutingTable.Valid, Current, PushNew, ToMilliseconds,
           RouteTable.Update, Distinct, RoutingTable.Stored;
      if toDst0.info.hops == 1 {
        var known, toNextHop := Lookup(toOrigin0.route.gateway, now);
      }
      var toDst, toOrigin := ExchangePrecursors(toDst0, toOrigin0);
      SendReplyAbout(toDst, toOrigin, toDst.info.hops == 1, now);
      if gratRep {
        SendReplyAbout(toOrigin, toDst, false, now);
      }
    }

    method ForwardRequest(h: Rreq, ttl: U8, now: Time)
      modifies this`sent, this`hello
      ensures State() == Routes.ForwardRequest(old(State()), h, ttl, now)
    {
      if ttl < 2 {
        return;
      }
      ghost var all := OnEveryInterface(ifaces, RREQ(h), ttl - 1);
      for i := 0 to |ifaces|
        invariant sent == old(sent) + all[..i]
        invariant hello == if i == 0 then old(hello) else old(hello).(lastBcast := now)
      {
        hello := hello.(lastBcast := now);
        sent := sent + [Sent(RREQ(h), ttl - 1, ifaces[i], ifaces[i].BroadcastTarget())];
        assert all[..i + 1] == all[..i] + [all[i]];
      }
      assert all[..|ifaces|] == all;
    }

    /** Look an entry up again over the handler's own copy. */
    method LookupAgain(id: Addr, rt0: RoutingTableEntry, now: Time) returns (rt: RoutingTableEntry)
      requires Valid()
      modifies table
      ensures Valid() && table.Repr == old(table.Repr)
      ensures table.Contents == RouteTable.Purge(old(table.Contents), now, cfg.badLinkLifetime)
      ensures Current(old(table.Contents), now) ==> table.Contents == old(table.Contents)
      ensures rt.Value() == GetOr(table.Contents, id, rt0.Value())
      ensures rt.route in table.Repr || rt == rt0
      ensures Distinct(rt0.info.precursors) ==> Distinct(rt.info.precursors)
    {
      hide RouteTable.Purge, TableOk, Represents, RoutingTable.Valid, Current;
      if Current(table.Contents, now) { CurrentPurge(table.Contents, now, cfg.badLinkLifetime); }
      var found;
      found, rt := table.LookupRoute(id, rt0, now);
    }

    /** Answer, drop or pass on a request whose routes have been learned. */
    method AnswerRequest(h: Rreq, hop: U8, ttl: U8, src: Addr, toOrigin: RoutingTableEntry, now: Time)
      requires Valid() && Distinct(toOrigin.info.precursors)
      modifies table, this`ctr, this`sent, this`hello
      ensures Valid() && fresh(table.Repr - old(table.Repr) - {toOrigin.route})
      ensures State() == Routes.AnswerRequest(old(State()), h, hop, ttl, src, toOrigin.Value(), now)
    {
      hide RouteTable.Purge, TableOk, Represents, RoutingTable.Valid, Current, Routes.SendReply,
           Routes.SendReplyByIntermediateNode, Routes.ForwardRequest, Distinct, KnowsDestination;
      var mine := IsMyOwnAddress(h.dst);
      table.Purge(now);
      PurgeIsCurrent(old(table.Contents), now, cfg.badLinkLifetime);
      if mine {
        var o := LookupAgain(h.origin, toOrigin, now);
        SendReply(h, o);
      } else {
        AnswerForOther(h, hop, ttl, src, toOrigin, now);
      }
    }

    /** The rest of it, at a node that is not the destination. */
    method AnswerForOther(h: Rreq, hop: U8, ttl: U8, src: Addr, toOrigin: RoutingTableEntry, now: Time)
      requires Valid() && Distinct(toOrigin.info.precursors) && Current(table.Contents, now)
      modifies table, this`sent, this`hello
      ensures Valid() && fresh(table.Repr - old(table.Repr) - {toOrigin.route})
      ensures var s := old(State());
              var known := h.dst in s.table && KnowsDestination(s.table[h.dst].info, h);
              State() ==
                if h.dst in s.table && s.table[h.dst].route.nextHop == src then s
                else if known && !h.destinationOnly && s.table[h.dst].info.flag == VALID
                then Routes.SendReplyByIntermediateNode(s, s.table[h.dst], GetOr(s.table, h.origin, toOrigin.Value()),
                                                        h.gratuitous, now)
                else Routes.ForwardRequest(s, Relayed(s, h, hop), ttl, now)
    {
      hide RouteTable.Purge, TableOk, Represents, RoutingTable.Valid, Current, Routes.SendReplyByIntermediateNode,
           Routes.ForwardRequest, Distinct;
      var found, toDst := Lookup(h.dst, now);
      if found && toDst.route.gateway == src {
        return;
      }
      var header := h.(hopCount := hop);
      if found && (h.unknownSeqNo || NotOlder(toDst.info.seqNo, h.dstSeqNo)) && toDst.info.validSeqNo {
        if !h.destinationOnly && toDst.info.flag == VALID {
          var o := LookupAgain(h.origin, toOrigin, now);
          SendReplyByIntermediateNode(toDst, o, h.gratuitous, now);
          return;
        }
        header := header.(dstSeqNo := toDst.info.seqNo, unknownSeqNo := false);
      }
      ForwardRequest(header, ttl, now);
    }

    /** A request seen for the first time. */
    method ProcessRequest(h: Rreq, ttl: U8, src: Addr, rcv: Iface, now: Time)
      requires Valid() && Current(table.Contents, now)
      modifies table, table.Repr, nb, this`ctr, this`sent, this`hello
      ensures Valid() && fresh(table.Repr - old(table.Repr))
      ensures State() == Routes.ProcessRequest(old(State()), h, ttl, src, rcv, now)
    {
      hide RouteTable.Purge, TableOk, Represents, RoutingTable.Valid, Current, Routes.AnswerRequest, ReverseRoute,
           RelayRoute, UpdateNeighbor, ReverseEntry, Distinct;
      CurrentPurge(table.Contents, now, cfg.badLinkLifetime);
      var hop := Wrap8(h.hopCount + 1);
      StaleDistinct(State(), h, hop, src, rcv, now);
      var toOrigin := LearnOrigin(h, hop, src, rcv, now);
      LearnNeighbor(h, src, rcv, toOrigin, now);
      nb.Update(src, cfg.HelloLifetime(), now);
      AnswerRequest(h, hop, ttl, src, toOrigin, now);
    }

    lemma StaleDistinct(s: Node, h: Rreq, hop: U8, src: Addr, rcv: Iface, now: Time)
      requires Valid() && s.table == table.Contents
      ensures Distinct(StaleEntry(s, h, hop, src, rcv, now).info.precursors)
    {
      assert h.origin in s.table ==> EntryOk(h.origin, s.table[h.origin]);
    }

    method RecvRequest(h: Rreq, ttl: U8, src: Addr, rcv: Iface, now: Time)
      requires Valid()
      modifies table, table.Repr, nb, cache, this`ctr, this`sent, this`hello
      ensures Valid() && fresh(table.Repr - old(table.Repr))
      ensures State() == Routes.RecvRequest(old(State()), h, ttl, src, rcv, now)
    {
      hide RouteTable.Purge, TableOk, Represents, RoutingTable.Valid, Current, Routes.ProcessRequest, IdCaches.Record,
           IdCaches.Duplicate, RoutingTable.Stored;
      var known, toPrev := Lookup(src, now);
      if known && toPrev.info.blackList {
        return;
      }
      var duplicate := cache.IsDuplicate(h.origin, h.id, now);
      if duplicate {
        return;
      }
      ProcessRequest(h, ttl, src, rcv, now);
    }

    // -------------------------------------------------------------------
    // Replies

    method SendReplyAck(neighbor: Addr, now: Time)
      requires Valid()
      modifies table, this`sent
      ensures Valid() && table.Repr == old(table.Repr)
      ensures State() == Routes.SendReplyAck(old(State()), neighbor, now)
    {
      hide RouteTable.Purge, TableOk, Represents, RoutingTable.Valid, Current, RoutingTable.Stored;
      var known, toNeighbor := Lookup(neighbor, now);
      sent := sent + [Sent(RREP_ACK, 1, toNeighbor.info.iface, neighbor)];
    }

    method RecvReplyAck(neighbor: Addr, now: Time)
      requires Valid()
      modifies table
      ensures Valid() && table.Repr == old(table.Repr)
      ensures State() == Routes.RecvReplyAck(old(State()), neighbor, now)
    {
      hide RouteTable.Purge, TableOk, Represents, RoutingTable.Valid, Current;
      var known, rt := Lookup(neighbor, now);
      if known {
        rt := rt.(info := rt.info.(flag := VALID));
        var updated := table.Update(rt);
      }
    }

    /** The neighbour that a hello announces. */
    method LearnFromHello(h: Rrep, rcv: Iface, now: Time)
      requires Valid()
      modifies table, table.Repr
      ensures Valid() && fresh(table.Repr - old(table.Repr))
      ensures table.Contents == HelloTable(old(State()), h, rcv, now)
    {
      hide RouteTable.Purge, TableOk, Represents, RoutingTable.Valid, Current, RoutingTable.Stored, Distinct;
      var found, toNeighbor := Lookup(h.dst, now);
      ghost var p := table.Contents;
      if !found {
        var newEntry := CreateEntry(rcv.dev, h.dst, true, h.dstSeqNo, rcv, 1, h.dst, FromMilliseconds(h.lifeTime), now);
        CurrentPurge(p, now, cfg.badLinkLifetime);
        var added := table.AddRoute(newEntry, now);
      } else {
        Redirect(toNeighbor, h.dst, rcv.dev);
        toNeighbor := toNeighbor.(info := toNeighbor.info.(
          lifeTime := Max(cfg.HelloLifetime(), toNeighbor.info.GetLifeTime(now)) + now,
          seqNo := h.dstSeqNo, validSeqNo := true, flag := VALID, iface := rcv, hops := 1));
        var updated := table.Update(toNeighbor);
      }
    }

    method ProcessHello(h: Rrep, rcv: Iface, now: Time)
      requires Valid()
      modifies table, table.Repr, nb, this`sent, this`ctr
      ensures Valid() && fresh(table.Repr - old(table.Repr))
      ensures State() == Routes.ProcessHello(old(State()), h, rcv, now)
    {
      hide RouteTable.Purge, TableOk, Represents, RoutingTable.Valid, HelloTable, UpdateNeighbor;
      LearnFromHello(h, rcv, now);
      if cfg.enableHello {
        nb.Update(h.dst, cfg.HelloLifetime(), now);
      }
    }

    /** The forward route: the new entry replaces the known one only if it is fresher. */
    method LearnDestination(h: Rrep, hop: U8, sender: Addr, rcv: Iface, now: Time)
      returns (newEntry: RoutingTableEntry, toDst: RoutingTableEntry)
      requires Valid()
      modifies table
      ensures Valid() && fresh(table.Repr - old(table.Repr)) && fresh(newEntry.route)
      ensures var p := RouteTable.Purge(old(table.Contents), now, cfg.badLinkLifetime);
              && table.Contents == ForwardRoute(p, h, hop, sender, rcv, now)
              && toDst.Value() == GetOr(p, h.dst, DefaultEntry(now))
      ensures newEntry.Value() == ForwardEntry(h, hop, sender, rcv, now)
    {
      hide RouteTable.Purge, TableOk, Represents, RoutingTable.Valid, Current;
      newEntry := CreateEntry(rcv.dev, h.dst, true, h.dstSeqNo, rcv, hop, sender, FromMilliseconds(h.lifeTime), now);
      var found;
      found, toDst := Lookup(h.dst, now);
      ghost var p := table.Contents;
      CurrentPurge(p, now, cfg.badLinkLifetime);
      if !found {
        var added := table.AddRoute(newEntry, now);
      } else if IsFresher(h, hop, toDst.info) {
        var updated := table.Update(newEntry);
      }
    }

    /** The four cases in which a known route gives way. */
    static predicate IsFresher(h: Rrep, hop: U8, known: Info) {
      if !known.validSeqNo then true
      else if Newer(h.dstSeqNo, known.seqNo) then true
      else if h.dstSeqNo == known.seqNo && known.flag != VALID then true
      else h.dstSeqNo == known.seqNo && hop < known.hops
    }

    /** The originator's part of RecvReply. */
    method AcceptReply(h: Rrep, hop: U8, newEntry: RoutingTableEntry, toDst0: RoutingTableEntry, now: Time)
      requires Valid() && newEntry.info.precursors == []
      modifies table, queue, this`search, this`delivered
      ensures Valid() && fresh(table.Repr - old(table.Repr) - {newEntry.route})
      ensures forall sender, rcv :: newEntry.Value() == ForwardEntry(h, hop, sender, rcv, now) ==>
        State() == Routes.AcceptReply(old(State()), h, hop, sender, rcv, toDst0.Value(), now)
    {
      hide RouteTable.Purge, TableOk, Represents, RoutingTable.Valid, Current, RouteTable.Update,
           Discovery.SendPacketFromQueue, ForwardEntry;
      if toDst0.info.flag == IN_SEARCH {
        var updated := table.Update(newEntry);
        search := search.(timers := search.timers - {h.dst});
      }
      var toDst := LookupAgain(h.dst, toDst0, now);
      SendPacketFromQueue(h.dst, toDst.route, now);
    }

    /** Note a precursor of the route to `id`. */
    method NotePrecursor(id: Addr, precursor: Addr, now: Time) returns (rt: RoutingTableEntry)
      requires Valid() && Current(table.Contents, now) && now >= 0
      modifies table
      ensures Valid() && fresh(table.Repr - old(table.Repr)) && Current(table.Contents, now)
      ensures rt.Value() == AddPrecursor(GetOr(old(table.Contents), id, DefaultEntry(now)), precursor)
      ensures table.Contents == RouteTable.Update(old(table.Contents), rt.Value())
    {
      hide RouteTable.Purge, TableOk, Represents, RoutingTable.Valid, Current, PushNew, RouteTable.Update, Distinct;
      var known;
      known, rt := Lookup(id, now);
      ghost var precursors := rt.info.precursors;
      LiveEntry(table.Contents, id, now);
      NoneDistinct();
      var inserted;
      rt, inserted := rt.InsertPrecursor(precursor);
      StillDistinct(precursors, precursor);
      UpdateCurrent(table.Contents, rt.Value(), now);
      var updated := table.Update(rt);
    }

    /** Precursors along both routes that the reply connects. */
    method ConnectPrecursors(dst: Addr, toOrigin0: RoutingTableEntry, now: Time)
      requires Valid() && Current(table.Contents, now) && now >= 0 && dst in table.Contents
      requires Distinct(toOrigin0.info.precursors)
      requires toOrigin0.info.flag == IN_SEARCH || toOrigin0.info.lifeTime >= now
      modifies table
      ensures Valid() && fresh(table.Repr - old(table.Repr) - {toOrigin0.route})
      ensures table.Contents == Routes.ConnectPrecursors(old(table.Contents), dst, toOrigin0.Value(), now)
    {
      hide RouteTable.Purge, TableOk, Represents, RoutingTable.Valid, Current, PushNew, RouteTable.Update, Distinct;
      var toDst := NotePrecursor(dst, toOrigin0.route.gateway, now);
      var toNextHopToDst := NotePrecursor(toDst.route.gateway, toOrigin0.route.gateway, now);
      var toOrigin, inserted := toOrigin0.InsertPrecursor(toDst.route.gateway);
      StillDistinct(toOrigin0.info.precursors, toDst.route.gateway);
      UpdateCurrent(table.Contents, toOrigin.Value(), now);
      var updated := table.Update(toOrigin);
      var toNextHopToOrigin := NotePrecursor(toOrigin.route.gateway, toDst.route.gateway, now);
    }

    /** Keep the reverse route alive that the reply follows. */
    method ExtendOrigin(toOrigin0: RoutingTableEntry, now: Time) returns (toOrigin: RoutingTableEntry)
      requires Valid() && Current(table.Contents, now) && toOrigin0.info.flag != IN_SEARCH
      requires table.Stored(toOrigin0.route.destination, toOrigin0)
      modifies table
      ensures Valid() && table.Repr == old(table.Repr) && Current(table.Contents, now)
      ensures toOrigin.route == toOrigin0.route && toOrigin.Value() == Extended(cfg, toOrigin0.Value(), now)
      ensures toOrigin.info.flag == toOrigin0.info.flag && toOrigin.info.precursors == toOrigin0.info.precursors
      ensures toOrigin.info.lifeTime >= now
      ensures table.Contents == RouteTable.Update(old(table.Contents), toOrigin.Value())
    {
      hide RouteTable.Purge, TableOk, Represents, RoutingTable.Valid, RouteTable.Update, Current;
      StoredValue(toOrigin0);
      LiveEntry(table.Contents, toOrigin0.route.destination, now);
      var lifetime := Max(cfg.activeRouteTimeout, toOrigin0.info.GetLifeTime(now));
      toOrigin := toOrigin0.(info := toOrigin0.info.SetLifeTime(lifetime, now));
      UpdateCurrent(table.Contents, toOrigin.Value(), now);
      var updated := table.Update(toOrigin);
    }

    /** Passing a reply on towards the originator. */
    method ForwardReply(h: Rrep, hop: U8, ttl: U8, now: Time)
      requires Valid() && now >= 0
      modifies table, this`sent
      ensures Valid() && fresh(table.Repr - old(table.Repr))
      ensures State() == Routes.ForwardReply(old(State()), h, hop, ttl, now)
    {
      hide RouteTable.Purge, TableOk, Represents, RoutingTable.Valid, Current, RouteTable.Update,
           Routes.ConnectPrecursors, Extended;
      var found, toOrigin := Lookup(h.origin, now);
      if !found || toOrigin.info.flag == IN_SEARCH {
        return;
      }
      ghost var p := table.Contents;
      toOrigin := ExtendOrigin(toOrigin, now);
      CurrentPurge(table.Contents, now, cfg.badLinkLifetime);
      ConnectIfValid(h.dst, toOrigin, now);
      if ttl >= 2 {
        var header := h.(hopCount := hop, ackRequired := false);
        sent := sent + [Sent(RREP(header), ttl - 1, toOrigin.info.iface, toOrigin.route.gateway)];
      }
    }

    method ConnectIfValid(dst: Addr, toOrigin: RoutingTableEntry, now: Time)
      requires Valid() && Current(table.Contents, now) && now >= 0
      requires Distinct(toOrigin.info.precursors) && (toOrigin.info.flag == IN_SEARCH || toOrigin.info.lifeTime >= now)
      modifies table
      ensures Valid() && fresh(table.Repr - old(table.Repr) - {toOrigin.route})
      ensures var t := old(table.Contents);
              table.Contents == if IsValid(t, dst) then Routes.ConnectPrecursors(t, dst, toOrigin.Value(), now) else t
    {
      hide RouteTable.Purge, TableOk, Represents, RoutingTable.Valid, Current, Routes.ConnectPrecursors,
           RoutingTable.Stored, Distinct;
      var known, toDst := Lookup(dst, now);
      if known && toDst.info.flag == VALID {
        ConnectPrecursors(dst, toOrigin, now);
      }
    }

    method RecvReply(h: Rrep, ttl: U8, sender: Addr, rcv: Iface, now: Time)
      requires Valid() && now >= 0
      modifies table, table.Repr, nb, queue, this`search, this`ctr, this`sent, this`delivered
      ensures Valid() && fresh(table.Repr - old(table.Repr))
      ensures State() == Routes.RecvReply(old(State()), h, ttl, sender, rcv, now)
    {
      hide RouteTable.Purge, TableOk, Represents, RoutingTable.Valid, Current, Routes.ProcessHello, ForwardRoute,
           Routes.SendReplyAck, Routes.AcceptReply, Routes.ForwardReply;
      var hop := Wrap8(h.hopCount + 1);
      if h.dst == h.origin {
        ProcessHello(h, rcv, now);
        return;
      }
      var newEntry, toDst := LearnDestination(h, hop, sender, rcv, now);
      if h.ackRequired {
        SendReplyAck(sender, now);
      }
      var mine := IsMyOwnAddress(h.origin);
      if mine {
        AcceptReply(h, hop, newEntry, toDst, now);
      } else {
        ForwardReply(h, hop, ttl, now);
      }
    }

    /** Every control message: learn the neighbour, then handle it; a message of
        unknown type (None) goes no further. */
    method RecvMadaodv(msg: Option<Message>, ttl: U8, sender: Addr, rcv: Iface, now: Time)
      requires Valid() && now >= 0
      modifies table, table.Repr, nb, queue, cache, this`search, this`ctr, this`sent, this`delivered, this`hello
      ensures Valid() && fresh(table.Repr - old(table.Repr))
      ensures State() == Receive(old(State()), msg, ttl, sender, rcv, now)
    {
      hide RouteTable.Purge, TableOk, Represents, RoutingTable.Valid, RouteToNeighbor, Routes.RecvRequest,
           Routes.RecvReply, LinkBreak.RecvError, Routes.RecvReplyAck;
      UpdateRouteToNeighbor(sender, rcv, now);
      match msg
      case None =>
      case Some(RREQ(h)) => RecvRequest(h, ttl, sender, rcv, now);
      case Some(RREP(h)) => RecvReply(h, ttl, sender, rcv, now);
      case Some(RERR(h)) =>
        var rerrHeader := new RerrHeader();
        rerrHeader.flag, rerrHeader.reserved, rerrHeader.unreachable := h.flag, h.reserved, h.unreachable;
        RecvError(rerrHeader, sender, now);
      case Some(RREP_ACK) => RecvReplyAck(sender, now);
    }

    // -------------------------------------------------------------------
    // Data packets

    /** A data packet leaves over a valid route, which it keeps alive; it goes to
        the loopback device until there is one, and nowhere when the route uses
        another device than the packet has to. */
    method RouteOutput(dst: Addr, oif: int, now: Time) returns (route: Option<Ipv4Route>, toLoopback: bool)
      requires Valid()
      modifies table
      ensures Valid() && fresh(table.Repr - old(table.Repr))
      ensures State() == NodeEvents.RouteOutput(old(State()), dst, oif, now)
      ensures var p := RouteTable.Purge(old(table.Contents), now, cfg.badLinkLifetime);
              && (route.Some? <==> IsValid(p, dst) && (oif == -1 || p[dst].route.dev == oif))
              && (route.Some? ==> route.value.Value() == p[dst].route)
              && (toLoopback <==> !IsValid(p, dst))
    {
      hide RouteTable.Purge, TableOk, Represents, RoutingTable.Valid, Current, Refresh, RoutingTable.Stored;
      var found, rt := Lookup(dst, now);
      if found && rt.info.flag == VALID {
        if oif != -1 && rt.route.outputDevice != oif {
          return None, false;
        }
        var updated := UpdateRouteLifeTime(dst, cfg.activeRouteTimeout, now);
        updated := UpdateRouteLifeTime(rt.route.gateway, cfg.activeRouteTimeout, now);
        return Some(rt.route), false;
      }
      return None, true;
    }

    /** The four refreshes of Forwarding. */
    method KeepAlive(origin: Addr, dst: Addr, gateway: Addr, now: Time) returns (back: Addr)
      requires Valid()
      modifies table
      ensures Valid() && fresh(table.Repr - old(table.Repr))
      ensures var life, bad := cfg.activeRouteTimeout, cfg.badLinkLifetime;
              var t0 := Refresh(Refresh(old(table.Contents), origin, life, now, bad), dst, life, now, bad);
              var t1 := Refresh(t0, gateway, life, now, bad);
              && back == GetOr(RouteTable.Purge(t1, now, bad), origin, DefaultEntry(now)).route.nextHop
              && table.Contents == Refresh(RouteTable.Purge(t1, now, bad), back, life, now, bad)
    {
      hide RouteTable.Purge, TableOk, Represents, RoutingTable.Valid, Current, Refresh, RoutingTable.Stored;
      var updated := UpdateRouteLifeTime(origin, cfg.activeRouteTimeout, now);
      updated := UpdateRouteLifeTime(dst, cfg.activeRouteTimeout, now);
      updated := UpdateRouteLifeTime(gateway, cfg.activeRouteTimeout, now);
      var known, toOrigin := Lookup(origin, now);
      back := toOrigin.route.gateway;
      updated := UpdateRouteLifeTime(back, cfg.activeRouteTimeout, now);
    }

    /** The table and the neighbour list after a packet has been forwarded. */
    method KeepRoutes(origin: Addr, dst: Addr, gateway: Addr, now: Time)
      requires Valid() && Current(table.Contents, now)
      requires IsValid(table.Contents, dst) && table.Contents[dst].route.nextHop == gateway
      modifies table, nb, this`sent, this`ctr
      ensures Valid() && fresh(table.Repr - old(table.Repr))
      ensures State() == UseRoute(old(State()), origin, dst, now)
    {
      hide RouteTable.Purge, TableOk, Represents, RoutingTable.Valid, Current, Refresh, RoutingTable.Stored,
           UpdateNeighbor;
      CurrentPurge(table.Contents, now, cfg.badLinkLifetime);
      RefreshesCurrent(table.Contents, [origin, dst, gateway], cfg, now);
      var back := KeepAlive(origin, dst, gateway, now);
      nb.Update(gateway, cfg.activeRouteTimeout, now);
      nb.Update(back, cfg.activeRouteTimeout, now);
    }

    /** Forwarding on the table as it was, or as its purge left it, is the same. */
    lemma UseRoutePurged(s: Node, origin: Addr, dst: Addr, now: Time)
      requires Purge(s.Purged(now), now, s.cfg.badLinkLifetime) == s.Purged(now)
      ensures UseRoute(s.(table := s.Purged(now)), origin, dst, now) == UseRoute(s, origin, dst, now)
    {
      hide RouteTable.Purge, Refresh, UpdateNeighbor, RerrNoRoute;
    }

    method Forwarding(uid: int, header: PacketQueue.Header, now: Time) returns (forwarded: bool)
      requires Valid()
      modifies table, nb, this`sent, this`ctr, this`delivered
      ensures Valid() && fresh(table.Repr - old(table.Repr))
      ensures State() == NodeEvents.Forwarding(old(State()), uid, header, now)
      ensures forwarded <==> IsValid(RouteTable.Purge(old(table.Contents), now, cfg.badLinkLifetime), header.dst)
    {
      hide RouteTable.Purge, TableOk, Represents, RoutingTable.Valid, Current, Refresh, RoutingTable.Stored,
           UpdateNeighbor, RerrNoRoute;
      var origin, dst := header.src, header.dst;
      ghost var s := State();
      PurgeIsCurrent(table.Contents, now, cfg.badLinkLifetime);
      table.Purge(now);
      CurrentPurge(table.Contents, now, cfg.badLinkLifetime);
      UseRoutePurged(s, origin, dst, now);
      var found, toDst := Lookup(dst, now);
      if found && toDst.info.flag == VALID {
        KeepRoutes(origin, dst, toDst.route.gateway, now);
        delivered := delivered + [Delivery(uid, header, toDst.route.Value())];
        return true;
      }
      if found && toDst.info.validSeqNo {
        SendRerrWhenNoRouteToForward(dst, toDst.info.seqNo, origin, now);
      } else {
        SendRerrWhenNoRouteToForward(dst, 0, origin, now);
      }
      return false;
    }

    /** A unicast packet for this node keeps the way back alive. */
    method DeliverUnicast(origin: Addr, now: Time)
      requires Valid()
      modifies table, nb, this`sent, this`ctr
      ensures Valid() && fresh(table.Repr - old(table.Repr))
      ensures State() == DeliverLocally(old(State()), origin, now)
    {
      hide RouteTable.Purge, TableOk, Represents, RoutingTable.Valid, Current, Refresh, RoutingTable.Stored,
           UpdateNeighbor;
      var updated := UpdateRouteLifeTime(origin, cfg.activeRouteTimeout, now);
      RefreshIsCurrent(old(table.Contents), origin, cfg, now);
      var known, toOrigin := Lookup(origin, now);
      if known && toOrigin.info.flag == VALID {
        updated := UpdateRouteLifeTime(toOrigin.route.gateway, cfg.activeRouteTimeout, now);
        nb.Update(toOrigin.route.gateway, cfg.activeRouteTimeout, now);
      }
    }

    // -------------------------------------------------------------------
    // The scheduler

    predicate IsTimer(e: Event) {
      e.RetryTimer? || e.Postponed? || e.RreqReset? || e.RerrReset? || e.HelloTimer? || e.NeighborTimer?
    }

    /** A timer of the node, or a call that it scheduled, comes due. */
    method Fire(e: Event, now: Time)
      requires Valid() && now >= 0 && Enabled(State(), e, now) && IsTimer(e)
      modifies this, table, table.Repr, nb, queue, cache
      ensures Valid() && fresh(table.Repr - old(table.Repr))
      ensures State() == Apply(old(State()), e, now)
    {
      hide RouteTable.Purge, TableOk, Represents, RoutingTable.Valid, Discovery.RouteRequestTimerExpire,
           PostponedRequest, NodeEvents.HelloTimerExpire, PurgeNeighbors;
      match e
      case RetryTimer(dst) =>
        search := search.(timers := search.timers[dst := None]);
        RouteRequestTimerExpire(dst, now);
      case Postponed(dst, at) => PostponedSendRequest(dst, at, now);
      case RreqReset => RreqRateLimitTimerExpire(now);
      case RerrReset => RerrRateLimitTimerExpire();
      case HelloTimer =>
        hello := hello.(timer := None);
        HelloTimerExpire(now);
      case NeighborTimer =>
        nb.timer := None;
        nb.Purge(now);
    }

    /** Whatever the simulator makes happen to the node is one step of the event
        function, so what is proved of its runs holds of this object. */
    method Dispatch(e: Event, now: Time)
      requires Valid() && now >= 0 && Enabled(State(), e, now)
      modifies this, table, table.Repr, nb, queue, cache
      ensures Valid() && fresh(table.Repr - old(table.Repr))
      ensures State() == Apply(old(State()), e, now)
    {
      hide RouteTable.Purge, TableOk, Represents, RoutingTable.Valid, Receive, Discovery.DeferredRouteOutput,
           Discovery.RouteRequestTimerExpire, PostponedRequest, NodeEvents.HelloTimerExpire, PurgeNeighbors,
           LinkBreak.ProcessTxError, NodeEvents.RouteOutput, NodeEvents.Forwarding, DeliverLocally;
      match e
      case Receipt(msg, ttl, sender, rcv) => RecvMadaodv(msg, ttl, sender, rcv, now);
      case Output(packet) => DeferredRouteOutput(packet, now);
      case RetryTimer(dst) => Fire(e, now);
      case Postponed(dst, at) => Fire(e, now);
      case RreqReset => Fire(e, now);
      case RerrReset => Fire(e, now);
      case HelloTimer => Fire(e, now);
      case NeighborTimer => Fire(e, now);
      case TxError(hit) => nb.ProcessTxError(hit, now);
      case RouteRequest(dst, oif) => var route, toLoopback := RouteOutput(dst, oif, now);
      case Forward(uid, header) => var forwarded := Forwarding(uid, header, now);
      case Delivered(origin) => DeliverUnicast(origin, now);
    }
  }

  lemma RefreshIsCurrent(t: Table, k: Addr, cfg: Config, now: Time)
    requires cfg.badLinkLifetime >= 0
    ensures Current(Refresh(t, k, cfg.activeRouteTimeout, now, cfg.badLinkLifetime), now)
  {
    PurgeIsCurrent(t, now, cfg.badLinkLifetime);
  }

  lemma RefreshCurrent(t: Table, k: Addr, cfg: Config, now: Time)
    requires Current(t, now)
    ensures Current(Refresh(t, k, cfg.activeRouteTimeout, now, cfg.badLinkLifetime), now)
  {
    CurrentPurge(t, now, cfg.badLinkLifetime);
  }

  /** After the three refreshes a purge at the same instant does nothing. */
  lemma RefreshesCurrent(t: Table, keys: seq<Addr>, cfg: Config, now: Time)
    requires Current(t, now) && |keys| == 3
    ensures var life, bad := cfg.activeRouteTimeout, cfg.badLinkLifetime;
            var t1 :=
              Refresh(Refresh(Refresh(t, keys[0], life, now, bad), keys[1], life, now, bad), keys[2], life, now, bad);
            RouteTable.Purge(t1, now, bad) == t1
  {
    hide Refresh, Current;
    var life, bad := cfg.activeRouteTimeout, cfg.badLinkLifetime;
    RefreshCurrent(t, keys[0], cfg, now);
    var a := Refresh(t, keys[0], life, now, bad);
    RefreshCurrent(a, keys[1], cfg, now);
    var b := Refresh(a, keys[1], life, now, bad);
    RefreshCurrent(b, keys[2], cfg, now);
    CurrentPurge(Refresh(b, keys[2], life, now, bad), now, bad);
  }

  lemma LiveEntry(t: Table, k: Addr, now: Time)
    requires Current(t, now)
    ensures k in t ==> t[k].info.flag == IN_SEARCH || t[k].info.lifeTime >= now
  {
  }

  lemma UpdateCurrent(t: Table, e: Entry, now: Time)
    requires Current(t, now) && (e.info.flag == IN_SEARCH || e.info.lifeTime >= now)
    ensures Current(RouteTable.Update(t, e), now)
  {
  }

  lemma NoneDistinct()
    ensures Distinct<Addr>([])
  {
  }

  lemma StillDistinct(s: seq<Addr>, x: Addr)
    requires Distinct(s)
    ensures Distinct(PushNew(s, x))
  {
  }

  /** The drain loop has still to remove `rest`. */
  ghost predicate KeptSoFar(all: map<Addr, U32>, rest: map<Addr, U32>, via: map<Addr, U32>, kept: map<Addr, U32>) {
    && (forall k :: k in rest ==> k in all && rest[k] == all[k])
    && (forall k :: k in kept <==> k in all && k !in rest && k in via)
    && (forall k :: k in kept ==> kept[k] == all[k])
  }

  lemma KeptStep(all: map<Addr, U32>, rest: map<Addr, U32>, via: map<Addr, U32>, kept: map<Addr, U32>, un: Pair)
    requires KeptSoFar(all, rest, via, kept) && un.addr in rest && un.seqNo == rest[un.addr]
    ensures KeptSoFar(all, rest - {un.addr}, via, if un.addr in via then InsertPair(kept, un) else kept)
  {
  }

  /** What the drain loop keeps is what the node has to pass on. */
  lemma AffectedIs(p: Table, listed: map<Addr, U32>, src: Addr, via: map<Addr, U32>)
    requires via == RoutedVia(p, src)
    ensures (map k | k in listed && k in via :: listed[k]) == Affected(p, listed, src)
    ensures Affected(p, listed, src).Keys <= p.Keys
  {
  }

  lemma ClosedFirst(s: Node, nb: seq<Neighbor>, j: nat, now: Time)
    requires j < |nb|
    ensures BreakAll(s, Filter(IsClosed(now), nb[j..]), now) ==
              BreakAll(if Closed(nb[j], now) then BreakLink(s, nb[j].addr, now) else s,
                       Filter(IsClosed(now), nb[j + 1..]), now)
  {
    hide BreakLink;
    var rest := Filter(IsClosed(now), nb[j + 1..]);
    assert nb[j..][1..] == nb[j + 1..];
    assert ([nb[j]] + rest)[1..] == rest;
  }

  lemma ClosedNone(nb: seq<Neighbor>, now: Time)
    ensures nb[0..] == nb && Filter(IsClosed(now), nb[|nb|..]) == []
  {
  }

  /** Reporting changes neither the list nor its timer. */
  lemma {:induction false} BreakAllKeeps(s: Node, lost: seq<Neighbor>, now: Time)
    ensures BreakAll(s, lost, now).neighbors == s.neighbors && BreakAll(s, lost, now).cfg == s.cfg
    decreases |lost|
  {
    hide BreakLink;
    if lost != [] {
      BreakLinkTable(s, lost[0].addr, now);
      BreakAllKeeps(BreakLink(s, lost[0].addr, now), lost[1..], now);
    }
  }

  lemma SameRequests(s: Node, s': Node, dst: Addr, now: Time)
    requires s'.table == s.table && s'.cfg == s.cfg && s'.ctr == s.ctr
    ensures forall a :: RequestFor(s', dst, a, now) == RequestFor(s, dst, a, now)
  {
  }

  lemma RoutedViaKeys(p: Table, via: Addr)
    ensures RoutedVia(p, via).Keys <= p.Keys
  {
  }

  /** The listing loop has yet to visit the keys in `todo`. */
  ghost predicate ListedSoFar(before: map<Addr, U32>, after: map<Addr, U32>, unreachable: map<Addr, U32>,
                              todo: set<Addr>) {
    && (forall k :: k in after <==> k in before || (k in unreachable && k !in todo))
    && (forall k :: k in after ==> after[k] == if k in before then before[k] else unreachable[k])
  }

  lemma NothingListed(before: map<Addr, U32>, unreachable: map<Addr, U32>)
    ensures ListedSoFar(before, before, unreachable, unreachable.Keys)
  {
  }

  lemma ListedStep(before: map<Addr, U32>, after: map<Addr, U32>, unreachable: map<Addr, U32>, todo: set<Addr>, k: Addr)
    requires ListedSoFar(before, after, unreachable, todo) && k in todo && k in unreachable
    ensures ListedSoFar(before, InsertPair(after, Pair(k, unreachable[k])), unreachable, todo - {k})
  {
  }

  lemma ListedAll(before: map<Addr, U32>, after: map<Addr, U32>, unreachable: map<Addr, U32>)
    requires ListedSoFar(before, after, unreachable, {})
    ensures after == unreachable + before
  {
  }

  lemma CollectStep(p: Table, todo: set<Addr>, prec: seq<Addr>)
    requires todo != {} && Least(todo) in p
    ensures CollectPrecursors(p, SortedKeys(todo), prec)
         == CollectPrecursors(p, SortedKeys(todo - {Least(todo)}), PushAllNew(prec, p[Least(todo)].info.precursors))
  {
    hide SortedKeys, PushAllNew;
    SortedKeysStep(todo);
    var k, rest := Least(todo), SortedKeys(todo - {Least(todo)});
    assert ([k] + rest)[1..] == rest;
  }

  /** The message lists exactly what is lost. */
  lemma LostIs(p: Table, nextHop: Addr, unreachable: map<Addr, U32>, listed: map<Addr, U32>)
    requires nextHop in p && unreachable == RoutedVia(p, nextHop)
    requires listed == unreachable + InsertPair(map[], Pair(nextHop, p[nextHop].info.seqNo))
    ensures listed == LostDestinations(p, nextHop) && listed.Keys == unreachable.Keys + {nextHop}
  {
  }

  lemma NothingToCollect(p: Table, prec: seq<Addr>)
    ensures CollectPrecursors(p, SortedKeys({}), prec) == prec
  {
  }

  lemma CurrentWrite(p: Table, k: Addr, e: Entry, now: Time)
    requires Current(p, now) && (e.info.flag == IN_SEARCH || e.info.lifeTime >= now)
    ensures Current(p[k := e], now)
  {
  }
}
