/** What one delivery keeps of the limits of a flood: one relay per node, and the
    ring that its TTL draws around the originator (section 6.5 of RFC 3561). */
module FloodLimits {
  import opened Base
  import opened Messages
  import opened RouteTable
  import opened NodeState
  import opened LinkBreak
  import opened Routes
  import opened NodeEvents
  import opened Frames
  import opened TableSteps
  import opened NodeRuns
  import opened Emissions
  import opened LoopFreedom
  import opened Network
  import opened Flood
  import IdCaches

  // ---------------------------------------------------------------------
  // Each node relays a request at most once

  /** How many of the sends belong to the flood. */
  function Sendings(sent: seq<Sent>, key: IdCaches.Key): nat {
    if sent == [] then 0 else (if InFlood(sent[0].msg, key) then 1 else 0) + Sendings(sent[1..], key)
  }

  lemma {:induction false} SendingsAppend(a: seq<Sent>, b: seq<Sent>, key: IdCaches.Key)
    ensures Sendings(a + b, key) == Sendings(a, key) + Sendings(b, key)
  {
    if a == [] {
      assert a + b == b;
    } else {
      assert (a + b)[1..] == a[1..] + b;
      SendingsAppend(a[1..], b, key);
    }
  }

  lemma {:induction false} LastOnly(sent: seq<Sent>, key: IdCaches.Key)
    requires forall i :: 0 <= i < |sent| && InFlood(sent[i].msg, key) ==> i == |sent| - 1
    ensures Sendings(sent, key) == if sent != [] && InFlood(sent[|sent| - 1].msg, key) then 1 else 0
  {
    hide InFlood;
    if sent != [] {
      LastOnly(sent[1..], key);
    }
  }

  /** What a node has sent of the flood, and whether it may still send it. */
  ghost function Spent(s: Node, key: IdCaches.Key): nat {
    Sendings(s.log.sent, key) + if Unaware(s, key) then 1 else 0
  }

  lemma SpentStep(s: Node, msg: Message, ttl: U8, sender: Addr, rcv: Iface, key: IdCaches.Key, h: Time, now: Time)
    requires |s.ifaces| == 1 && now <= h <= now + s.cfg.idLifetime
    requires Knows(s, key, h) || Unaware(s, key)
    ensures Spent(Receive(s, Some(msg), ttl, sender, rcv, now), key) <= Spent(s, key)
  {
    hide Receive, InFlood, Knows, Unaware;
    var s' := Receive(s, Some(msg), ttl, sender, rcv, now);
    AwarenessStep(s, msg, ttl, sender, rcv, key, h, now);
    EmissionStep(s, msg, ttl, sender, rcv, key, h, now);
    KnowsOrNot(s, key, h);
    KnowsOrNot(s', key, h);
    var sends := s'.log.sent[|s.log.sent|..];
    assert s'.log.sent == s.log.sent + sends;
    assert forall j :: 0 <= j < |sends| ==> sends[j] == s'.log.sent[|s.log.sent| + j];
    SendingsAppend(s.log.sent, sends, key);
    LastOnly(sends, key);
  }

  lemma SettledAt(net: Net, key: IdCaches.Key, h: Time, start: Time, a: Addr)
    requires Settled(net, key, h, start) && a in net.nodes
    ensures var s := net.nodes[a];
            |s.ifaces| == 1 && (Knows(s, key, h) || Unaware(s, key)) && h <= start + s.cfg.idLifetime
  {
  }

  // ---------------------------------------------------------------------
  // The ring

  /** Every copy of the request in flight has HopCount + TTL == `ring`. */
  ghost predicate OnRing(flight: seq<Packet>, key: IdCaches.Key, ring: U8) {
    forall p :: p in flight && InFlood(p.msg, key) ==> p.ttl >= 1 && p.msg.rreq.hopCount + p.ttl == ring
  }

  lemma OnRingStep(net: Net, i: nat, now: Time, key: IdCaches.Key, h: Time, ring: U8)
    requires Settled(net, key, h, now) && CanDeliver(net, i) && now <= h && OnRing(net.flight, key, ring)
    ensures OnRing(Deliver(net, i, now).flight, key, ring)
  {
    hide Receive, Knows, Unaware, AllCopies, InFlood;
    var p := net.flight[i];
    var s, s' := net.nodes[p.to], Receiver(net, i, now);
    EmissionStep(s, p.msg, p.ttl, p.sender, s.ifaces[0], key, h, now);
    var sends := NewSends(s, s');
    assert forall j :: 0 <= j < |sends| ==> sends[j] == s'.log.sent[|s.log.sent| + j];
    AllCopiesMembers(net, p.to, sends);
    FloodFields(p.msg, key);
    forall c | c in AllCopies(net, p.to, sends) && InFlood(c.msg, key)
      ensures c.ttl >= 1 && c.msg.RREQ? && c.msg.rreq.hopCount + c.ttl == ring
    {
      FloodFields(c.msg, key);
    }
  }

  lemma FloodFields(m: Message, key: IdCaches.Key)
    ensures InFlood(m, key) ==> m.RREQ?
  {
  }

  // ---------------------------------------------------------------------
  // Recorded hop counts

  /** No request of `o` in flight can travel further than `ring`. */
  ghost predicate Contained(flight: seq<Packet>, o: Addr, ring: U8) {
    forall p :: p in flight && IsRequestOf(p.msg, o) ==> p.ttl >= 1 && p.msg.rreq.hopCount + p.ttl <= ring
  }

  /** The route to `o`, if there is one, is at most `ring` hops long. */
  ghost predicate WithinAt(t: Table, o: Addr, ring: U8) { o in t ==> t[o].info.hops <= ring }

  ghost predicate Within(net: Net, o: Addr, ring: U8) {
    forall a :: a in net.nodes ==> TableOk(net.nodes[a].table) && (a != o ==> WithinAt(net.nodes[a].table, o, ring))
  }

  /** The delivery is not of a reply that installs a forward route to `o`. */
  predicate NotAbout(m: Message, o: Addr) { !(m.RREP? && m.rrep.dst == o != m.rrep.origin) }

  lemma WithinReceive(s: Node, msg: Message, ttl: U8, sender: Addr, rcv: Iface, now: Time, o: Addr, ring: U8)
    requires TableOk(s.table) && WithinAt(s.table, o, ring) && o != NO_ADDR && ring >= 1 && NotAbout(msg, o)
    requires IsRequestOf(msg, o) ==> ttl >= 1 && msg.rreq.hopCount + ttl <= ring
    ensures var s' := Receive(s, Some(msg), ttl, sender, rcv, now);
            TableOk(s'.table) && WithinAt(s'.table, o, ring)
  {
    hide TableOk, Receive, Accepts;
    StepTableOk(s, Receipt(Some(msg), ttl, sender, rcv), now);
    if IsRequestOf(msg, o) {
      HearRequest(s, msg.rreq, ttl, sender, rcv, now);
    } else {
      ReceiveSpares(s, Some(msg), ttl, sender, rcv, now);
      SubjectsOf(Receipt(Some(msg), ttl, sender, rcv), o);
      assert Calm(s.table, Receive(s, Some(msg), ttl, sender, rcv, now).table, o);
    }
  }

  lemma ContainedSends(s: Node, msg: Message, ttl: U8, sender: Addr, rcv: Iface, now: Time, o: Addr, ring: U8)
    requires IsRequestOf(msg, o) ==> ttl >= 1 && msg.rreq.hopCount + ttl <= ring
    ensures var s' := Receive(s, Some(msg), ttl, sender, rcv, now);
            forall m :: m in NewSends(s, s') && IsRequestOf(m.msg, o) ==>
              m.ttl >= 1 && m.msg.rreq.hopCount + m.ttl <= ring
  {
    hide RouteToNeighbor, RecvRequest, RecvReply, RecvError, RecvReplyAck, IdCaches.Record, ProcessRequest, Accepts,
         Purge;
    if msg.RREQ? {
      RecvRequestSends(Met(s, sender, rcv, now), msg.rreq, ttl, sender, rcv, now);
    } else {
      ReceiveMute(s, Some(msg), ttl, sender, rcv, now);
    }
  }

  lemma RingStep(net: Net, i: nat, now: Time, o: Addr, ring: U8)
    requires CanDeliver(net, i) && NotAbout(net.flight[i].msg, o) && o != NO_ADDR && ring >= 1
    requires Contained(net.flight, o, ring) && Within(net, o, ring)
    ensures Contained(Deliver(net, i, now).flight, o, ring) && Within(Deliver(net, i, now), o, ring)
  {
    hide TableOk, Receive, WithinAt, AllCopies, NotAbout;
    var p := net.flight[i];
    var s, s' := net.nodes[p.to], Receiver(net, i, now);
    StepTableOk(s, Receipt(Some(p.msg), p.ttl, p.sender, s.ifaces[0]), now);
    if p.to != o {
      WithinReceive(s, p.msg, p.ttl, p.sender, s.ifaces[0], now, o, ring);
    }
    ContainedSends(s, p.msg, p.ttl, p.sender, s.ifaces[0], now, o, ring);
    var sends := NewSends(s, s');
    AllCopiesMembers(net, p.to, sends);
    assert forall j :: 0 <= j < |sends| ==> sends[j] in sends;
  }
}
