/** Flooding a request ends (section 6.5 of RFC 3561): each node relays it at
    most once, it never travels further than its TTL allows, and only finitely
    many deliveries are possible. */
module Flood {
  import opened Base
  import opened Messages
  import opened RouteTable
  import opened NodeState
  import opened LinkBreak
  import opened Routes
  import opened NodeEvents
  import opened Emissions
  import opened Network
  import IdCaches

  /** A request of the flood named by `key`. */
  predicate InFlood(m: Message, key: IdCaches.Key) {
    m.RREQ? && m.rreq.origin == key.context && m.rreq.id == key.id
  }

  // ---------------------------------------------------------------------
  // The duplicate cache

  /** The node remembers `key` at least until `h`. */
  ghost predicate Knows(s: Node, key: IdCaches.Key, h: Time) {
    exists u :: u in s.ids && u.key == key && u.expire >= h
  }

  /** The node has never heard of `key`. */
  ghost predicate Unaware(s: Node, key: IdCaches.Key) {
    forall u :: u in s.ids ==> u.key != key
  }

  lemma KnownIsDuplicate(s: Node, key: IdCaches.Key, h: Time, now: Time)
    requires Knows(s, key, h) && now <= h
    ensures IdCaches.Duplicate(s.ids, key, now)
  {
    FilterMembers(IdCaches.IsLive(now), s.ids);
    var u :| u in s.ids && u.key == key && u.expire >= h;
    var p := IdCaches.Purged(s.ids, now);
    assert u in p;
    var i :| 0 <= i < |p| && p[i] == u;
  }

  lemma UnawareIsNew(s: Node, key: IdCaches.Key, now: Time)
    requires Unaware(s, key)
    ensures !IdCaches.Duplicate(s.ids, key, now)
  {
    FilterMembers(IdCaches.IsLive(now), s.ids);
    var p := IdCaches.Purged(s.ids, now);
    assert forall i :: 0 <= i < |p| ==> p[i] in p;
  }

  /** Recording any key keeps what is known until `h`, and awareness grows only by that key. */
  lemma RecordMembers(ids: seq<IdCaches.UniqueId>, k: IdCaches.Key, lifetime: Time, now: Time)
    ensures var r := IdCaches.Record(ids, k, lifetime, now);
            && (forall u :: u in ids && u.expire >= now ==> u in r)
            && (forall u :: u in r ==> u in ids || u.key == k)
            && (!IdCaches.Duplicate(ids, k, now) ==> IdCaches.UniqueId(k, lifetime + now) in r)
            && (IdCaches.Duplicate(ids, k, now) ==> forall u :: u in r ==> u in ids)
  {
    hide Filter;
    FilterMembers(IdCaches.IsLive(now), ids);
  }

  /** What one delivery does to what a node knows of the flood. */
  lemma AwarenessStep(s: Node, msg: Message, ttl: U8, sender: Addr, rcv: Iface, key: IdCaches.Key, h: Time, now: Time)
    requires now <= h <= now + s.cfg.idLifetime
    requires Knows(s, key, h) || Unaware(s, key)
    ensures var s' := Receive(s, Some(msg), ttl, sender, rcv, now);
            && (Knows(s, key, h) ==> Knows(s', key, h))
            && (Unaware(s, key) ==> Unaware(s', key) || (Knows(s', key, h) && InFlood(msg, key)))
            && s'.cfg == s.cfg && s'.ifaces == s.ifaces
  {
    hide RouteToNeighbor, RecvRequest, RecvReply, RecvError, RecvReplyAck, IdCaches.Record, IdCaches.Duplicate,
         Accepts;
    var s1 := s.(table := RouteToNeighbor(s.cfg, s.table, sender, rcv, now));
    if msg.RREQ? {
      var k := KeyOf(msg.rreq);
      RecvRequestSends(s1, msg.rreq, ttl, sender, rcv, now);
      RecordMembers(s.ids, k, s.cfg.idLifetime, now);
    } else {
      ReceiveMute(s, Some(msg), ttl, sender, rcv, now);
    }
  }

  /** What one delivery adds to the flood: nothing, or the received request
      once, one hop further, when the node had never heard of it. */
  lemma EmissionStep(s: Node, msg: Message, ttl: U8, sender: Addr, rcv: Iface, key: IdCaches.Key, h: Time, now: Time)
    requires |s.ifaces| == 1 && now <= h
    requires Knows(s, key, h) || Unaware(s, key)
    ensures var s' := Receive(s, Some(msg), ttl, sender, rcv, now);
            && s.log.sent <= s'.log.sent
            && forall i :: |s.log.sent| <= i < |s'.log.sent| && InFlood(s'.log.sent[i].msg, key) ==>
                 && i == |s'.log.sent| - 1
                 && InFlood(msg, key) && Unaware(s, key) && !Unaware(s', key)
                 && ttl >= 2 && s'.log.sent[i].ttl == ttl - 1
                 && s'.log.sent[i].msg.rreq.hopCount == Wrap8(msg.rreq.hopCount + 1)
  {
    hide RouteToNeighbor, RecvRequest, RecvReply, RecvError, RecvReplyAck, IdCaches.Record, IdCaches.Duplicate,
         ProcessRequest, Purge;
    var s1 := s.(table := RouteToNeighbor(s.cfg, s.table, sender, rcv, now));
    if msg.RREQ? {
      var k := KeyOf(msg.rreq);
      RecvRequestSends(s1, msg.rreq, ttl, sender, rcv, now);
      RecordMembers(s.ids, k, s.cfg.idLifetime, now);
      if Knows(s, key, h) {
        KnownIsDuplicate(s, key, h, now);
      }
    } else {
      ReceiveMute(s, Some(msg), ttl, sender, rcv, now);
    }
  }

  // ---------------------------------------------------------------------
  // The potential

  /** Every node has never heard of the request, or remembers it for the whole run. */
  ghost predicate Settled(net: Net, key: IdCaches.Key, h: Time, start: Time) {
    && WellFormed(net)
    && (forall a :: a in net.nodes ==>
          && (Knows(net.nodes[a], key, h) || Unaware(net.nodes[a], key))
          && h <= start + net.nodes[a].cfg.idLifetime)
  }

  /** The nodes that have not seen the request. */
  ghost function Fresh(net: Net, key: IdCaches.Key): set<Addr> {
    set a | a in net.nodes && Unaware(net.nodes[a], key)
  }

  /** How many copies of the request are in flight. */
  function InFlight(flight: seq<Packet>, key: IdCaches.Key): nat {
    if flight == [] then 0
    else (if InFlood(flight[0].msg, key) then 1 else 0) + InFlight(flight[1..], key)
  }

  lemma {:induction false} InFlightAppend(a: seq<Packet>, b: seq<Packet>, key: IdCaches.Key)
    ensures InFlight(a + b, key) == InFlight(a, key) + InFlight(b, key)
  {
    if a == [] {
      assert a + b == b;
    } else {
      assert (a + b)[1..] == a[1..] + b;
      InFlightAppend(a[1..], b, key);
    }
  }

  lemma InFlightRemove(f: seq<Packet>, i: nat, key: IdCaches.Key)
    requires i < |f|
    ensures InFlight(f[..i] + f[i + 1..], key) == InFlight(f, key) - (if InFlood(f[i].msg, key) then 1 else 0)
  {
    hide InFlood;
    SplitAt(f, i);
    InFlightAppend(f[..i], [f[i]] + f[i + 1..], key);
    InFlightAppend([f[i]], f[i + 1..], key);
    InFlightAppend(f[..i], f[i + 1..], key);
    InFlightOne(f[i], key);
  }

  lemma InFlightOne(p: Packet, key: IdCaches.Key)
    ensures InFlight([p], key) == if InFlood(p.msg, key) then 1 else 0
  {
    assert InFlight([p], key) == (if InFlood(p.msg, key) then 1 else 0) + InFlight([], key);
  }

  lemma {:induction false} InFlightNone(f: seq<Packet>, key: IdCaches.Key)
    requires forall p :: p in f ==> !InFlood(p.msg, key)
    ensures InFlight(f, key) == 0
  {
    if f != [] {
      InFlightNone(f[1..], key);
    }
  }

  lemma {:induction false} InFlightAtMost(f: seq<Packet>, key: IdCaches.Key)
    ensures InFlight(f, key) <= |f|
  {
    if f != [] {
      InFlightAtMost(f[1..], key);
    }
  }

  lemma SubsetAtMost(a: set<Addr>, b: set<Addr>)
    requires a <= b
    ensures |a| <= |b|
  {
    assert b == a + (b - a);
  }

  lemma CopiesAtMost(net: Net, a: Addr, m: Sent)
    ensures |Copies(net, a, m)| <= |net.nodes|
  {
    hide SortedKeys;
    SubsetAtMost(Neighbors(net, a), net.nodes.Keys);
    assert |net.nodes| == |net.nodes.Keys|;
    if m.to in Neighbors(net, a) {
      SubsetAtMost({m.to}, net.nodes.Keys);
    }
  }

  /** One send puts on the air at most one copy per node. */
  lemma CopiesInFlight(net: Net, a: Addr, m: Sent, key: IdCaches.Key)
    ensures InFlight(Copies(net, a, m), key) <= if InFlood(m.msg, key) then |net.nodes| else 0
  {
    hide Copies, InFlood, InFlight;
    CopiesAtMost(net, a, m);
    CopiesMembers(net, a, m);
    InFlightAtMost(Copies(net, a, m), key);
    if !InFlood(m.msg, key) {
      InFlightNone(Copies(net, a, m), key);
    }
  }

  lemma {:induction false} NoFloodCopies(net: Net, a: Addr, sends: seq<Sent>, key: IdCaches.Key)
    requires forall i :: 0 <= i < |sends| ==> !InFlood(sends[i].msg, key)
    ensures InFlight(AllCopies(net, a, sends), key) == 0
  {
    hide Copies, InFlood;
    if sends != [] {
      CopiesInFlight(net, a, sends[0], key);
      NoFloodCopies(net, a, sends[1..], key);
      InFlightAppend(Copies(net, a, sends[0]), AllCopies(net, a, sends[1..]), key);
    }
  }

  /** Sends of which only the last can belong to the flood. */
  lemma {:induction false} OneSendCopies(net: Net, a: Addr, sends: seq<Sent>, key: IdCaches.Key)
    requires forall i :: 0 <= i < |sends| && InFlood(sends[i].msg, key) ==> i == |sends| - 1
    ensures InFlight(AllCopies(net, a, sends), key)
            <= if sends != [] && InFlood(sends[|sends| - 1].msg, key) then |net.nodes| else 0
  {
    hide Copies, InFlood;
    if sends != [] {
      CopiesInFlight(net, a, sends[0], key);
      InFlightAppend(Copies(net, a, sends[0]), AllCopies(net, a, sends[1..]), key);
      if |sends| > 1 {
        OneSendCopies(net, a, sends[1..], key);
      } else {
        NoFloodCopies(net, a, sends[1..], key);
      }
    }
  }

  /** Copies in flight, plus a full round of copies for every node still fresh. */
  ghost function Potential(net: Net, key: IdCaches.Key): nat {
    |Fresh(net, key)| * (|net.nodes| + 1) + InFlight(net.flight, key)
  }

  lemma FreshShrinks(net: Net, net': Net, a: Addr, key: IdCaches.Key)
    requires a in net.nodes && net'.nodes.Keys == net.nodes.Keys
    requires forall b :: b in net.nodes && b != a ==> net'.nodes[b] == net.nodes[b]
    requires Unaware(net'.nodes[a], key) ==> Unaware(net.nodes[a], key)
    ensures Fresh(net', key) <= Fresh(net, key)
    ensures |Fresh(net', key)| <= |Fresh(net, key)|
    ensures Unaware(net.nodes[a], key) && !Unaware(net'.nodes[a], key) ==> |Fresh(net', key)| <= |Fresh(net, key)| - 1
  {
    hide Unaware;
    SubsetAtMost(Fresh(net', key), Fresh(net, key));
    if Unaware(net.nodes[a], key) && !Unaware(net'.nodes[a], key) {
      SubsetAtMost(Fresh(net', key), Fresh(net, key) - {a});
    }
  }

  /** The receiver's sends add at most a full round of copies, and only when it was fresh. */
  lemma SendsInFlight(net: Net, i: nat, now: Time, key: IdCaches.Key, h: Time)
    requires Settled(net, key, h, now) && CanDeliver(net, i) && now <= h
    ensures var a := net.flight[i].to;
            var s, s' := net.nodes[a], Receiver(net, i, now);
            InFlight(AllCopies(net, a, NewSends(s, s')), key)
            <= if InFlood(net.flight[i].msg, key) && Unaware(s, key) && !Unaware(s', key) then |net.nodes| else 0
  {
    hide Receive, Knows, Unaware, InFlood, AllCopies, InFlight;
    var p := net.flight[i];
    var s, s' := net.nodes[p.to], Receiver(net, i, now);
    EmissionStep(s, p.msg, p.ttl, p.sender, s.ifaces[0], key, h, now);
    var sends := NewSends(s, s');
    assert forall j :: 0 <= j < |sends| ==> sends[j] == s'.log.sent[|s.log.sent| + j];
    OneSendCopies(net, p.to, sends, key);
  }

  lemma SettledStep(net: Net, i: nat, now: Time, key: IdCaches.Key, h: Time)
    requires Settled(net, key, h, now) && CanDeliver(net, i) && now <= h
    ensures Settled(Deliver(net, i, now), key, h, now)
    ensures Deliver(net, i, now).nodes.Keys == net.nodes.Keys
    ensures var a := net.flight[i].to;
            Unaware(Receiver(net, i, now), key) ==> Unaware(net.nodes[a], key)
  {
    hide Receive, Knows, Unaware, InFlood, AllCopies;
    var p := net.flight[i];
    var s, s' := net.nodes[p.to], Receiver(net, i, now);
    AwarenessStep(s, p.msg, p.ttl, p.sender, s.ifaces[0], key, h, now);
    KnowsOrNot(s, key, h);
    KnowsOrNot(s', key, h);
  }

  lemma FlightStep(net: Net, i: nat, now: Time, key: IdCaches.Key)
    requires CanDeliver(net, i)
    ensures var a := net.flight[i].to;
            InFlight(Deliver(net, i, now).flight, key) ==
              InFlight(net.flight, key) - (if InFlood(net.flight[i].msg, key) then 1 else 0)
              + InFlight(AllCopies(net, a, NewSends(net.nodes[a], Receiver(net, i, now))), key)
  {
    hide Receive, InFlood, AllCopies, InFlight;
    var p := net.flight[i];
    InFlightRemove(net.flight, i, key);
    InFlightAppend(net.flight[..i] + net.flight[i + 1..],
                   AllCopies(net, p.to, NewSends(net.nodes[p.to], Receiver(net, i, now))), key);
  }

  /** Each delivery of a copy of the flood uses up potential; no other delivery adds any. */
  lemma PotentialStep(net: Net, i: nat, now: Time, key: IdCaches.Key, h: Time)
    requires Settled(net, key, h, now) && CanDeliver(net, i) && now <= h
    ensures Settled(Deliver(net, i, now), key, h, now)
    ensures Potential(Deliver(net, i, now), key) + (if InFlood(net.flight[i].msg, key) then 1 else 0)
            <= Potential(net, key)
  {
    hide Receiver, Settled, Unaware, InFlood, AllCopies, InFlight, Fresh;
    var a := net.flight[i].to;
    var net' := Deliver(net, i, now);
    SettledStep(net, i, now, key, h);
    SendsInFlight(net, i, now, key, h);
    FlightStep(net, i, now, key);
    FreshShrinks(net, net', a, key);
    assert |net'.nodes| == |net'.nodes.Keys| == |net.nodes.Keys| == |net.nodes|;
    PotentialDrops(|Fresh(net', key)|, |Fresh(net, key)|, |net.nodes|);
  }

  lemma KnowsOrNot(s: Node, key: IdCaches.Key, h: Time)
    ensures !(Knows(s, key, h) && Unaware(s, key))
  {
  }

  lemma PotentialDrops(a: nat, b: nat, n: nat)
    ensures a <= b ==> a * (n + 1) <= b * (n + 1)
    ensures a <= b - 1 ==> a * (n + 1) + n + 1 <= b * (n + 1)
  {
    if a <= b {
      MulLe(a, b, n + 1);
    }
    if a <= b - 1 {
      MulLe(a + 1, b, n + 1);
    }
  }

  lemma MulLe(a: nat, b: nat, m: nat)
    requires a <= b
    ensures a * m <= b * m
  {
  }

  // ---------------------------------------------------------------------
  // Whole runs

  /** How many deliveries of the run are of copies of the flood. */
  ghost function FloodDeliveries(net: Net, run: seq<(nat, Time)>, from: Time, until: Time, key: IdCaches.Key): nat
    requires Deliveries(net, run, from, until)
    decreases |run|
  {
    if run == [] then 0
    else (if InFlood(net.flight[run[0].0].msg, key) then 1 else 0)
           + FloodDeliveries(Deliver(net, run[0].0, run[0].1), run[1..], run[0].1, until, key)
  }

  /** While the records of the duplicate cache live, no run of deliveries, in any
      order and mixed with any other messages, delivers more than a fixed number
      of copies of one request. */
  lemma {:induction false} FloodTerminates(net: Net, run: seq<(nat, Time)>, from: Time, until: Time, key: IdCaches.Key)
    requires Deliveries(net, run, from, until) && Settled(net, key, until, from) && from <= until
    ensures FloodDeliveries(net, run, from, until, key) + Potential(After(net, run, from, until), key)
            <= Potential(net, key)
    ensures Settled(After(net, run, from, until), key, until, until)
    decreases |run|
  {
    hide Deliver, InFlood, Potential, Settled;
    if run == [] {
      SettledLater(net, key, until, from, until);
    } else {
      var i, now := run[0].0, run[0].1;
      SettledLater(net, key, until, from, now);
      PotentialStep(net, i, now, key, until);
      FloodTerminates(Deliver(net, i, now), run[1..], now, until, key);
    }
  }

  lemma SettledLater(net: Net, key: IdCaches.Key, h: Time, t: Time, t': Time)
    requires Settled(net, key, h, t) && t <= t'
    ensures Settled(net, key, h, t')
  {
  }
}
