/** A network of nodes: control messages in flight, each delivered to one node at a time. */
module Network {
  import opened Base
  import opened Messages
  import opened NodeState
  import opened NodeEvents

  /** One copy of a message on its way to one receiver. */
  datatype Packet = Packet(to: Addr, sender: Addr, msg: Message, ttl: U8)

  /** Nodes by address, the ordered pairs of addresses that hear each other, and
      the copies in flight; any of them may be delivered next. */
  datatype Net = Net(nodes: map<Addr, Node>, links: set<(Addr, Addr)>, flight: seq<Packet>)

  function Neighbors(net: Net, a: Addr): set<Addr> {
    set b | b in net.nodes && (a, b) in net.links
  }

  function CopiesTo(receivers: seq<Addr>, a: Addr, m: Sent): (r: seq<Packet>)
    ensures |r| == |receivers|
    ensures forall i :: 0 <= i < |r| ==> r[i] == Packet(receivers[i], a, m.msg, m.ttl)
  {
    if receivers == [] then [] else [Packet(receivers[0], a, m.msg, m.ttl)] + CopiesTo(receivers[1..], a, m)
  }

  /** The copies that one send puts on the air: one per neighbour for a
      broadcast, one for a unicast over an existing link. */
  function Copies(net: Net, a: Addr, m: Sent): seq<Packet> {
    if m.to == m.iface.BroadcastTarget() then CopiesTo(SortedKeys(Neighbors(net, a)), a, m)
    else if m.to in Neighbors(net, a) then CopiesTo([m.to], a, m)
    else []
  }

  function AllCopies(net: Net, a: Addr, sends: seq<Sent>): seq<Packet> {
    if sends == [] then [] else Copies(net, a, sends[0]) + AllCopies(net, a, sends[1..])
  }

  /** Every node has one interface, with its own address. */
  ghost predicate WellFormed(net: Net) {
    forall a :: a in net.nodes ==> |net.nodes[a].ifaces| == 1 && net.nodes[a].ifaces[0].local == a
  }

  /** What the receiver has sent in the step from `s` to `s'`. */
  function NewSends(s: Node, s': Node): seq<Sent> {
    if |s.log.sent| <= |s'.log.sent| then s'.log.sent[|s.log.sent|..] else []
  }

  predicate CanDeliver(net: Net, i: nat) {
    i < |net.flight| && net.flight[i].to in net.nodes && |net.nodes[net.flight[i].to].ifaces| == 1
  }

  /** The receiver after the delivery of the `i`-th copy. */
  function Receiver(net: Net, i: nat, now: Time): Node
    requires CanDeliver(net, i)
  {
    var p := net.flight[i];
    var s := net.nodes[p.to];
    Receive(s, Some(p.msg), p.ttl, p.sender, s.ifaces[0], now)
  }

  /** One delivery: the copy is consumed and what the receiver sends is in flight. */
  function Deliver(net: Net, i: nat, now: Time): Net
    requires CanDeliver(net, i)
  {
    var p := net.flight[i];
    var s' := Receiver(net, i, now);
    net.(nodes := net.nodes[p.to := s'],
         flight := net.flight[..i] + net.flight[i + 1..] + AllCopies(net, p.to, NewSends(net.nodes[p.to], s')))
  }

  /** A run: which copy is delivered at which instant, between `from` and `until`. */
  ghost predicate Deliveries(net: Net, run: seq<(nat, Time)>, from: Time, until: Time)
    decreases |run|
  {
    run != [] ==>
      && CanDeliver(net, run[0].0) && from <= run[0].1 <= until
      && Deliveries(Deliver(net, run[0].0, run[0].1), run[1..], run[0].1, until)
  }

  ghost function After(net: Net, run: seq<(nat, Time)>, from: Time, until: Time): Net
    requires Deliveries(net, run, from, until)
    decreases |run|
  {
    if run == [] then net
    else After(Deliver(net, run[0].0, run[0].1), run[1..], run[0].1, until)
  }

  // ---------------------------------------------------------------------
  // Copies

  lemma CopiesMembers(net: Net, a: Addr, m: Sent)
    ensures forall p :: p in Copies(net, a, m) ==>
      p.sender == a && p.to in net.nodes && (a, p.to) in net.links && p.msg == m.msg && p.ttl == m.ttl
    ensures m.to == m.iface.BroadcastTarget() ==>
      forall b :: b in Neighbors(net, a) ==> Packet(b, a, m.msg, m.ttl) in Copies(net, a, m)
  {
    hide SortedKeys;
    var c := Copies(net, a, m);
    if m.to == m.iface.BroadcastTarget() {
      var keys := SortedKeys(Neighbors(net, a));
      forall b | b in Neighbors(net, a) ensures Packet(b, a, m.msg, m.ttl) in c {
        var i :| 0 <= i < |keys| && keys[i] == b;
        assert c[i] == Packet(b, a, m.msg, m.ttl);
      }
      forall p | p in c ensures p.to in Neighbors(net, a) && p == Packet(p.to, a, m.msg, m.ttl) {
        var i :| 0 <= i < |c| && c[i] == p;
        assert keys[i] in keys;
      }
    }
  }

  lemma {:induction false} AllCopiesMembers(net: Net, a: Addr, sends: seq<Sent>)
    ensures forall p :: p in AllCopies(net, a, sends) ==>
      && p.sender == a && p.to in net.nodes && (a, p.to) in net.links
      && exists i :: 0 <= i < |sends| && sends[i].msg == p.msg && sends[i].ttl == p.ttl
    ensures forall i, b ::
              0 <= i < |sends| && sends[i].to == sends[i].iface.BroadcastTarget() && b in Neighbors(net, a) ==>
                Packet(b, a, sends[i].msg, sends[i].ttl) in AllCopies(net, a, sends)
  {
    hide Copies, Neighbors;
    if sends != [] {
      CopiesMembers(net, a, sends[0]);
      AllCopiesMembers(net, a, sends[1..]);
      assert forall i :: 0 < i < |sends| ==> sends[i] == sends[1..][i - 1];
      assert forall i :: 0 <= i < |sends| - 1 ==> sends[1..][i] == sends[i + 1];
    }
  }
}
