/** What the flush of the packet queue leaves behind. */
module Flush {
  import opened Base
  import opened PacketQueue
  import opened NodeState
  import opened Discovery
  import RouteTable

  function For(q: seq<QueueEntry>, dst: Addr): seq<QueueEntry> { Filter(IsFor(dst), q) }

  /** At most the last live packet for `dst` is pinned to another interface. */
  predicate Finishes(q: seq<QueueEntry>, dst: Addr, dev: Device, now: Time) {
    var mine := For(PacketQueue.Purge(q, now).queue, dst);
    Matching(mine, dev) + 1 >= |mine|
  }

  lemma {:induction false} WithoutFirstFor(q: seq<QueueEntry>, dst: Addr, n: nat)
    ensures For(WithoutFirst(q, dst, n), dst) == if n <= |For(q, dst)| then For(q, dst)[n..] else []
  {
    if q != [] && n != 0 {
      WithoutFirstFor(q[1..], dst, if q[0].header.dst == dst then n - 1 else n);
    }
  }

  lemma {:induction false} WithoutFirstOthers(q: seq<QueueEntry>, dst: Addr, n: nat, other: Addr)
    requires other != dst
    ensures For(WithoutFirst(q, dst, n), other) == For(q, other)
  {
    if q != [] && n != 0 {
      WithoutFirstOthers(q[1..], dst, if q[0].header.dst == dst then n - 1 else n, other);
    }
  }

  lemma {:induction false} WithoutFirstMembers(q: seq<QueueEntry>, dst: Addr, n: nat)
    ensures forall e :: e in WithoutFirst(q, dst, n) ==> e in q
  {
    if q != [] && n != 0 {
      WithoutFirstMembers(q[1..], dst, if q[0].header.dst == dst then n - 1 else n);
    }
  }

  /** A flush empties the queue for its destination exactly when no packet but
      the last is pinned elsewhere; it never touches another destination's
      live packets. */
  lemma FlushClearsExactly(s: Node, dst: Addr, route: RouteTable.Route, now: Time)
    ensures var s' := SendPacketFromQueue(s, dst, route, now);
            && (For(s'.queue, dst) == [] <==> Finishes(s.queue, dst, route.dev, now))
            && (forall other :: other != dst ==>
                  For(s'.queue, other) == For(PacketQueue.Purge(s.queue, now).queue, other))
            && (forall e :: e in s'.queue ==> e in s.queue)
  {
    hide Filter, WithoutFirst, ForwardedAll;
    var live := PacketQueue.Purge(s.queue, now).queue;
    var mine := For(live, dst);
    var n := Matching(mine, route.dev);
    WithoutFirstFor(live, dst, n + 1);
    forall other | other != dst
      ensures For(WithoutFirst(live, dst, n + 1), other) == For(live, other)
    {
      WithoutFirstOthers(live, dst, n + 1, other);
    }
    WithoutFirstMembers(live, dst, n + 1);
    FilterMembers(IsLive(now), s.queue);
  }

  lemma {:induction false} ForwardedAllIs(q: seq<QueueEntry>, route: RouteTable.Route, i: nat)
    requires i < |q|
    ensures ForwardedAll(q, route)[i] == Forwarded(q[i], route)
  {
    if i != 0 {
      ForwardedAllIs(q[1..], route, i - 1);
    }
  }

  /** The packet as it leaves the queue: from the route's source address, and with
      the unit of TTL back that the trip over the loopback device cost. */
  function OnItsWay(e: QueueEntry, route: RouteTable.Route): Delivery {
    Delivery(e.uid, PacketQueue.Header(route.source, e.header.dst, Wrap8(e.header.ttl + 1)), route)
  }

  /** A flush delivers the live packets for its destination one by one in the
      order of the queue, up to the first that is pinned elsewhere, and takes
      exactly those and the pinned one out of the queue. */
  lemma FlushDelivers(s: Node, dst: Addr, route: RouteTable.Route, now: Time) returns (n: nat)
    ensures var s' := SendPacketFromQueue(s, dst, route, now);
            var mine := For(PacketQueue.Purge(s.queue, now).queue, dst);
            && n <= |mine| && (n < |mine| <==> exists i :: 0 <= i < |mine| && Mismatch(mine[i], route.dev))
            && (forall i :: 0 <= i < n ==> !Mismatch(mine[i], route.dev))
            && (n < |mine| ==> Mismatch(mine[n], route.dev))
            && |s'.log.delivered| == |s.log.delivered| + n
            && s.log.delivered <= s'.log.delivered
            && (forall i :: 0 <= i < n ==> s'.log.delivered[|s.log.delivered| + i] == OnItsWay(mine[i], route))
            && For(s'.queue, dst) == if n < |mine| then mine[n + 1..] else []
  {
    hide Filter, WithoutFirst;
    var live := PacketQueue.Purge(s.queue, now).queue;
    var mine := For(live, dst);
    n := Matching(mine, route.dev);
    WithoutFirstFor(live, dst, n + 1);
    forall i | 0 <= i < n ensures ForwardedAll(mine[..n], route)[i] == Forwarded(mine[i], route) {
      ForwardedAllIs(mine[..n], route, i);
    }
  }

  // ---------------------------------------------------------------------
  // One round of the flush loop

  /** The queue without its first packet for `dst`. */
  function FirstTaken(q: seq<QueueEntry>, dst: Addr): seq<QueueEntry> {
    var i := FirstFor(q, dst);
    if i < |q| then q[..i] + q[i + 1..] else q
  }

  lemma FirstForTaken(q: seq<QueueEntry>, dst: Addr, n: nat)
    ensures var i := FirstFor(q, dst);
            if i < |q|
            then For(q, dst) == [q[i]] + For(q[..i] + q[i + 1..], dst)
                 && WithoutFirst(q, dst, n + 1) == WithoutFirst(q[..i] + q[i + 1..], dst, n)
            else For(q, dst) == [] && WithoutFirst(q, dst, n) == q
  {
    hide Filter, WithoutFirst;
    TakenFor(q, dst);
    TakenWithout(q, dst, n);
  }

  lemma {:induction false} TakenFor(q: seq<QueueEntry>, dst: Addr)
    ensures var i := FirstFor(q, dst);
            For(q, dst) == if i < |q| then [q[i]] + For(FirstTaken(q, dst), dst) else []
  {
    hide Filter;
    if q == [] {
      NothingFor(dst, 0);
    } else {
      ForCons(q, dst, 0);
      TakenCons(q, dst);
      if q[0].header.dst != dst {
        TakenFor(q[1..], dst);
        ConsFor(q[0], FirstTaken(q[1..], dst), dst, 0);
      }
    }
  }

  lemma {:induction false} TakenWithout(q: seq<QueueEntry>, dst: Addr, n: nat)
    ensures if FirstFor(q, dst) < |q|
            then WithoutFirst(q, dst, n + 1) == WithoutFirst(FirstTaken(q, dst), dst, n)
            else WithoutFirst(q, dst, n) == q
  {
    hide WithoutFirst;
    if q == [] {
      NothingFor(dst, n);
    } else {
      ForCons(q, dst, n);
      TakenCons(q, dst);
      if q[0].header.dst != dst {
        TakenWithout(q[1..], dst, n);
        ConsFor(q[0], FirstTaken(q[1..], dst), dst, n);
      }
    }
  }

  lemma TakenCons(q: seq<QueueEntry>, dst: Addr)
    requires q != []
    ensures if q[0].header.dst == dst then FirstFor(q, dst) == 0 && FirstTaken(q, dst) == q[1..]
            else FirstFor(q, dst) == FirstFor(q[1..], dst) + 1 && FirstTaken(q, dst) == [q[0]] + FirstTaken(q[1..], dst)
  {
    FirstForCons(q, dst);
    hide FirstFor;
    var i := FirstFor(q[1..], dst);
    if q[0].header.dst == dst {
      assert q[..0] + q[1..] == q[1..];
    } else if i < |q| - 1 {
      SkipLater(q, i);
    }
  }

  lemma FirstForCons(q: seq<QueueEntry>, dst: Addr)
    requires q != []
    ensures FirstFor(q, dst) == if q[0].header.dst == dst then 0 else FirstFor(q[1..], dst) + 1
  {
  }

  lemma SkipLater<T>(q: seq<T>, i: nat)
    requires i + 1 < |q|
    ensures q[..i + 1] + q[i + 2..] == [q[0]] + (q[1..][..i] + q[1..][i + 1..])
  {
  }

  /** A packet for another destination in front. */
  lemma ConsFor(e: QueueEntry, rest: seq<QueueEntry>, dst: Addr, n: nat)
    requires e.header.dst != dst
    ensures For([e] + rest, dst) == For(rest, dst)
    ensures WithoutFirst([e] + rest, dst, n) == [e] + WithoutFirst(rest, dst, n)
  {
    hide Filter, WithoutFirst;
    assert ([e] + rest)[1..] == rest;
    ForCons([e] + rest, dst, n);
    WithoutNone(rest, dst);
  }

  lemma NothingFor(dst: Addr, n: nat)
    ensures For([], dst) == [] && WithoutFirst([], dst, n) == []
  {
  }

  lemma ForCons(q: seq<QueueEntry>, dst: Addr, n: nat)
    requires q != []
    ensures For(q, dst) == (if q[0].header.dst == dst then [q[0]] else []) + For(q[1..], dst)
    ensures WithoutFirst(q, dst, 0) == q
    ensures WithoutFirst(q, dst, n + 1)
         == if q[0].header.dst == dst then WithoutFirst(q[1..], dst, n) else [q[0]] + WithoutFirst(q[1..], dst, n + 1)
    ensures n > 0 && q[0].header.dst != dst ==> WithoutFirst(q, dst, n) == [q[0]] + WithoutFirst(q[1..], dst, n)
  {
  }

  lemma PurgedStays(q: seq<QueueEntry>, q': seq<QueueEntry>, now: Time)
    requires forall e :: e in q' ==> e in PacketQueue.Purge(q, now).queue
    ensures PacketQueue.Purge(q', now) == Outcome(q', [])
  {
    hide Filter;
    FilterMembers(IsLive(now), q);
    FilterAll(IsLive(now), q');
    FilterNone(IsExpired(now), q');
  }

  lemma TakenAway(live: seq<QueueEntry>, i: nat)
    requires i < |live|
    ensures forall e :: e in live[..i] + live[i + 1..] ==> e in live
  {
  }

  lemma WithoutNone(q: seq<QueueEntry>, dst: Addr)
    ensures WithoutFirst(q, dst, 0) == q
  {
  }

  /** Taking the first packet for `dst` out of a queue without expired packets. */
  lemma FlushFirst(live: seq<QueueEntry>, dst: Addr, route: RouteTable.Route)
    requires FirstFor(live, dst) < |live|
    ensures var first, rest := live[FirstFor(live, dst)], FirstTaken(live, dst);
            var mine, n := For(live, dst), Matching(For(live, dst), route.dev);
            if Mismatch(first, route.dev) then n == 0 && WithoutFirst(live, dst, 1) == rest
            else n == Matching(For(rest, dst), route.dev) + 1
                 && WithoutFirst(live, dst, n + 1) == WithoutFirst(rest, dst, n)
                 && ForwardedAll(mine[..n], route)
                    == [Forwarded(first, route)] + ForwardedAll(For(rest, dst)[..n - 1], route)
  {
    hide Filter, WithoutFirst, FirstFor, Forwarded;
    var first, rest := live[FirstFor(live, dst)], FirstTaken(live, dst);
    var mine, n := For(live, dst), Matching(For(live, dst), route.dev);
    FirstForTaken(live, dst, n);
    WithoutNone(rest, dst);
    assert mine[0] == first && mine[1..] == For(rest, dst);
    if !Mismatch(first, route.dev) {
      assert mine[..n][1..] == For(rest, dst)[..n - 1] && mine[..n][0] == first;
    }
  }

  /** What one `Dequeue` and the delivery of its packet leave to do: nothing when
      there was no packet or it is pinned elsewhere, else the rest of the flush. */
  lemma FlushStep(s: Node, dst: Addr, route: RouteTable.Route, now: Time)
    ensures var taken := Dequeued(s.queue, dst, now);
            var s1 := s.WithQueue(PacketQueue.Dequeue(s.queue, dst, now));
            SendPacketFromQueue(s, dst, route, now) ==
              if taken.None? || Mismatch(taken.value, route.dev) then s1
              else
                var log := s1.log.(delivered := s1.log.delivered + [Forwarded(taken.value, route)]);
                SendPacketFromQueue(s1.(log := log), dst, route, now)
  {
    hide Filter, WithoutFirst, FirstFor, Matching, Forwarded;
    var live := PacketQueue.Purge(s.queue, now).queue;
    var i := FirstFor(live, dst);
    if i < |live| {
      FlushFirst(live, dst, route);
      TakenAway(live, i);
      PurgedStays(s.queue, FirstTaken(live, dst), now);
    } else {
      FirstForTaken(live, dst, 1);
      NothingMatches(route);
    }
  }

  lemma NothingMatches(route: RouteTable.Route)
    ensures Matching([], route.dev) == 0 && ForwardedAll([], route) == []
  {
  }
}
