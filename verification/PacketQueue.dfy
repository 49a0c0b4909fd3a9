/** The drop-front buffer for packets that wait for a route, as a value. */
module PacketQueue {
  import opened Base

  /** The part of the IPv4 header that the protocol reads and rewrites. */
  datatype Header = Header(src: Addr, dst: Addr, ttl: U8)

  /** `oif` is the interface index in the packet's deferred-output tag, -1 for
      "any" or no tag; `expire` is absolute. */
  datatype QueueEntry = QueueEntry(uid: int, header: Header, oif: int, expire: Time)

  predicate Expired(e: QueueEntry, now: Time) { e.expire - now < 0 }

  function IsExpired(now: Time): QueueEntry -> bool { (e: QueueEntry) => Expired(e, now) }

  function IsLive(now: Time): QueueEntry -> bool { (e: QueueEntry) => !Expired(e, now) }

  function IsFor(dst: Addr): QueueEntry -> bool { (e: QueueEntry) => e.header.dst == dst }

  function IsNotFor(dst: Addr): QueueEntry -> bool { (e: QueueEntry) => e.header.dst != dst }

  /** What a call leaves behind: the queue and the packets whose ErrorCallback it ran, in order. */
  datatype Outcome = Outcome(queue: seq<QueueEntry>, failed: seq<QueueEntry>)

  function Purge(q: seq<QueueEntry>, now: Time): Outcome {
    Outcome(Filter(IsLive(now), q), Filter(IsExpired(now), q))
  }

  /** The packet identity that the queue keeps unique. */
  predicate SamePacket(a: QueueEntry, b: QueueEntry) {
    a.uid == b.uid && a.header.dst == b.header.dst
  }

  predicate Holds(q: seq<QueueEntry>, e: QueueEntry) {
    exists i :: 0 <= i < |q| && SamePacket(q[i], e)
  }

  /** Append to a purged queue; when it is full the oldest packet gives way. */
  function Append(p: Outcome, e: QueueEntry, maxLen: nat): Outcome {
    if p.queue != [] && |p.queue| == maxLen
    then Outcome(p.queue[1..] + [e], p.failed + [p.queue[0]])
    else Outcome(p.queue + [e], p.failed)
  }

  predicate Accepts(q: seq<QueueEntry>, e: QueueEntry, now: Time) {
    !Holds(Purge(q, now).queue, e)
  }

  function Enqueue(q: seq<QueueEntry>, e: QueueEntry, maxLen: nat, timeout: Time, now: Time): Outcome {
    if Accepts(q, e, now) then Append(Purge(q, now), e.(expire := timeout + now), maxLen)
    else Purge(q, now)
  }

  /** The index of the first packet for `dst`, or the length when there is none. */
  function FirstFor(q: seq<QueueEntry>, dst: Addr): (i: nat)
    ensures i <= |q|
    ensures i < |q| ==> q[i].header.dst == dst
    ensures forall j :: 0 <= j < i ==> q[j].header.dst != dst
  {
    if q == [] || q[0].header.dst == dst then 0
    else
      var rest := FirstFor(q[1..], dst);
      assert forall j :: 0 < j < |q| ==> q[j] == q[1..][j - 1];
      rest + 1
  }

  function Dequeued(q: seq<QueueEntry>, dst: Addr, now: Time): Option<QueueEntry> {
    var live := Purge(q, now).queue;
    var i := FirstFor(live, dst);
    if i < |live| then Some(live[i]) else None
  }

  function Dequeue(q: seq<QueueEntry>, dst: Addr, now: Time): Outcome {
    var p := Purge(q, now);
    var i := FirstFor(p.queue, dst);
    if i < |p.queue| then p.(queue := p.queue[..i] + p.queue[i + 1..]) else p
  }

  function DropPacketWithDst(q: seq<QueueEntry>, dst: Addr, now: Time): Outcome {
    var p := Purge(q, now);
    Outcome(Filter(IsNotFor(dst), p.queue), p.failed + Filter(IsFor(dst), p.queue))
  }

  ghost predicate Unique(q: seq<QueueEntry>) {
    forall i, j :: 0 <= i < j < |q| ==> !SamePacket(q[i], q[j])
  }

  // ---------------------------------------------------------------------
  // Conservation over whole runs

  datatype Operation =
    | DoEnqueue(entry: QueueEntry)
    | DoDequeue(dst: Addr)
    | DoDrop(dst: Addr)
    | DoPurge

  /** The queue together with the history of its callers: every packet it ever
      accepted, handed out by Dequeue, or gave back through an ErrorCallback. */
  datatype Ledger = Ledger(
    queue: seq<QueueEntry>, accepted: seq<QueueEntry>,
    served: seq<QueueEntry>, errors: seq<QueueEntry>)

  const EMPTY_LEDGER := Ledger([], [], [], [])

  function Step(l: Ledger, op: Operation, maxLen: nat, timeout: Time, now: Time): Ledger {
    match op
    case DoPurge =>
      var o := Purge(l.queue, now);
      l.(queue := o.queue, errors := l.errors + o.failed)
    case DoEnqueue(e) =>
      var o := Enqueue(l.queue, e, maxLen, timeout, now);
      l.(queue := o.queue, errors := l.errors + o.failed,
         accepted := if Accepts(l.queue, e, now) then l.accepted + [e.(expire := timeout + now)] else l.accepted)
    case DoDequeue(dst) =>
      var o := Dequeue(l.queue, dst, now);
      var d := Dequeued(l.queue, dst, now);
      l.(queue := o.queue, errors := l.errors + o.failed,
         served := if d.Some? then l.served + [d.value] else l.served)
    case DoDrop(dst) =>
      var o := DropPacketWithDst(l.queue, dst, now);
      l.(queue := o.queue, errors := l.errors + o.failed)
  }

  function Run(l: Ledger, ops: seq<(Operation, Time)>, maxLen: nat, timeout: Time): Ledger
    decreases |ops|
  {
    if ops == [] then l
    else Run(Step(l, ops[0].0, maxLen, timeout, ops[0].1), ops[1..], maxLen, timeout)
  }

  /** `a` is what is left of `b` after crossing out some of its elements. */
  ghost predicate Subsequence(a: seq<QueueEntry>, b: seq<QueueEntry>)
    decreases |b|
  {
    a == [] ||
    (b != [] && (Subsequence(a, b[1..]) || (a[0] == b[0] && Subsequence(a[1..], b[1..]))))
  }

  /** The accounting identity: what was accepted is waiting, was handed out, or
      had its ErrorCallback run exactly once. */
  ghost predicate Conserved(l: Ledger) {
    multiset(l.accepted) == multiset(l.queue) + multiset(l.served) + multiset(l.errors)
  }

  /** Per destination, the packets handed out and then those still waiting
      stand in the order in which they were accepted. */
  ghost predicate Fifo(l: Ledger) {
    forall dst :: FifoFor(l, dst)
  }

  ghost predicate FifoFor(l: Ledger, dst: Addr) {
    Subsequence(Filter(IsFor(dst), l.served) + Filter(IsFor(dst), l.queue), Filter(IsFor(dst), l.accepted))
  }

  ghost predicate LedgerOk(l: Ledger, maxLen: nat) {
    && Conserved(l)
    && Fifo(l)
    && Unique(l.queue)
    && |l.queue| <= maxLen
  }

  // Subsequences

  lemma {:induction false} SubsequenceSelf(a: seq<QueueEntry>)
    ensures Subsequence(a, a)
  {
    if a != [] { SubsequenceSelf(a[1..]); }
  }

  lemma {:induction false} SubsequenceTrans(a: seq<QueueEntry>, b: seq<QueueEntry>, c: seq<QueueEntry>)
    requires Subsequence(a, b) && Subsequence(b, c)
    ensures Subsequence(a, c)
    decreases |c|
  {
    if a != [] {
      if Subsequence(b, c[1..]) {
        SubsequenceTrans(a, b, c[1..]);
      } else if Subsequence(a, b[1..]) {
        SubsequenceTrans(a, b[1..], c[1..]);
      } else {
        SubsequenceTrans(a[1..], b[1..], c[1..]);
      }
    }
  }

  lemma {:induction false} SubsequenceAppend(a: seq<QueueEntry>, b: seq<QueueEntry>, c: seq<QueueEntry>)
    requires Subsequence(a, b)
    ensures Subsequence(a + c, b + c)
    decreases |b|
  {
    if b == [] {
      assert a + c == c && b + c == c;
      SubsequenceSelf(c);
    } else {
      assert (b + c)[1..] == b[1..] + c;
      if Subsequence(a, b[1..]) {
        SubsequenceAppend(a, b[1..], c);
      } else {
        SubsequenceAppend(a[1..], b[1..], c);
        assert (a + c)[1..] == a[1..] + c;
      }
    }
  }

  lemma {:induction false} SubsequencePrepend(c: seq<QueueEntry>, a: seq<QueueEntry>, b: seq<QueueEntry>)
    requires Subsequence(a, b)
    ensures Subsequence(c + a, c + b)
  {
    if c == [] {
      assert c + a == a && c + b == b;
    } else {
      SubsequencePrepend(c[1..], a, b);
      assert (c + a)[1..] == c[1..] + a && (c + b)[1..] == c[1..] + b;
    }
  }

  lemma {:induction false} FilterSubsequence(p: QueueEntry -> bool, q: seq<QueueEntry>)
    ensures Subsequence(Filter(p, q), q)
  {
    if q != [] {
      FilterSubsequence(p, q[1..]);
    }
  }

  lemma {:induction false} SubsequenceFilter(p: QueueEntry -> bool, a: seq<QueueEntry>, b: seq<QueueEntry>)
    requires Subsequence(a, b)
    ensures Subsequence(Filter(p, a), Filter(p, b))
    decreases |b|
  {
    if a != [] {
      var fb := Filter(p, b[1..]);
      if Subsequence(a, b[1..]) {
        SubsequenceFilter(p, a, b[1..]);
        if p(b[0]) { assert ([b[0]] + fb)[1..] == fb; }
      } else {
        SubsequenceFilter(p, a[1..], b[1..]);
        if p(b[0]) {
          assert ([b[0]] + fb)[1..] == fb;
          assert ([a[0]] + Filter(p, a[1..]))[1..] == Filter(p, a[1..]);
        }
      }
    }
  }

  // Multisets and uniqueness under filtering

  lemma {:induction false} FilterSplits(p: QueueEntry -> bool, n: QueueEntry -> bool, q: seq<QueueEntry>)
    requires forall e :: n(e) == !p(e)
    ensures multiset(Filter(p, q)) + multiset(Filter(n, q)) == multiset(q)
  {
    if q != [] {
      var a, b := Filter(p, q[1..]), Filter(n, q[1..]);
      FilterSplits(p, n, q[1..]);
      assert q == [q[0]] + q[1..];
      if p(q[0]) {
        assert Filter(p, q) == [q[0]] + a && Filter(n, q) == b;
      } else {
        assert Filter(p, q) == a && Filter(n, q) == [q[0]] + b;
      }
    }
  }

  lemma {:induction false} FilterUnique(p: QueueEntry -> bool, q: seq<QueueEntry>)
    requires Unique(q)
    ensures Unique(Filter(p, q))
  {
    if q != [] {
      FilterUnique(p, q[1..]);
      FilterMembers(p, q[1..]);
      var rest := Filter(p, q[1..]);
      forall i | 0 <= i < |rest| ensures !SamePacket(q[0], rest[i]) {
        assert rest[i] in q[1..];
      }
    }
  }

  /** Crossing packets out of the queue keeps the order of what is left. */
  lemma FifoShrink(l: Ledger, l': Ledger)
    requires Fifo(l) && Subsequence(l'.queue, l.queue)
    requires l'.accepted == l.accepted && l'.served == l.served
    ensures Fifo(l')
  {
    forall dst ensures FifoFor(l', dst) {
      assert FifoFor(l, dst);
      SubsequenceFilter(IsFor(dst), l'.queue, l.queue);
      SubsequencePrepend(Filter(IsFor(dst), l.served), Filter(IsFor(dst), l'.queue), Filter(IsFor(dst), l.queue));
      SubsequenceTrans(Filter(IsFor(dst), l'.served) + Filter(IsFor(dst), l'.queue),
                       Filter(IsFor(dst), l.served) + Filter(IsFor(dst), l.queue),
                       Filter(IsFor(dst), l.accepted));
    }
  }

  lemma FifoAppend(l: Ledger, l': Ledger, e: QueueEntry)
    requires Fifo(l)
    requires l'.queue == l.queue + [e] && l'.accepted == l.accepted + [e] && l'.served == l.served
    ensures Fifo(l')
  {
    forall dst ensures FifoFor(l', dst) {
      assert FifoFor(l, dst);
      var one := Filter(IsFor(dst), [e]);
      FilterAppend(IsFor(dst), l.queue, [e]);
      FilterAppend(IsFor(dst), l.accepted, [e]);
      SubsequenceAppend(Filter(IsFor(dst), l.served) + Filter(IsFor(dst), l.queue),
                        Filter(IsFor(dst), l.accepted), one);
      assert Filter(IsFor(dst), l.served) + Filter(IsFor(dst), l.queue) + one
          == Filter(IsFor(dst), l'.served) + Filter(IsFor(dst), l'.queue);
    }
  }

  lemma FifoServe(l: Ledger, l': Ledger, i: nat, to: Addr)
    requires Fifo(l) && i == FirstFor(l.queue, to) && i < |l.queue|
    requires l'.queue == l.queue[..i] + l.queue[i + 1..]
    requires l'.accepted == l.accepted && l'.served == l.served + [l.queue[i]]
    ensures Fifo(l')
  {
    forall dst ensures FifoFor(l', dst) {
      assert FifoFor(l, dst);
      FilterAppend(IsFor(dst), l.served, [l.queue[i]]);
      FilterAround(IsFor(dst), l.queue, i);
      var x := if dst == to then [l.queue[i]] else [];
      if dst == to {
        FilterNone(IsFor(dst), l.queue[..i]);
      }
      assert Filter(IsFor(dst), [l.queue[i]]) == x;
      ServedBeforeWaiting(Filter(IsFor(dst), l.served), Filter(IsFor(dst), l.queue[..i]), x,
                          Filter(IsFor(dst), l.queue[i + 1..]));
    }
  }

  lemma ServedBeforeWaiting(s: seq<QueueEntry>, a: seq<QueueEntry>, x: seq<QueueEntry>, b: seq<QueueEntry>)
    requires a == [] || x == []
    ensures s + (a + (x + b)) == (s + x) + (a + b)
  {
  }

  lemma RemoveUnique(q: seq<QueueEntry>, i: nat)
    requires Unique(q) && i < |q|
    ensures Unique(q[..i] + q[i + 1..])
  {
    var r := q[..i] + q[i + 1..];
    forall j | 0 <= j < |r| ensures r[j] == q[if j < i then j else j + 1] {
    }
  }

  // Every operation keeps the ledger in order

  lemma PurgeOk(l: Ledger, maxLen: nat, timeout: Time, now: Time)
    requires LedgerOk(l, maxLen)
    ensures LedgerOk(Step(l, DoPurge, maxLen, timeout, now), maxLen)
  {
    hide Fifo, Filter;
    FilterSplits(IsLive(now), IsExpired(now), l.queue);
    FilterUnique(IsLive(now), l.queue);
    FilterSubsequence(IsLive(now), l.queue);
    FifoShrink(l, Step(l, DoPurge, maxLen, timeout, now));
  }

  function Evicted(l: Ledger): Ledger
    requires l.queue != []
  {
    l.(queue := l.queue[1..], errors := l.errors + [l.queue[0]])
  }

  function Pushed(l: Ledger, e: QueueEntry): Ledger {
    l.(queue := l.queue + [e], accepted := l.accepted + [e])
  }

  lemma EvictOk(l: Ledger, maxLen: nat)
    requires LedgerOk(l, maxLen) && l.queue != []
    ensures LedgerOk(Evicted(l), maxLen)
  {
    hide Fifo, Filter;
    assert l.queue == [l.queue[0]] + l.queue[1..];
    SubsequenceSelf(l.queue[1..]);
    FifoShrink(l, Evicted(l));
  }

  lemma PushOk(l: Ledger, e: QueueEntry, maxLen: nat)
    requires LedgerOk(l, maxLen) && |l.queue| < maxLen && !Holds(l.queue, e)
    ensures LedgerOk(Pushed(l, e), maxLen)
  {
    hide Fifo, Filter;
    FifoAppend(l, Pushed(l, e), e);
  }

  lemma EnqueueIsPurgeThenPush(l: Ledger, e: QueueEntry, maxLen: nat, timeout: Time, now: Time)
    ensures var p := Step(l, DoPurge, maxLen, timeout, now);
            var stamped := e.(expire := timeout + now);
            Step(l, DoEnqueue(e), maxLen, timeout, now) ==
              if Holds(p.queue, e) then p
              else if p.queue != [] && |p.queue| == maxLen then Pushed(Evicted(p), stamped)
              else Pushed(p, stamped)
  {
    hide Filter, Holds;
    var o := Purge(l.queue, now);
    if o.queue != [] {
      assert l.errors + (o.failed + [o.queue[0]]) == (l.errors + o.failed) + [o.queue[0]];
    }
  }

  lemma EnqueueOk(l: Ledger, e: QueueEntry, maxLen: nat, timeout: Time, now: Time)
    requires LedgerOk(l, maxLen) && maxLen >= 1
    ensures LedgerOk(Step(l, DoEnqueue(e), maxLen, timeout, now), maxLen)
  {
    hide Fifo, Conserved, Unique, Step;
    PurgeOk(l, maxLen, timeout, now);
    EnqueueIsPurgeThenPush(l, e, maxLen, timeout, now);
    var p := Step(l, DoPurge, maxLen, timeout, now);
    if !Holds(p.queue, e) {
      if p.queue != [] && |p.queue| == maxLen {
        EvictOk(p, maxLen);
        PushOk(Evicted(p), e.(expire := timeout + now), maxLen);
      } else {
        PushOk(p, e.(expire := timeout + now), maxLen);
      }
    }
  }

  lemma ServeOk(l: Ledger, dst: Addr, maxLen: nat)
    requires LedgerOk(l, maxLen) && FirstFor(l.queue, dst) < |l.queue|
    ensures LedgerOk(Served(l, dst), maxLen)
  {
    hide Fifo, Filter, Conserved, Unique;
    var i := FirstFor(l.queue, dst);
    RemoveUnique(l.queue, i);
    FifoServe(l, Served(l, dst), i, dst);
    ServeConserves(l, dst, i);
  }

  lemma ServeConserves(l: Ledger, dst: Addr, i: nat)
    requires Conserved(l) && i == FirstFor(l.queue, dst) && i < |l.queue|
    ensures Conserved(Served(l, dst))
  {
    hide FirstFor;
    TakeOut(l.queue, i);
  }

  lemma TakeOut(q: seq<QueueEntry>, i: nat)
    requires i < |q|
    ensures multiset(q) == multiset(q[..i] + q[i + 1..]) + multiset([q[i]])
  {
    SplitAt(q, i);
  }

  function Served(l: Ledger, dst: Addr): Ledger
    requires FirstFor(l.queue, dst) < |l.queue|
  {
    var i := FirstFor(l.queue, dst);
    l.(queue := l.queue[..i] + l.queue[i + 1..], served := l.served + [l.queue[i]])
  }

  lemma DequeueIsPurgeThenServe(l: Ledger, dst: Addr, maxLen: nat, timeout: Time, now: Time)
    ensures var p := Step(l, DoPurge, maxLen, timeout, now);
            Step(l, DoDequeue(dst), maxLen, timeout, now) ==
              if FirstFor(p.queue, dst) < |p.queue| then Served(p, dst) else p
  {
    hide Filter, FirstFor;
  }

  lemma DequeueOk(l: Ledger, dst: Addr, maxLen: nat, timeout: Time, now: Time)
    requires LedgerOk(l, maxLen)
    ensures LedgerOk(Step(l, DoDequeue(dst), maxLen, timeout, now), maxLen)
  {
    hide Fifo, Filter;
    PurgeOk(l, maxLen, timeout, now);
    DequeueIsPurgeThenServe(l, dst, maxLen, timeout, now);
    var p := Step(l, DoPurge, maxLen, timeout, now);
    if FirstFor(p.queue, dst) < |p.queue| {
      ServeOk(p, dst, maxLen);
    }
  }

  function Dropped(l: Ledger, dst: Addr): Ledger {
    l.(queue := Filter(IsNotFor(dst), l.queue), errors := l.errors + Filter(IsFor(dst), l.queue))
  }

  lemma DropIsPurgeThenDrop(l: Ledger, dst: Addr, maxLen: nat, timeout: Time, now: Time)
    ensures Step(l, DoDrop(dst), maxLen, timeout, now) == Dropped(Step(l, DoPurge, maxLen, timeout, now), dst)
  {
    var o := Purge(l.queue, now);
    assert l.errors + (o.failed + Filter(IsFor(dst), o.queue)) == (l.errors + o.failed) + Filter(IsFor(dst), o.queue);
  }

  lemma DropLiveOk(l: Ledger, dst: Addr, maxLen: nat)
    requires LedgerOk(l, maxLen)
    ensures LedgerOk(Dropped(l, dst), maxLen)
  {
    hide Fifo, Filter;
    FilterSplits(IsNotFor(dst), IsFor(dst), l.queue);
    FilterUnique(IsNotFor(dst), l.queue);
    FilterSubsequence(IsNotFor(dst), l.queue);
    FifoShrink(l, Dropped(l, dst));
  }

  lemma DropOk(l: Ledger, dst: Addr, maxLen: nat, timeout: Time, now: Time)
    requires LedgerOk(l, maxLen)
    ensures LedgerOk(Step(l, DoDrop(dst), maxLen, timeout, now), maxLen)
  {
    hide Fifo, Filter;
    PurgeOk(l, maxLen, timeout, now);
    DropIsPurgeThenDrop(l, dst, maxLen, timeout, now);
    DropLiveOk(Step(l, DoPurge, maxLen, timeout, now), dst, maxLen);
  }

  lemma StepOk(l: Ledger, op: Operation, maxLen: nat, timeout: Time, now: Time)
    requires LedgerOk(l, maxLen) && maxLen >= 1
    ensures LedgerOk(Step(l, op, maxLen, timeout, now), maxLen)
  {
    match op
    case DoPurge => PurgeOk(l, maxLen, timeout, now);
    case DoEnqueue(e) => EnqueueOk(l, e, maxLen, timeout, now);
    case DoDequeue(dst) => DequeueOk(l, dst, maxLen, timeout, now);
    case DoDrop(dst) => DropOk(l, dst, maxLen, timeout, now);
  }

  /** Over every run with a length limit of at least one: nothing is lost or
      reported twice, nothing is queued twice, the limit holds, and each
      destination is served first come, first served. */
  lemma {:induction false} RunConserves(l: Ledger, ops: seq<(Operation, Time)>, maxLen: nat, timeout: Time)
    requires LedgerOk(l, maxLen) && maxLen >= 1
    ensures LedgerOk(Run(l, ops, maxLen, timeout), maxLen)
    decreases |ops|
  {
    if ops != [] {
      StepOk(l, ops[0].0, maxLen, timeout, ops[0].1);
      RunConserves(Step(l, ops[0].0, maxLen, timeout, ops[0].1), ops[1..], maxLen, timeout);
    }
  }

  lemma EmptyLedgerOk(maxLen: nat)
    ensures LedgerOk(EMPTY_LEDGER, maxLen)
  {
  }

  /** The same of every queue that was empty at first. */
  lemma EmptyRunConserves(ops: seq<(Operation, Time)>, maxLen: nat, timeout: Time)
    requires maxLen >= 1
    ensures LedgerOk(Run(EMPTY_LEDGER, ops, maxLen, timeout), maxLen)
  {
    EmptyLedgerOk(maxLen);
    RunConserves(EMPTY_LEDGER, ops, maxLen, timeout);
  }
}
