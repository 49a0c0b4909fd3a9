/** The drop-front buffer in the form the protocol keeps it. */
module RequestQueues {
  import opened Base
  import opened PacketQueue

  class RequestQueue {
    var queue: seq<QueueEntry>
    var maxLen: U32
    var queueTimeout: Time

    /** The packets whose ErrorCallback has been run, oldest first. */
    var errors: seq<QueueEntry>

    constructor (maxLen: U32, queueTimeout: Time)
      ensures queue == [] && errors == []
      ensures this.maxLen == maxLen && this.queueTimeout == queueTimeout
    {
      this.queue, this.errors := [], [];
      this.maxLen, this.queueTimeout := maxLen, queueTimeout;
    }

    /** What the operation with outcome `o` leaves behind. */
    ghost predicate Became(q: seq<QueueEntry>, err: seq<QueueEntry>, o: Outcome)
      reads this
    {
      queue == o.queue && errors == err + o.failed
    }

    /** Run the callback of every expired packet, then erase them. */
    method Purge(now: Time)
      modifies this`queue, this`errors
      ensures Became(old(queue), old(errors), PacketQueue.Purge(old(queue), now))
    {
      for i := 0 to |queue|
        invariant queue == old(queue)
        invariant errors == old(errors) + Filter(IsExpired(now), queue[..i])
      {
        FilterSnoc(IsExpired(now), queue, i);
        if Expired(queue[i], now) {
          errors := errors + [queue[i]];
        }
      }
      assert queue[..|queue|] == queue;
      queue := RemoveIf(IsLive(now));
    }

    /** `std::remove_if` followed by `erase`: what satisfies `keep` moves up, in order. */
    method RemoveIf(keep: QueueEntry -> bool) returns (r: seq<QueueEntry>)
      ensures r == Filter(keep, queue)
    {
      r := [];
      for i := 0 to |queue|
        invariant r == Filter(keep, queue[..i])
      {
        FilterSnoc(keep, queue, i);
        if keep(queue[i]) {
          r := r + [queue[i]];
        }
      }
      assert queue[..|queue|] == queue;
    }

    method GetSize(now: Time) returns (n: nat)
      modifies this`queue, this`errors
      ensures Became(old(queue), old(errors), PacketQueue.Purge(old(queue), now))
      ensures n == |queue|
    {
      Purge(now);
      n := |queue|;
    }

    /** With a limit of zero the source would drop the front of an empty vector;
        a caller has to keep the limit positive. */
    method Enqueue(entry: QueueEntry, now: Time) returns (queued: bool)
      requires maxLen >= 1
      modifies this`queue, this`errors
      ensures Became(old(queue), old(errors), PacketQueue.Enqueue(old(queue), entry, maxLen, queueTimeout, now))
      ensures queued <==> Accepts(old(queue), entry, now)
    {
      Purge(now);
      for i := 0 to |queue|
        invariant forall j :: 0 <= j < i ==> !SamePacket(queue[j], entry)
      {
        if queue[i].uid == entry.uid && queue[i].header.dst == entry.header.dst {
          assert SamePacket(queue[i], entry);
          return false;
        }
      }
      var stamped := entry.(expire := queueTimeout + now);
      ghost var live := PacketQueue.Purge(old(queue), now);
      if |queue| == maxLen {
        errors := errors + [queue[0]];
        queue := queue[1..];
        assert errors == old(errors) + (live.failed + [live.queue[0]]);
      }
      queue := queue + [stamped];
      queued := true;
    }

    method Dequeue(dst: Addr, now: Time) returns (entry: Option<QueueEntry>)
      modifies this`queue, this`errors
      ensures Became(old(queue), old(errors), PacketQueue.Dequeue(old(queue), dst, now))
      ensures entry == Dequeued(old(queue), dst, now)
    {
      Purge(now);
      for i := 0 to |queue|
        invariant queue == PacketQueue.Purge(old(queue), now).queue
        invariant forall j :: 0 <= j < i ==> queue[j].header.dst != dst
      {
        if queue[i].header.dst == dst {
          entry := Some(queue[i]);
          queue := queue[..i] + queue[i + 1..];
          return;
        }
      }
      entry := None;
    }

    method DropPacketWithDst(dst: Addr, now: Time)
      modifies this`queue, this`errors
      ensures Became(old(queue), old(errors), PacketQueue.DropPacketWithDst(old(queue), dst, now))
    {
      Purge(now);
      ghost var start := errors;
      for i := 0 to |queue|
        invariant queue == PacketQueue.Purge(old(queue), now).queue
        invariant errors == start + Filter(IsFor(dst), queue[..i])
      {
        FilterSnoc(IsFor(dst), queue, i);
        if queue[i].header.dst == dst {
          errors := errors + [queue[i]];
        }
      }
      assert queue[..|queue|] == queue;
      queue := RemoveIf(IsNotFor(dst));
      ghost var o := PacketQueue.Purge(old(queue), now);
      assert errors == old(errors) + (o.failed + Filter(IsFor(dst), o.queue));
    }

    /** `Find` does not purge: it also reports packets that have expired. */
    method Find(dst: Addr) returns (found: bool)
      ensures found <==> FirstFor(queue, dst) < |queue|
    {
      for i := 0 to |queue|
        invariant forall j :: 0 <= j < i ==> queue[j].header.dst != dst
      {
        if queue[i].header.dst == dst {
          return true;
        }
      }
      return false;
    }
  }
}
