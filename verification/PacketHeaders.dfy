/** The headers as objects that serialize themselves and are overwritten by Deserialize. */
module PacketHeaders {
  import opened Base
  import opened Messages
  import opened Packets

  class RreqHeader {
    var flags: U8
    var reserved: U8
    var hopCount: U8
    var requestID: U32
    var dst: Addr
    var dstSeqNo: U32
    var origin: Addr
    var originSeqNo: U32

    ghost function Value(): RreqFields
      reads this
    {
      RreqFields(flags, reserved, hopCount, requestID, dst, dstSeqNo, origin, originSeqNo)
    }

    constructor (h: RreqFields)
      ensures Value() == h
    {
      flags, reserved, hopCount, requestID := h.flags, h.reserved, h.hopCount, h.requestID;
      dst, dstSeqNo, origin, originSeqNo := h.dst, h.dstSeqNo, h.origin, h.originSeqNo;
    }

    method Serialize() returns (b: seq<U8>)
      ensures b == RreqBytes(Value())
    {
      b := [flags, reserved, hopCount];
      b := b + U32Bytes(requestID);
      b := b + U32Bytes(dst);
      b := b + U32Bytes(dstSeqNo);
      b := b + U32Bytes(origin);
      b := b + U32Bytes(originSeqNo);
    }

    method Deserialize(b: seq<U8>) returns (consumed: nat)
      requires |b| >= RREQ_SIZE
      modifies this
      ensures Value() == RreqParse(b) && consumed == RREQ_SIZE
    {
      flags, reserved, hopCount := b[0], b[1], b[2];
      requestID := U32At(b, 3);
      dst := U32At(b, 7);
      dstSeqNo := U32At(b, 11);
      origin := U32At(b, 15);
      originSeqNo := U32At(b, 19);
      consumed := 23;
    }
  }

  class RrepHeader {
    var flags: U8
    var prefixSize: U8
    var hopCount: U8
    var dst: Addr
    var dstSeqNo: U32
    var origin: Addr
    var lifeTime: U32

    ghost function Value(): RrepFields
      reads this
    {
      RrepFields(flags, prefixSize, hopCount, dst, dstSeqNo, origin, lifeTime)
    }

    constructor (h: RrepFields)
      ensures Value() == h
    {
      flags, prefixSize, hopCount := h.flags, h.prefixSize, h.hopCount;
      dst, dstSeqNo, origin, lifeTime := h.dst, h.dstSeqNo, h.origin, h.lifeTime;
    }

    method Serialize() returns (b: seq<U8>)
      ensures b == RrepBytes(Value())
    {
      b := [flags, prefixSize, hopCount];
      b := b + U32Bytes(dst);
      b := b + U32Bytes(dstSeqNo);
      b := b + U32Bytes(origin);
      b := b + U32Bytes(lifeTime);
    }

    method Deserialize(b: seq<U8>) returns (consumed: nat)
      requires |b| >= RREP_SIZE
      modifies this
      ensures Value() == RrepParse(b) && consumed == RREP_SIZE
    {
      flags, prefixSize, hopCount := b[0], b[1], b[2];
      dst := U32At(b, 3);
      dstSeqNo := U32At(b, 7);
      origin := U32At(b, 11);
      lifeTime := U32At(b, 15);
      consumed := 19;
    }
  }

  class RerrHeader {
    var flag: U8
    var reserved: U8
    var unreachable: map<Addr, U32>

    ghost function Value(): Rerr
      reads this
    {
      Rerr(flag, reserved, unreachable)
    }

    constructor ()
      ensures Value() == Rerr(0, 0, map[])
    {
      flag, reserved, unreachable := 0, 0, map[];
    }

    /** With assertions compiled out, a destination too many for the one-byte
        count is added all the same. */
    method AddUnDestination(dst: Addr, seqNo: U32) returns (added: bool)
      modifies this`unreachable
      ensures added
      ensures unreachable == InsertPair(old(unreachable), Pair(dst, seqNo))
    {
      if dst !in unreachable {
        unreachable := unreachable[dst := seqNo];
      }
      added := true;
    }

    /** Takes the least address out of the map. */
    method RemoveUnDestination() returns (un: Option<Pair>)
      modifies this`unreachable
      ensures old(unreachable) == map[] ==> un.None? && unreachable == map[]
      ensures old(unreachable) != map[] ==>
        && un.Some? && un.value.addr in old(unreachable) && un.value.seqNo == old(unreachable)[un.value.addr]
        && (forall k :: k in old(unreachable) ==> un.value.addr <= k)
        && unreachable == old(unreachable) - {un.value.addr}
    {
      if unreachable == map[] {
        return None;
      }
      assert unreachable.Keys != {};
      var k := Least(unreachable.Keys);
      un := Some(Pair(k, unreachable[k]));
      unreachable := unreachable - {k};
    }

    method Clear()
      modifies this
      ensures Value() == Rerr(0, 0, map[])
    {
      unreachable, flag, reserved := map[], 0, 0;
    }

    method Serialize() returns (b: seq<U8>)
      ensures b == RerrBytes(Value())
    {
      hide U32Bytes, SortedKeys, PairBytes, PairsOf;
      b := [flag, reserved, DestCount(unreachable)];
      var todo := unreachable.Keys;
      while todo != {}
        invariant todo <= unreachable.Keys
        invariant b + PairBytes(PairsOf(SortedKeys(todo), unreachable)) == RerrBytes(Value())
      {
        var j := Least(todo);
        ghost var tail := PairBytes(PairsOf(SortedKeys(todo - {j}), unreachable));
        WritePairStep(todo, unreachable);
        Regroup(b, U32Bytes(j), U32Bytes(unreachable[j]), tail);
        b := b + U32Bytes(j);
        b := b + U32Bytes(unreachable[j]);
        todo := todo - {j};
      }
      NoPairs(unreachable, b);
    }

    /** Overwrites the header with what the bytes say; a repeated address keeps its first number. */
    method Deserialize(b: seq<U8>) returns (consumed: nat)
      requires HoldsRerr(b)
      modifies this
      ensures Value() == RerrParse(b) && consumed == RerrLength(b[2])
    {
      hide U32At, MapOf, ReadPairs, RerrPairs;
      flag, reserved := b[0], b[1];
      unreachable := map[];
      var dest := b[2];
      var i := 3;
      ghost var ps := RerrPairs(b);
      NothingInserted(ps);
      for k := 0 to dest
        invariant i == 3 + 8 * k
        invariant flag == b[0] && reserved == b[1]
        invariant unreachable == MapOf(ps[..k])
      {
        PairFrom(b, k);
        MapOfSnoc(ps[..k], ps[k]);
        assert ps[..k + 1] == ps[..k] + [ps[k]];
        var address := U32At(b, i);
        var seqNo := U32At(b, i + 4);
        if address !in unreachable {
          unreachable := unreachable[address := seqNo];
        }
        i := i + 8;
      }
      assert ps[..dest] == ps;
      consumed := i;
    }
  }

  lemma NothingInserted(ps: seq<Pair>)
    ensures MapOf(ps[..0]) == map[]
  {
  }

  lemma PairFrom(b: seq<U8>, k: nat)
    requires HoldsRerr(b) && k < b[2]
    ensures 3 + 8 * k + 8 <= |b| && RerrPairs(b)[k] == Pair(U32At(b, 3 + 8 * k), U32At(b, 3 + 8 * k + 4))
  {
    hide U32At;
    ReadPairsAt(b[3..], b[2], k);
    WordBehind(b, 3, 8 * k);
    WordBehind(b, 3, 8 * k + 4);
  }

  lemma WordBehind(b: seq<U8>, n: nat, i: nat)
    requires n + i + 4 <= |b|
    ensures U32At(b[n..], i) == U32At(b, n + i)
  {
    hide Join;
  }

  lemma Regroup(b: seq<U8>, x: seq<U8>, y: seq<U8>, tail: seq<U8>)
    ensures b + (x + y + tail) == b + x + y + tail
  {
  }

  lemma NoPairs(m: map<Addr, U32>, b: seq<U8>)
    ensures b + PairBytes(PairsOf(SortedKeys({}), m)) == b
  {
  }
}
