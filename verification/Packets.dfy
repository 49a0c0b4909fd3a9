/** The wire format of the control messages (sections 5.1 to 5.4 of RFC 3561). */
module Packets {
  import opened Base
  import opened Messages

  // ---------------------------------------------------------------------
  // Integers in network byte order

  function U32Bytes(x: U32): (b: seq<U8>)
    ensures |b| == 4
  {
    [x / 0x100_0000, x / 0x1_0000 % 0x100, x / 0x100 % 0x100, x % 0x100]
  }

  function U32At(b: seq<U8>, i: nat): U32
    requires i + 4 <= |b|
  {
    Join(b[i], b[i + 1], b[i + 2], b[i + 3])
  }

  function Join(a: int, b: int, c: int, d: int): int {
    a * 0x100_0000 + b * 0x1_0000 + c * 0x100 + d
  }

  /** The four base-256 digits of a number give it back. */
  lemma Digits(x: U32)
    ensures Join(x / 0x100_0000, x / 0x1_0000 % 0x100, x / 0x100 % 0x100, x % 0x100) == x
  {
    var a, b, c := x / 0x100, x / 0x1_0000, x / 0x100_0000;
    assert x == 0x100 * a + x % 0x100;
    assert a / 0x100 == b && a == 0x100 * b + a % 0x100;
    assert b / 0x100 == c && b == 0x100 * c + b % 0x100;
  }

  lemma LowDigit(n: nat, d: U8)
    ensures (0x100 * n + d) / 0x100 == n && (0x100 * n + d) % 0x100 == d
  {
  }

  lemma Nested(x: nat)
    ensures x / 0x1_0000 == x / 0x100 / 0x100 && x / 0x100_0000 == x / 0x100 / 0x100 / 0x100
  {
  }

  lemma U32RoundTrip(x: U32)
    ensures U32At(U32Bytes(x), 0) == x
  {
    hide Join;
    Digits(x);
  }

  lemma SplitJoin(a: U8, b: U8, c: U8, d: U8)
    ensures 0 <= Join(a, b, c, d) < 0x1_0000_0000 && U32Bytes(Join(a, b, c, d)) == [a, b, c, d]
  {
    hide U32Bytes;
    var z := 0x100 * a + b;
    var y := 0x100 * z + c;
    var x := 0x100 * y + d;
    assert x == Join(a, b, c, d);
    LowDigit(a, b);
    LowDigit(z, c);
    LowDigit(y, d);
    Nested(x);
    BytesAre(x, a, b, c, d);
  }

  lemma BytesAre(x: U32, a: U8, b: U8, c: U8, d: U8)
    requires x / 0x100_0000 == a && x / 0x1_0000 % 0x100 == b && x / 0x100 % 0x100 == c && x % 0x100 == d
    ensures U32Bytes(x) == [a, b, c, d]
  {
  }

  lemma U32BytesRoundTrip(b: seq<U8>, i: nat)
    requires i + 4 <= |b|
    ensures U32Bytes(U32At(b, i)) == b[i..i + 4]
  {
    hide U32Bytes, Join;
    SplitJoin(b[i], b[i + 1], b[i + 2], b[i + 3]);
    assert b[i..i + 4] == [b[i], b[i + 1], b[i + 2], b[i + 3]];
  }

  // ---------------------------------------------------------------------
  // Header contents and their bytes

  datatype RreqFields = RreqFields(
    flags: U8, reserved: U8, hopCount: U8, requestID: U32,
    dst: Addr, dstSeqNo: U32, origin: Addr, originSeqNo: U32)

  datatype RrepFields = RrepFields(
    flags: U8, prefixSize: U8, hopCount: U8,
    dst: Addr, dstSeqNo: U32, origin: Addr, lifeTime: U32)

  const RREQ_SIZE: nat := 23
  const RREP_SIZE: nat := 19

  function RreqBytes(h: RreqFields): (b: seq<U8>)
    ensures |b| == RREQ_SIZE
  {
    [h.flags, h.reserved, h.hopCount] + U32Bytes(h.requestID) + U32Bytes(h.dst)
      + U32Bytes(h.dstSeqNo) + U32Bytes(h.origin) + U32Bytes(h.originSeqNo)
  }

  function RreqParse(b: seq<U8>): RreqFields
    requires |b| >= RREQ_SIZE
  {
    RreqFields(b[0], b[1], b[2], U32At(b, 3), U32At(b, 7), U32At(b, 11), U32At(b, 15), U32At(b, 19))
  }

  function RrepBytes(h: RrepFields): (b: seq<U8>)
    ensures |b| == RREP_SIZE
  {
    [h.flags, h.prefixSize, h.hopCount] + U32Bytes(h.dst) + U32Bytes(h.dstSeqNo)
      + U32Bytes(h.origin) + U32Bytes(h.lifeTime)
  }

  function RrepParse(b: seq<U8>): RrepFields
    requires |b| >= RREP_SIZE
  {
    RrepFields(b[0], b[1], b[2], U32At(b, 3), U32At(b, 7), U32At(b, 11), U32At(b, 15))
  }

  /** The integer at `i` is the one whose bytes stand there. */
  lemma WordAt(b: seq<U8>, i: nat, x: U32)
    requires i + 4 <= |b| && b[i..i + 4] == U32Bytes(x)
    ensures U32At(b, i) == x
  {
    hide U32Bytes, Join;
    U32RoundTrip(x);
    var w := b[i..i + 4];
    assert w[0] == b[i] && w[1] == b[i + 1] && w[2] == b[i + 2] && w[3] == b[i + 3];
  }

  lemma RreqSlices(h: RreqFields, rest: seq<U8>)
    ensures var b := RreqBytes(h) + rest;
            && b[..3] == [h.flags, h.reserved, h.hopCount]
            && b[3..7] == U32Bytes(h.requestID) && b[7..11] == U32Bytes(h.dst) && b[11..15] == U32Bytes(h.dstSeqNo)
            && b[15..19] == U32Bytes(h.origin) && b[19..23] == U32Bytes(h.originSeqNo)
  {
    hide U32Bytes;
  }

  lemma RreqRoundTrip(h: RreqFields, rest: seq<U8>)
    ensures RreqParse(RreqBytes(h) + rest) == h
  {
    hide U32At, U32Bytes, RreqBytes;
    var b := RreqBytes(h) + rest;
    RreqSlices(h, rest);
    WordAt(b, 3, h.requestID);
    WordAt(b, 7, h.dst);
    WordAt(b, 11, h.dstSeqNo);
    WordAt(b, 15, h.origin);
    WordAt(b, 19, h.originSeqNo);
    assert b[0] == b[..3][0] && b[1] == b[..3][1] && b[2] == b[..3][2];
  }

  lemma RrepSlices(h: RrepFields, rest: seq<U8>)
    ensures var b := RrepBytes(h) + rest;
            && b[..3] == [h.flags, h.prefixSize, h.hopCount]
            && b[3..7] == U32Bytes(h.dst) && b[7..11] == U32Bytes(h.dstSeqNo)
            && b[11..15] == U32Bytes(h.origin) && b[15..19] == U32Bytes(h.lifeTime)
  {
    hide U32Bytes;
  }

  lemma RrepRoundTrip(h: RrepFields, rest: seq<U8>)
    ensures RrepParse(RrepBytes(h) + rest) == h
  {
    hide U32At, U32Bytes, RrepBytes;
    var b := RrepBytes(h) + rest;
    RrepSlices(h, rest);
    WordAt(b, 3, h.dst);
    WordAt(b, 7, h.dstSeqNo);
    WordAt(b, 11, h.origin);
    WordAt(b, 15, h.lifeTime);
    assert b[0] == b[..3][0] && b[1] == b[..3][1] && b[2] == b[..3][2];
  }

  /** Bytes that were read are written back unchanged. */
  lemma RreqBytesRoundTrip(b: seq<U8>)
    requires |b| >= RREQ_SIZE
    ensures RreqBytes(RreqParse(b)) == b[..RREQ_SIZE]
  {
    hide U32At, U32Bytes;
    U32BytesRoundTrip(b, 3); U32BytesRoundTrip(b, 7); U32BytesRoundTrip(b, 11);
    U32BytesRoundTrip(b, 15); U32BytesRoundTrip(b, 19);
    assert b[..23] == [b[0], b[1], b[2]] + b[3..7] + b[7..11] + b[11..15] + b[15..19] + b[19..23];
  }

  lemma RrepBytesRoundTrip(b: seq<U8>)
    requires |b| >= RREP_SIZE
    ensures RrepBytes(RrepParse(b)) == b[..RREP_SIZE]
  {
    hide U32At, U32Bytes;
    U32BytesRoundTrip(b, 3); U32BytesRoundTrip(b, 7); U32BytesRoundTrip(b, 11);
    U32BytesRoundTrip(b, 15);
    assert b[..19] == [b[0], b[1], b[2]] + b[3..7] + b[7..11] + b[11..15] + b[15..19];
  }

  // ---------------------------------------------------------------------
  // RERR: a counted list of (address, sequence number) pairs

  datatype Pair = Pair(addr: Addr, seqNo: U32)

  function PairBytes(ps: seq<Pair>): (b: seq<U8>)
    ensures |b| == 8 * |ps|
  {
    if ps == [] then [] else U32Bytes(ps[0].addr) + U32Bytes(ps[0].seqNo) + PairBytes(ps[1..])
  }

  function PairAt(b: seq<U8>, i: nat): Pair
    requires i + 8 <= |b|
  {
    Pair(U32At(b, i), U32At(b, i + 4))
  }

  function ReadPairs(b: seq<U8>, n: nat): (ps: seq<Pair>)
    requires |b| >= 8 * n
    ensures |ps| == n
    decreases n
  {
    if n == 0 then [] else [PairAt(b, 0)] + ReadPairs(b[8..], n - 1)
  }

  lemma PairRoundTrip(p: Pair, rest: seq<U8>)
    ensures var b := U32Bytes(p.addr) + U32Bytes(p.seqNo) + rest;
            PairAt(b, 0) == p && b[8..] == rest
  {
    hide U32At, U32Bytes;
    var b := U32Bytes(p.addr) + U32Bytes(p.seqNo) + rest;
    assert b[0..4] == U32Bytes(p.addr) && b[4..8] == U32Bytes(p.seqNo);
    WordAt(b, 0, p.addr);
    WordAt(b, 4, p.seqNo);
  }

  lemma {:induction false} ReadWrittenPairs(ps: seq<Pair>, rest: seq<U8>)
    ensures ReadPairs(PairBytes(ps) + rest, |ps|) == ps
  {
    hide U32At, U32Bytes, PairAt;
    if ps != [] {
      var tail := PairBytes(ps[1..]) + rest;
      PairRoundTrip(ps[0], tail);
      ReadWrittenPairs(ps[1..], rest);
      assert PairBytes(ps) + rest == U32Bytes(ps[0].addr) + U32Bytes(ps[0].seqNo) + tail;
    }
  }

  lemma PairBytesAt(b: seq<U8>)
    requires |b| >= 8
    ensures var p := PairAt(b, 0); U32Bytes(p.addr) + U32Bytes(p.seqNo) == b[..8]
  {
    hide U32At, U32Bytes;
    U32BytesRoundTrip(b, 0);
    U32BytesRoundTrip(b, 4);
    assert b[..8] == b[0..4] + b[4..8];
  }

  lemma {:induction false} WriteReadPairs(b: seq<U8>, n: nat)
    requires |b| >= 8 * n
    ensures PairBytes(ReadPairs(b, n)) == b[..8 * n]
    decreases n
  {
    hide U32At, U32Bytes, PairAt;
    if n != 0 {
      var p := PairAt(b, 0);
      PairBytesAt(b);
      var ps := ReadPairs(b, n);
      assert ps[0] == p && ps[1..] == ReadPairs(b[8..], n - 1);
      WriteReadPairs(b[8..], n - 1);
      assert b[8..][..8 * (n - 1)] == b[8..8 * n];
      assert b[..8 * n] == b[..8] + b[8..8 * n];
    }
  }

  lemma ShiftedWord(b: seq<U8>, i: nat)
    requires i + 12 <= |b|
    ensures U32At(b[8..], i) == U32At(b, 8 + i)
  {
    hide Join;
  }

  lemma {:induction false} ReadPairsAt(b: seq<U8>, n: nat, k: nat)
    requires |b| >= 8 * n && k < n
    ensures ReadPairs(b, n)[k] == Pair(U32At(b, 8 * k), U32At(b, 8 * k + 4))
    decreases n
  {
    hide U32At;
    if k != 0 {
      ShiftedWord(b, 8 * (k - 1));
      ShiftedWord(b, 8 * (k - 1) + 4);
      ReadPairsAt(b[8..], n - 1, k - 1);
    }
  }

  // The map behind the list

  /** The pairs in the iteration order of the map. */
  function PairsOf(keys: seq<Addr>, m: map<Addr, U32>): (ps: seq<Pair>)
    requires forall k :: k in keys ==> k in m
    ensures |ps| == |keys|
    ensures forall i :: 0 <= i < |keys| ==> ps[i] == Pair(keys[i], m[keys[i]])
  {
    if keys == [] then [] else [Pair(keys[0], m[keys[0]])] + PairsOf(keys[1..], m)
  }

  /** Writing the pairs of a map, least address first. */
  lemma WritePairStep(todo: set<Addr>, m: map<Addr, U32>)
    requires todo != {} && todo <= m.Keys
    ensures var k := Least(todo);
            PairBytes(PairsOf(SortedKeys(todo), m))
            == U32Bytes(k) + U32Bytes(m[k]) + PairBytes(PairsOf(SortedKeys(todo - {k}), m))
  {
    hide U32Bytes, SortedKeys;
    var k, rest := Least(todo), SortedKeys(todo - {Least(todo)});
    SortedKeysStep(todo);
    assert ([k] + rest)[1..] == rest;
    var ps := PairsOf([k] + rest, m);
    assert ps == [Pair(k, m[k])] + PairsOf(rest, m);
    assert ps[1..] == PairsOf(rest, m);
  }

  /** The map that inserting the pairs leaves: the first value for a key stays. */
  function MapOf(ps: seq<Pair>): map<Addr, U32> {
    if ps == [] then map[] else MapOf(ps[1..])[ps[0].addr := ps[0].seqNo]
  }

  /** `map::insert`. */
  function InsertPair(m: map<Addr, U32>, p: Pair): map<Addr, U32> {
    if p.addr in m then m else m[p.addr := p.seqNo]
  }

  lemma {:induction false} MapOfSnoc(ps: seq<Pair>, p: Pair)
    ensures MapOf(ps + [p]) == InsertPair(MapOf(ps), p)
  {
    if ps == [] {
      assert (ps + [p])[1..] == [];
    } else {
      MapOfSnoc(ps[1..], p);
      assert (ps + [p])[1..] == ps[1..] + [p];
    }
  }

  function Addresses(ps: seq<Pair>): (r: seq<Addr>)
    ensures |r| == |ps|
    ensures forall i :: 0 <= i < |ps| ==> r[i] == ps[i].addr
  {
    if ps == [] then [] else [ps[0].addr] + Addresses(ps[1..])
  }

  lemma {:induction false} MapOfKeys(ps: seq<Pair>)
    ensures forall k :: k in MapOf(ps) <==> k in Addresses(ps)
    ensures |MapOf(ps)| <= |ps|
  {
    if ps != [] {
      MapOfKeys(ps[1..]);
    }
  }

  lemma DistinctTail(ps: seq<Pair>)
    requires ps != [] && Distinct(Addresses(ps))
    ensures Distinct(Addresses(ps[1..])) && ps[0].addr !in Addresses(ps[1..])
  {
    var all, rest := Addresses(ps), Addresses(ps[1..]);
    assert forall i :: 0 <= i < |rest| ==> rest[i] == all[i + 1] && all[0] != all[i + 1];
  }

  lemma {:induction false} MapOfDistinct(ps: seq<Pair>)
    requires Distinct(Addresses(ps))
    ensures |MapOf(ps)| == |ps|
    ensures forall i :: 0 <= i < |ps| ==> ps[i].addr in MapOf(ps) && MapOf(ps)[ps[i].addr] == ps[i].seqNo
  {
    hide Addresses, Distinct;
    if ps != [] {
      var tail := ps[1..];
      DistinctTail(ps);
      MapOfDistinct(tail);
      MapOfKeys(tail);
      forall i | 0 <= i < |ps| ensures ps[i].addr in MapOf(ps) && MapOf(ps)[ps[i].addr] == ps[i].seqNo {
        if i > 0 {
          assert tail[i - 1] == ps[i];
          assert Addresses(tail)[i - 1] == ps[i].addr;
        }
      }
    }
  }

  /** A repeated address costs a pair. */
  lemma {:induction false} MapOfRepeated(ps: seq<Pair>, i: nat, j: nat)
    requires i < j < |ps| && ps[i].addr == ps[j].addr
    ensures |MapOf(ps)| < |ps|
  {
    hide Addresses;
    var tail := ps[1..];
    MapOfKeys(tail);
    assert tail[j - 1] == ps[j];
    if i == 0 {
      assert Addresses(tail)[j - 1] == ps[0].addr;
      assert MapOf(ps).Keys == MapOf(tail).Keys;
    } else {
      assert tail[i - 1] == ps[i];
      MapOfRepeated(tail, i - 1, j - 1);
    }
  }

  lemma MapOfSizeExactly(ps: seq<Pair>)
    ensures |MapOf(ps)| == |ps| <==> Distinct(Addresses(ps))
  {
    if Distinct(Addresses(ps)) {
      MapOfDistinct(ps);
    } else {
      var i, j :| 0 <= i < j < |ps| && Addresses(ps)[i] == Addresses(ps)[j];
      MapOfRepeated(ps, i, j);
    }
  }

  lemma MapOfPairsOf(m: map<Addr, U32>)
    ensures MapOf(PairsOf(SortedKeys(m.Keys), m)) == m
  {
    hide SortedKeys, MapOf, PairsOf, Addresses;
    var keys := SortedKeys(m.Keys);
    var ps := PairsOf(keys, m);
    assert Addresses(ps) == keys;
    MapOfDistinct(ps);
    MapOfKeys(ps);
    forall k | k in m ensures k in MapOf(ps) && MapOf(ps)[k] == m[k] {
      var i :| 0 <= i < |keys| && keys[i] == k;
      assert ps[i].addr == k;
    }
  }

  lemma PairsOfMapOf(ps: seq<Pair>)
    ensures PairsOf(SortedKeys(MapOf(ps).Keys), MapOf(ps)) == ps <==> Ascending(Addresses(ps))
  {
    hide SortedKeys, MapOf, PairsOf, Addresses;
    var m := MapOf(ps);
    var sorted := SortedKeys(m.Keys);
    MapOfKeys(ps);
    if Ascending(Addresses(ps)) {
      MapOfDistinct(ps);
      AscendingUnique(sorted, Addresses(ps));
    }
  }

  // The header

  /** `GetDestCount`: the map size cut to one byte. */
  function DestCount(m: map<Addr, U32>): U8 { Wrap8(|m|) }

  /** The length of a message with `count` pairs. */
  function RerrLength(count: int): int { 3 + 8 * count }

  function RerrBytes(h: Rerr): seq<U8> {
    [h.flag, h.reserved, DestCount(h.unreachable)] + PairBytes(PairsOf(SortedKeys(h.unreachable.Keys), h.unreachable))
  }

  /** The pairs that the count byte of `b` announces are all there. */
  predicate HoldsRerr(b: seq<U8>) { |b| >= 3 && |b| >= RerrLength(b[2]) }

  function RerrPairs(b: seq<U8>): (ps: seq<Pair>)
    requires HoldsRerr(b)
    ensures |ps| == b[2]
  {
    ReadPairs(b[3..], b[2])
  }

  function RerrParse(b: seq<U8>): Rerr
    requires HoldsRerr(b)
  {
    Rerr(b[0], b[1], MapOf(RerrPairs(b)))
  }

  /** Reading what was written gives the header back, for every map the count
      byte can hold and for no other. */
  lemma RerrRoundTripExactly(h: Rerr, rest: seq<U8>)
    ensures HoldsRerr(RerrBytes(h) + rest)
    ensures RerrParse(RerrBytes(h) + rest) == h <==> |h.unreachable| <= 255
    ensures |h.unreachable| <= 255 ==> |RerrBytes(h)| == RerrLength(DestCount(h.unreachable))
  {
    hide SortedKeys, MapOf, PairsOf, PairBytes, ReadPairs;
    var m := h.unreachable;
    var ps := PairsOf(SortedKeys(m.Keys), m);
    var b := RerrBytes(h) + rest;
    assert b[0] == h.flag && b[1] == h.reserved && b[2] == DestCount(m) && |ps| == |m|;
    assert b[3..] == PairBytes(ps) + rest;
    if |m| <= 255 {
      ReadWrittenPairs(ps, rest);
      MapOfPairsOf(m);
    } else {
      MapOfKeys(RerrPairs(b));
    }
  }

  /** The size assertion at the end of `Deserialize` holds exactly for messages
      that list no address twice. */
  lemma RerrSizeAssertExactly(b: seq<U8>)
    requires HoldsRerr(b)
    ensures RerrLength(DestCount(RerrParse(b).unreachable)) == RerrLength(b[2])
            <==> Distinct(Addresses(RerrPairs(b)))
  {
    hide MapOf, ReadPairs, Addresses;
    MapOfSizeExactly(RerrPairs(b));
    MapOfKeys(RerrPairs(b));
  }

  /** A received list is forwarded byte for byte exactly when its addresses
      stand in strictly ascending order. */
  lemma RerrBytesRoundTripExactly(b: seq<U8>)
    requires HoldsRerr(b) && |b| == RerrLength(b[2])
    ensures RerrBytes(RerrParse(b)) == b <==> Ascending(Addresses(RerrPairs(b)))
  {
    hide SortedKeys, MapOf, PairsOf, Addresses, PairBytes, ReadPairs;
    var ps, m := RerrPairs(b), RerrParse(b).unreachable;
    var again := PairsOf(SortedKeys(m.Keys), m);
    PairsOfMapOf(ps);
    MapOfKeys(ps);
    WriteReadPairs(b[3..], b[2]);
    assert b[3..][..8 * |ps|] == b[3..];
    assert b == [b[0], b[1], b[2]] + PairBytes(ps);
    var out := RerrBytes(RerrParse(b));
    assert out[..3] == [b[0], b[1], DestCount(m)] && out[3..] == PairBytes(again);
    if out == b {
      assert PairBytes(again) == PairBytes(ps);
      PairBytesInjective(again, ps);
    }
  }

  lemma PairBytesInjective(a: seq<Pair>, b: seq<Pair>)
    requires PairBytes(a) == PairBytes(b)
    ensures a == b
  {
    ReadWrittenPairs(a, []);
    ReadWrittenPairs(b, []);
    assert PairBytes(a) + [] == PairBytes(b) + [];
  }

  // ---------------------------------------------------------------------
  // Whole messages

  /** Bit number `log2(w)` of a flag byte. */
  predicate HasBit(flags: U8, w: int)
    requires w > 0
  {
    flags / w % 2 == 1
  }

  function Bit(f: bool, w: U8): U8 { if f then w else 0 }

  /** The flag byte that SetGratuitousRrep, SetDestinationOnly and
      SetUnknownSeqno leave in a fresh RREQ header. */
  function RreqFlags(gratuitous: bool, destinationOnly: bool, unknown: bool): U8 {
    (if gratuitous then 0x20 else 0) + (if destinationOnly then 0x10 else 0) + (if unknown then 0x08 else 0)
  }

  /** The type byte and the header behind it. */
  function MessageBytes(m: Message): seq<U8> {
    match m
    case RREQ(r) => [1] + RreqBytes(RreqFieldsOf(r))
    case RREP(r) => [2] + RrepBytes(RrepFieldsOf(r))
    case RERR(r) => [3] + RerrBytes(r)
    case RREP_ACK => [4, 0]
  }

  /** The buffer holds the header that its type byte announces. */
  predicate Complete(b: seq<U8>) {
    && |b| >= 1
    && (b[0] == 1 ==> |b| >= 1 + RREQ_SIZE)
    && (b[0] == 2 ==> |b| >= 1 + RREP_SIZE)
    && (b[0] == 3 ==> HoldsRerr(b[1..]))
    && (b[0] == 4 ==> |b| >= 2)
  }

  /** What a receiver makes of a packet; an unknown type is dropped. */
  function ParseMessage(b: seq<U8>): Option<Message>
    requires Complete(b)
  {
    match b[0]
    case 1 => Some(RREQ(RreqOf(RreqParse(b[1..]))))
    case 2 => Some(RREP(RrepOf(RrepParse(b[1..]))))
    case 3 => Some(RERR(RerrParse(b[1..])))
    case 4 => Some(RREP_ACK)
    case _ => None
  }

  lemma FlagBits(g: bool, d: bool, u: bool)
    ensures var f := RreqFlags(g, d, u);
            HasBit(f, 0x20) == g && HasBit(f, 0x10) == d && HasBit(f, 0x08) == u
    ensures HasBit(Bit(g, 0x40), 0x40) == g
  {
  }

  function RreqFieldsOf(r: Rreq): RreqFields {
    RreqFields(RreqFlags(r.gratuitous, r.destinationOnly, r.unknownSeqNo), 0,
               r.hopCount, r.id, r.dst, r.dstSeqNo, r.origin, r.originSeqNo)
  }

  function RreqOf(h: RreqFields): Rreq {
    Rreq(HasBit(h.flags, 0x20), HasBit(h.flags, 0x10), HasBit(h.flags, 0x08),
         h.hopCount, h.requestID, h.dst, h.dstSeqNo, h.origin, h.originSeqNo)
  }

  function RrepFieldsOf(r: Rrep): RrepFields {
    RrepFields(Bit(r.ackRequired, 0x40), 0, r.hopCount, r.dst, r.dstSeqNo, r.origin, r.lifeTime)
  }

  function RrepOf(h: RrepFields): Rrep {
    Rrep(HasBit(h.flags, 0x40), h.hopCount, h.dst, h.dstSeqNo, h.origin, h.lifeTime)
  }

  lemma FieldsRoundTrip(q: Rreq, p: Rrep)
    ensures RreqOf(RreqFieldsOf(q)) == q && RrepOf(RrepFieldsOf(p)) == p
  {
    hide RreqFlags, HasBit, Bit;
    FlagBits(q.gratuitous, q.destinationOnly, q.unknownSeqNo);
    FlagBits(p.ackRequired, false, false);
  }

  lemma AfterType(kind: U8, header: seq<U8>, rest: seq<U8>)
    ensures var b := [kind] + header + rest; b[0] == kind && b[1..] == header + rest
  {
  }

  lemma RreqMessage(r: Rreq, rest: seq<U8>)
    ensures var b := MessageBytes(RREQ(r)) + rest; Complete(b) && ParseMessage(b) == Some(RREQ(r))
  {
    hide RreqBytes, RreqParse, RrepParse, RerrParse, HoldsRerr, RreqFieldsOf, RreqOf;
    AfterType(1, RreqBytes(RreqFieldsOf(r)), rest);
    RreqRoundTrip(RreqFieldsOf(r), rest);
    FieldsRoundTrip(r, Rrep(false, 0, 0, 0, 0, 0));
  }

  lemma RrepMessage(r: Rrep, rest: seq<U8>)
    ensures var b := MessageBytes(RREP(r)) + rest; Complete(b) && ParseMessage(b) == Some(RREP(r))
  {
    hide RrepBytes, RreqParse, RrepParse, RerrParse, HoldsRerr, RrepFieldsOf, RrepOf;
    AfterType(2, RrepBytes(RrepFieldsOf(r)), rest);
    RrepRoundTrip(RrepFieldsOf(r), rest);
    FieldsRoundTrip(Rreq(false, false, false, 0, 0, 0, 0, 0, 0), r);
  }

  lemma RerrMessage(r: Rerr, rest: seq<U8>)
    ensures var b := MessageBytes(RERR(r)) + rest;
            Complete(b) && (ParseMessage(b) == Some(RERR(r)) <==> |r.unreachable| <= 255)
  {
    hide RerrBytes, RreqParse, RrepParse, RerrParse, HoldsRerr;
    AfterType(3, RerrBytes(r), rest);
    RerrRoundTripExactly(r, rest);
  }

  /** Every message the protocol sends is received as it was sent, whatever
      payload follows it; only a RERR with more destinations than its count
      byte can hold is not. */
  lemma MessageRoundTripExactly(m: Message, rest: seq<U8>)
    ensures Complete(MessageBytes(m) + rest)
    ensures ParseMessage(MessageBytes(m) + rest) == Some(m) <==> (m.RERR? ==> |m.rerr.unreachable| <= 255)
  {
    match m
    case RREQ(r) =>
      hide *;
      RreqMessage(r, rest);
    case RREP(r) =>
      hide *;
      RrepMessage(r, rest);
    case RERR(r) =>
      hide *;
      RerrMessage(r, rest);
    case RREP_ACK =>
  }
}
