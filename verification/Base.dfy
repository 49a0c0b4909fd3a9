/** Machine integers, addresses, simulation time and the small collection
    helpers that the rest of the model shares. */
module Base {

  type U8 = x: int | 0 <= x < 0x100
  type U16 = x: int | 0 <= x < 0x1_0000
  type U32 = x: int | 0 <= x < 0x1_0000_0000

  /** An IPv4 address in host order; `std::map` compares addresses by this number. */
  type Addr = x: int | 0 <= x < 0x1_0000_0000

  /** Simulation time in nanoseconds. */
  type Time = int

  /** A network device, named by its interface index; NO_DEVICE stands for none. */
  type Device = int

  const NO_DEVICE: Device := -1

  /** The value of a default-constructed `Ipv4Address` (102.102.102.102). */
  const NO_ADDR: Addr := 0x6666_6666

  /** The loopback address, to which every table has a route that does not expire. */
  const LOOPBACK: Addr := 0x7F00_0001

  const MILLISECOND: Time := 1_000_000
  const MICROSECOND: Time := 1_000
  const SECOND: Time := 1_000_000_000

  datatype Option<+T> = None | Some(value: T)

  function Max(a: int, b: int): int { if a < b then b else a }

  function Min(a: int, b: int): int { if b < a then b else a }

  function Wrap8(x: int): U8 { x % 0x100 }

  function Wrap16(x: int): U16 { x % 0x1_0000 }

  function Wrap32(x: int): U32 { x % 0x1_0000_0000 }

  function Pow2(n: nat): nat { if n == 0 then 1 else 2 * Pow2(n - 1) }

  ghost predicate Distinct<T>(s: seq<T>) {
    forall i, j :: 0 <= i < j < |s| ==> s[i] != s[j]
  }

  /** The elements of `s` that satisfy `p`, in order. */
  function Filter<T(!new)>(p: T -> bool, s: seq<T>): (r: seq<T>)
    ensures |r| <= |s|
  {
    if s == [] then []
    else if p(s[0]) then [s[0]] + Filter(p, s[1..])
    else Filter(p, s[1..])
  }

  lemma {:induction false} FilterMembers<T(!new)>(p: T -> bool, s: seq<T>)
    ensures forall x :: x in Filter(p, s) <==> x in s && p(x)
  {
    if s != [] {
      FilterMembers(p, s[1..]);
      assert s == [s[0]] + s[1..];
    }
  }

  lemma {:induction false} FilterAppend<T(!new)>(p: T -> bool, a: seq<T>, b: seq<T>)
    ensures Filter(p, a + b) == Filter(p, a) + Filter(p, b)
  {
    if a == [] {
      assert a + b == b;
    } else {
      assert (a + b)[1..] == a[1..] + b;
      FilterAppend(p, a[1..], b);
    }
  }

  lemma FilterSnoc<T(!new)>(p: T -> bool, s: seq<T>, i: nat)
    requires i < |s|
    ensures Filter(p, s[..i + 1]) == Filter(p, s[..i]) + (if p(s[i]) then [s[i]] else [])
  {
    assert s[..i + 1] == s[..i] + [s[i]];
    FilterAppend(p, s[..i], [s[i]]);
  }

  lemma SplitAt<T>(s: seq<T>, i: nat)
    requires i < |s|
    ensures s == s[..i] + ([s[i]] + s[i + 1..])
  {
  }

  /** Filtering with and without the element at `i`. */
  lemma {:induction false} FilterAround<T(!new)>(p: T -> bool, s: seq<T>, i: nat)
    requires i < |s|
    ensures Filter(p, s) == Filter(p, s[..i]) + ((if p(s[i]) then [s[i]] else []) + Filter(p, s[i + 1..]))
    ensures Filter(p, s[..i] + s[i + 1..]) == Filter(p, s[..i]) + Filter(p, s[i + 1..])
  {
    var tail := [s[i]] + s[i + 1..];
    SplitAt(s, i);
    FilterAppend(p, s[..i], tail);
    assert tail[1..] == s[i + 1..];
    FilterAppend(p, s[..i], s[i + 1..]);
  }

  lemma {:induction false} FilterNone<T(!new)>(p: T -> bool, s: seq<T>)
    requires forall x :: x in s ==> !p(x)
    ensures Filter(p, s) == []
  {
    if s != [] {
      FilterNone(p, s[1..]);
    }
  }

  lemma {:induction false} FilterAll<T(!new)>(p: T -> bool, s: seq<T>)
    requires forall x :: x in s ==> p(x)
    ensures Filter(p, s) == s
  {
    if s != [] {
      FilterAll(p, s[1..]);
    }
  }

  /** What `push_back unless already present` leaves in a vector. */
  function PushNew<T(==,!new)>(s: seq<T>, x: T): (r: seq<T>)
    ensures x in r && |s| <= |r|
    ensures Distinct(s) ==> Distinct(r)
    ensures forall y :: y in r <==> y in s || y == x
  {
    if x in s then s else s + [x]
  }

  /** `PushNew` for each element of `xs` in turn. */
  function PushAllNew<T(==,!new)>(s: seq<T>, xs: seq<T>): (r: seq<T>)
    ensures Distinct(s) ==> Distinct(r)
    ensures forall y :: y in r <==> y in s || y in xs
    decreases |xs|
  {
    if xs == [] then s else PushAllNew(PushNew(s, xs[0]), xs[1..])
  }

  lemma {:induction false} PushAllNewSnoc<T(!new)>(s: seq<T>, xs: seq<T>, x: T)
    ensures PushAllNew(s, xs + [x]) == PushNew(PushAllNew(s, xs), x)
    decreases |xs|
  {
    if xs == [] {
      assert xs + [x] == [x];
      assert PushAllNew(s, [x]) == PushAllNew(PushNew(s, x), []);
    } else {
      assert (xs + [x])[1..] == xs[1..] + [x];
      PushAllNewSnoc(PushNew(s, xs[0]), xs[1..], x);
    }
  }

  ghost predicate IsLeast(m: Addr, s: set<Addr>) {
    m in s && forall x :: x in s ==> m <= x
  }

  /** The least element of a non-empty set of addresses. */
  function Least(s: set<Addr>): (m: Addr)
    requires s != {}
    ensures m in s && forall x :: x in s ==> m <= x
  {
    LeastExists(s);
    var m :| m in s && forall x :: x in s ==> m <= x;
    m
  }

  lemma LeastExists(s: set<Addr>)
    requires s != {}
    ensures exists m :: IsLeast(m, s)
  {
    var m := FindLeast(s);
  }

  lemma {:induction false} FindLeast(s: set<Addr>) returns (m: Addr)
    requires s != {}
    ensures IsLeast(m, s)
  {
    var x :| x in s;
    var rest := s - {x};
    if rest == {} {
      assert s == {x};
      m := x;
    } else {
      var r := FindLeast(rest);
      m := if x <= r then x else r;
      assert s == rest + {x};
    }
  }

  ghost predicate Ascending(s: seq<Addr>) {
    forall i, j :: 0 <= i < j < |s| ==> s[i] < s[j]
  }

  lemma AscendingCons(m: Addr, rest: seq<Addr>)
    requires Ascending(rest) && forall x :: x in rest ==> m < x
    ensures Ascending([m] + rest)
  {
    var r := [m] + rest;
    forall i, j | 0 <= i < j < |r| ensures r[i] < r[j] {
      assert r[j] in rest;
    }
  }

  /** The iteration order of a `std::map` or `std::set` keyed by address. */
  function SortedKeys(s: set<Addr>): (r: seq<Addr>)
    ensures Ascending(r)
    ensures |r| == |s|
    ensures forall x :: x in r <==> x in s
  {
    if s == {} then []
    else
      var m := Least(s);
      var rest := SortedKeys(s - {m});
      AscendingCons(m, rest);
      [m] + rest
  }

  /** Map iteration visits the least key first. */
  lemma SortedKeysStep(s: set<Addr>)
    requires s != {}
    ensures SortedKeys(s) == [Least(s)] + SortedKeys(s - {Least(s)})
  {
  }

  lemma {:induction false} AscendingUnique(a: seq<Addr>, b: seq<Addr>)
    requires Ascending(a) && Ascending(b) && |a| == |b|
    requires forall x :: x in a <==> x in b
    ensures a == b
  {
    if a != [] {
      assert a[0] in a && a[0] in b;
      assert b[0] in b && b[0] in a;
      assert a[0] == b[0];
      forall x ensures x in a[1..] <==> x in b[1..] {
        assert x in a[1..] <==> x in a && x != a[0];
        assert x in b[1..] <==> x in b && x != b[0];
      }
      AscendingUnique(a[1..], b[1..]);
    }
  }
}
