/** Circular comparison of 32-bit sequence numbers. */
module SeqNo {
  import opened Base

  const HALF: int := 0x8000_0000
  const FULL: int := 0x1_0000_0000

  function Minus(a: int, b: int): int { a - b }

  /** The conversion `int32_t(x)`. */
  function ToInt32(x: U32): int { if x < HALF then x else x - FULL }

  /** A 32-bit signed result, wrapped. */
  function WrapInt32(d: int): int { (d + HALF) % FULL - HALF }

  /** `int32_t(a) - int32_t(b) > 0`. */
  predicate Newer(a: U32, b: U32) { WrapInt32(ToInt32(a) - ToInt32(b)) > 0 }

  /** `int32_t(a) - int32_t(b) >= 0`. */
  predicate NotOlder(a: U32, b: U32) { WrapInt32(ToInt32(a) - ToInt32(b)) >= 0 }

  /** For true counters `x` and `y`, of which only the low 32 bits travel, the
      comparison says "newer" exactly when `x` is ahead of `y` by more than 0
      and less than half a turn, counted around the circle. */
  lemma NewerExactly(x: nat, y: nat)
    ensures Newer(Wrap32(x), Wrap32(y)) <==> 0 < (x - y) % FULL < HALF
    ensures NotOlder(Wrap32(x), Wrap32(y)) <==> (x - y) % FULL < HALF
  {
    DifferenceMod(x, y);
    var a, b := Wrap32(x), Wrap32(y);
    var d := Minus(a, b);
    assert (x - y) % FULL == if d < 0 then d + FULL else d;
    var s := ToInt32(a) - ToInt32(b);
    assert s == d || s == d + FULL || s == d - FULL;
    assert WrapInt32(s) == if d < -HALF then d + FULL else if d >= HALF then d - FULL else d;
  }

  /** So it is the order of the counters whenever they are less than half a turn apart. */
  lemma NewerIsCounterOrder(x: nat, y: nat)
    requires -HALF < x - y < HALF
    ensures Newer(Wrap32(x), Wrap32(y)) <==> x > y
    ensures NotOlder(Wrap32(x), Wrap32(y)) <==> x >= y
  {
    NewerExactly(x, y);
  }

  /** Exactly half a turn apart, neither number is newer than the other, and
      neither is at least as new. */
  lemma HalfTurnIsUnordered(x: nat)
    ensures !NotOlder(Wrap32(x + HALF), Wrap32(x)) && !NotOlder(Wrap32(x), Wrap32(x + HALF))
  {
    NewerExactly(x + HALF, x);
    NewerExactly(x, x + HALF);
  }

  lemma DifferenceMod(x: int, y: int)
    ensures (x - y) % FULL == (x % FULL - y % FULL) % FULL
  {
    var p, q := x / FULL, y / FULL;
    ShiftMod(x % FULL - y % FULL, p - q);
    assert x - y == (x % FULL - y % FULL) + (p - q) * FULL;
  }

  lemma {:induction false} ShiftMod(d: int, k: int)
    ensures (d + k * FULL) % FULL == d % FULL
  {
  }
}
