/** The 32-bit tick counter of the kernel and the signed half-range comparisons
    that read it, against an unbounded clock. */
module Ticks {
  const TICK_RANGE: int := 0x1_0000_0000
  const HALF_RANGE: int := 0x8000_0000
  const INT32_MAX: int := 0x7FFF_FFFF

  type Tick = t: nat | t < 0x1_0000_0000

  /** The counter's reading at an instant of the unbounded clock. */
  function Wrap(instant: int): (t: Tick)
  {
    instant % TICK_RANGE
  }

  /** `(int32_t)(lhs - rhs)` on 32-bit unsigned operands. */
  function SignedDifference(lhs: Tick, rhs: Tick): (d: int)
    ensures -HALF_RANGE <= d < HALF_RANGE
  {
    var unsigned := (lhs - rhs) % TICK_RANGE;
    if unsigned < HALF_RANGE then unsigned else unsigned - TICK_RANGE
  }

  predicate TickBefore(lhs: Tick, rhs: Tick) {
    SignedDifference(lhs, rhs) < 0
  }

  predicate TickReached(now: Tick, deadline: Tick) {
    SignedDifference(now, deadline) >= 0
  }

  /** Unsigned 32-bit subtraction. */
  function UnsignedDifference(lhs: Tick, rhs: Tick): Tick {
    (lhs - rhs) % TICK_RANGE
  }

  lemma WrapDifference(a: int, b: int)
    ensures (Wrap(a) - Wrap(b)) % TICK_RANGE == (a - b) % TICK_RANGE
  {
    var qa, qb := a / TICK_RANGE, b / TICK_RANGE;
    var w := Wrap(a) - Wrap(b);
    assert a - b == w + (qa - qb) * TICK_RANGE;
    ModuloShift(w, qa - qb);
  }

  lemma {:induction false} ModuloShift(x: int, k: int)
    ensures (x + k * TICK_RANGE) % TICK_RANGE == x % TICK_RANGE
    decreases if k < 0 then -k else k
  {
    if k > 0 {
      ModuloShift(x, k - 1);
      assert x + k * TICK_RANGE == x + (k - 1) * TICK_RANGE + TICK_RANGE;
    } else if k < 0 {
      ModuloShift(x, k + 1);
      assert x + k * TICK_RANGE == x + (k + 1) * TICK_RANGE - TICK_RANGE;
    }
  }

  /** Within half the range of each other, the signed comparison of two counter
      readings is exactly the comparison of the two instants. */
  lemma SignedDifferenceExact(a: int, b: int)
    requires -HALF_RANGE <= a - b < HALF_RANGE
    ensures SignedDifference(Wrap(a), Wrap(b)) == a - b
    ensures TickBefore(Wrap(a), Wrap(b)) <==> a < b
    ensures TickReached(Wrap(a), Wrap(b)) <==> b <= a
  {
    WrapDifference(a, b);
  }

  /** Whether a reading of the clock at `instant` tells a passed deadline from one ahead:
      the lateness, modulo the range, is below half the range. */
  predicate ReadsInTime(instant: int, deadline: int) {
    instant < deadline || (instant - deadline) % TICK_RANGE < HALF_RANGE
  }

  lemma NegatedModulo(x: int)
    ensures x % TICK_RANGE >= HALF_RANGE ==> (-x) % TICK_RANGE != 0
  {
    var q := x / TICK_RANGE;
    assert -x == -(x % TICK_RANGE) + (-q) * TICK_RANGE;
    ModuloShift(-(x % TICK_RANGE), -q);
  }

  lemma WrapAdd(a: int, d: int)
    ensures Wrap(Wrap(a) + d) == Wrap(a + d)
  {
    var q := a / TICK_RANGE;
    assert a + d == Wrap(a) + d + q * TICK_RANGE;
    ModuloShift(Wrap(a) + d, q);
  }
}
