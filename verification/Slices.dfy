/**
 * Proportional allocation of an integer amount over a time interval.
 *
 * A slice is the difference of two floors of the running share, so consecutive slices
 * telescope: no unit is lost or invented however an interval is cut.
 */
module Slices {
  import opened Int64
  import opened Outcomes

  /** Part of `value` that belongs to the first `x` of `duration` time units. */
  function RunningShare(value: int, duration: int, x: int): int
    requires duration > 0
  {
    value * x / duration
  }

  /** The allocation with every check of the program, in its order. */
  function ProportionalSlice(value: int, duration: i64, relStart: i64, relEnd: i64): Result<int> {
    if value < 0 || duration <= 0 || relStart < 0 || relEnd < relStart || relEnd > duration then
      Err(Verification)
    else if value * relStart > I128_MAX || value * relEnd > I128_MAX then
      Err(Verification)
    else
      Ok(RunningShare(value, duration, relEnd) - RunningShare(value, duration, relStart))
  }

  lemma ShareIsMonotone(value: int, duration: int, x: int, y: int)
    requires value >= 0 && duration > 0 && x <= y
    ensures RunningShare(value, duration, x) <= RunningShare(value, duration, y)
  {
    MulMonotone(value, x, y);
    DivMonotone(value * x, value * y, duration);
  }

  lemma ShareOfEnds(value: int, duration: int)
    requires duration > 0
    ensures RunningShare(value, duration, 0) == 0
    ensures RunningShare(value, duration, duration) == value
  {
    DivCancels(value, duration);
  }

  /** A share of at most one unit per time unit never outruns the time it is spread over. */
  lemma ShareOutpacedByTime(value: int, duration: int, x: int, y: int)
    requires 0 <= value <= duration && 0 < duration && x <= y
    ensures RunningShare(value, duration, y) - RunningShare(value, duration, x) <= y - x
  {
    MulMonotone(y - x, value, duration);
    assert value * y == value * x + value * (y - x);
    assert value * y <= value * x + (y - x) * duration;
    DivMonotone(value * y, value * x + (y - x) * duration, duration);
    DivShift(value * x, y - x, duration);
  }

  /** Sums of two stored 64-bit amounts times a 64-bit offset stay inside 128 bits. */
  lemma ProductFitsI128(value: int, x: int)
    requires 0 <= value <= 2 * I64_MAX && 0 <= x <= I64_MAX
    ensures 0 <= value * x <= I128_MAX
  {
    MulMonotone(value, 0, x);
    MulMonotone(value, x, I64_MAX);
    MulMonotone(I64_MAX, value, 2 * I64_MAX);
  }

  /**
   * No error branch of the allocation is reachable on stored amounts: the slice exists, is
   * not negative, and is the difference of the two running shares.
   */
  lemma SliceSucceeds(value: int, duration: i64, relStart: i64, relEnd: i64)
    requires 0 <= value <= 2 * I64_MAX && 0 < duration && 0 <= relStart <= relEnd <= duration
    ensures ProportionalSlice(value, duration, relStart, relEnd)
         == Ok(RunningShare(value, duration, relEnd) - RunningShare(value, duration, relStart))
    ensures 0 <= RunningShare(value, duration, relStart) <= RunningShare(value, duration, relEnd) <= value
  {
    ProductFitsI128(value, relStart);
    ProductFitsI128(value, relEnd);
    ShareIsMonotone(value, duration, 0, relStart);
    ShareIsMonotone(value, duration, relStart, relEnd);
    ShareIsMonotone(value, duration, relEnd, duration);
    ShareOfEnds(value, duration);
  }

  // ----- arithmetic used above

  lemma MulMonotone(k: int, a: int, b: int)
    requires k >= 0 && a <= b
    ensures k * a <= k * b && a * k <= b * k
  {
    assert k * (b - a) >= 0;
  }

  lemma DivMonotone(a: int, b: int, d: int)
    requires a <= b && d > 0
    ensures a / d <= b / d
  {
    if a / d > b / d {
      MulMonotone(d, b / d + 1, a / d);
    }
  }

  lemma DivShift(a: int, k: int, d: int)
    requires d > 0
    ensures (a + k * d) / d == a / d + k
  {
    var q, r := (a + k * d) / d, (a + k * d) % d;
    var p, s := a / d, a % d;
    assert d * (q - k - p) == s - r;
    QuotientUnique(q - k - p, s - r, d);
  }

  lemma QuotientUnique(n: int, r: int, d: int)
    requires d > 0 && d * n == r && -d < r < d
    ensures n == 0
  {
    if n >= 1 {
      MulMonotone(d, 1, n);
    } else if n <= -1 {
      MulMonotone(d, n, -1);
    }
  }

  lemma DivCancels(a: int, d: int)
    requires d > 0
    ensures a * d / d == a
  {
    DivShift(0, a, d);
    assert 0 + a * d == a * d;
  }
}
