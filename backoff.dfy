/**
 * The backoff policy of the AI service: an exponential ceiling capped at a
 * maximum delay, and a delay drawn between half the base delay and that
 * ceiling, rounded to whole milliseconds.
 *
 * `Math.random()` is the parameter `draw`; the arithmetic is done over the
 * reals instead of floating point.
 */
module Backoff {

  /**
   * `base * Math.pow(2, k)`, computed by doubling (or halving) `base` `k`
   * times, which is the same real number.
   */
  function Doubled(base: real, k: int): (r: real)
    ensures 0.0 <= base ==> 0.0 <= r
    ensures 0.0 <= base && 0 <= k ==> base <= r
    decreases if k < 0 then -k else k
  {
    if k == 0 then base
    else if k > 0 then 2.0 * Doubled(base, k - 1)
    else Doubled(base, k + 1) / 2.0
  }

  function Min(a: real, b: real): (r: real)
    ensures r <= a && r <= b && (r == a || r == b)
  {
    if a <= b then a else b
  }

  /** `Math.round(x)`: the nearest integer, halves rounded up. */
  function Round(x: real): (r: int)
    ensures r as real - 0.5 <= x < r as real + 0.5
  {
    (x + 0.5).Floor
  }

  /** The exponential ceiling `min(maxDelay, baseDelay * 2^(attempt-1))`. */
  function Ceiling(attempt: int, baseDelay: int, maxDelay: int): (exp: real)
    ensures exp <= maxDelay as real
  {
    Min(maxDelay as real, Doubled(baseDelay as real, attempt - 1))
  }

  /** Half the base delay, the lower end of the jitter window. */
  function Half(baseDelay: int): real {
    baseDelay as real / 2.0
  }

  /**
   * `draw * (hi - lo) + lo`: the point a fraction `draw` of the way from `lo`
   * to `hi`; for a draw in [0, 1) it lies between the two, whichever is larger.
   */
  function Lerp(draw: real, lo: real, hi: real): (r: real)
    ensures 0.0 <= draw < 1.0 && lo <= hi ==> lo <= r <= hi
    ensures 0.0 <= draw < 1.0 && hi < lo ==> hi <= r <= lo
  {
    var offset := draw * (hi - lo);
    if 0.0 <= draw < 1.0 then
      ScaledBetween(draw, hi - lo, offset);
      offset + lo
    else
      offset + lo
  }

  /**
   * `backoffDelay(attempt, baseDelay, maxDelay)` for the random draw `draw`:
   * `round(draw * (exp - base/2) + base/2)`. For a draw in [0, 1) the delay
   * lies between the rounded ends of the window, whichever end is larger.
   */
  function BackoffDelay(attempt: int, baseDelay: int, maxDelay: int, draw: real): (d: int)
    ensures 0.0 <= draw < 1.0 && Half(baseDelay) <= Ceiling(attempt, baseDelay, maxDelay) ==>
              Round(Half(baseDelay)) <= d <= Round(Ceiling(attempt, baseDelay, maxDelay))
    ensures 0.0 <= draw < 1.0 && Ceiling(attempt, baseDelay, maxDelay) < Half(baseDelay) ==>
              Round(Ceiling(attempt, baseDelay, maxDelay)) <= d <= Round(Half(baseDelay))
  {
    var exp := Ceiling(attempt, baseDelay, maxDelay);
    var half := Half(baseDelay);
    var jitter := Lerp(draw, half, exp);
    if 0.0 <= draw < 1.0 && half <= exp then
      RoundMonotone(half, jitter);
      RoundMonotone(jitter, exp);
      Round(jitter)
    else if 0.0 <= draw < 1.0 then
      RoundMonotone(exp, jitter);
      RoundMonotone(jitter, half);
      Round(jitter)
    else
      Round(jitter)
  }

  /** A fraction in [0, 1) of a width lies between 0 and that width. */
  lemma ScaledBetween(draw: real, width: real, offset: real)
    requires 0.0 <= draw < 1.0
    requires offset == draw * width
    ensures 0.0 <= width ==> 0.0 <= offset <= width
    ensures width < 0.0 ==> width <= offset <= 0.0
  {
    if 0.0 <= width {
      MulNonNegative(1.0 - draw, width);
      MulNonNegative(draw, width);
    } else {
      MulNonNegative(1.0 - draw, -width);
      MulNonNegative(draw, -width);
    }
  }

  lemma MulNonNegative(a: real, b: real)
    requires 0.0 <= a && 0.0 <= b
    ensures 0.0 <= a * b
  {
  }

  lemma RoundMonotone(x: real, y: real)
    requires x <= y
    ensures Round(x) <= Round(y)
  {
  }

  /** Doubling a non-negative base more times never gives less. */
  lemma {:induction false} DoubledMonotone(base: real, j: int, k: int)
    requires 0.0 <= base
    requires j <= k
    ensures Doubled(base, j) <= Doubled(base, k)
    decreases k - j
  {
    if j < k {
      DoubledMonotone(base, j, k - 1);
      DoubledStep(base, k - 1);
    }
  }

  lemma DoubledStep(base: real, k: int)
    ensures Doubled(base, k + 1) == 2.0 * Doubled(base, k)
  {
  }

  /** The ceiling never exceeds `maxDelay` and never shrinks as `attempt` grows. */
  lemma CeilingMonotone(attempt: int, later: int, baseDelay: int, maxDelay: int)
    requires attempt <= later
    requires 0 <= baseDelay
    ensures Ceiling(attempt, baseDelay, maxDelay) <= Ceiling(later, baseDelay, maxDelay) <= maxDelay as real
  {
    DoubledMonotone(baseDelay as real, attempt - 1, later - 1);
  }

  /** From the first attempt on, the ceiling is at least `min(maxDelay, baseDelay)`. */
  lemma CeilingAtLeastBase(attempt: int, baseDelay: int, maxDelay: int)
    requires 1 <= attempt
    requires 0 <= baseDelay
    ensures Min(maxDelay as real, baseDelay as real) <= Ceiling(attempt, baseDelay, maxDelay)
  {
    CeilingMonotone(1, attempt, baseDelay, maxDelay);
  }

  /**
   * With a non-negative base delay and a cap of at least half of it, every
   * delay of attempt 1 onwards lies in [round(baseDelay/2), maxDelay].
   */
  lemma DelayWithinPolicy(attempt: int, baseDelay: int, maxDelay: int, draw: real)
    requires 1 <= attempt
    requires 0 <= baseDelay <= 2 * maxDelay
    requires 0.0 <= draw < 1.0
    ensures Round(Half(baseDelay)) <= BackoffDelay(attempt, baseDelay, maxDelay, draw) <= maxDelay
  {
    CeilingAtLeastBase(attempt, baseDelay, maxDelay);
    RoundMonotone(Ceiling(attempt, baseDelay, maxDelay), maxDelay as real);
  }

  /**
   * When half the base delay is above the cap, the window runs from the cap
   * up to half the base delay, so the delay can exceed `maxDelay`.
   */
  lemma DelayCanExceedCap()
    ensures Ceiling(1, 1000, 100) == 100.0
    ensures BackoffDelay(1, 1000, 100, 0.5) == 300
  {
    assert Lerp(0.5, 500.0, 100.0) == 300.0;
  }

  /** The ceilings of the schedule the service uses: base 600 ms, cap 8000 ms. */
  lemma ServiceSchedule()
    ensures Ceiling(1, 600, 8000) == 600.0
    ensures Ceiling(2, 600, 8000) == 1200.0
    ensures Ceiling(3, 600, 8000) == 2400.0
    ensures Ceiling(4, 600, 8000) == 4800.0
    ensures Ceiling(5, 600, 8000) == 8000.0
    ensures Round(Half(600)) == 300
  {
    assert Doubled(600.0, 4) == 9600.0 by {
      assert Doubled(600.0, 1) == 1200.0;
      assert Doubled(600.0, 2) == 2400.0;
      assert Doubled(600.0, 3) == 4800.0;
    }
  }
}
