/** The retry delay of internal/agentcontroller/queue.go, in the 64-bit arithmetic of time.Duration. */
module Backoff {

  const HALF := 0x4000_0000_0000_0000
  const LIMIT := 0x8000_0000_0000_0000

  predicate IsInt64(x: int) {
    -LIMIT <= x < LIMIT
  }

  /** Two's complement wrap-around of a doubled duration. */
  function Doubled(d: int): (r: int)
    requires IsInt64(d)
    ensures IsInt64(r) && (r - 2 * d == 0 || r - 2 * d == 2 * LIMIT || r - 2 * d == -2 * LIMIT)
  {
    if 2 * d >= LIMIT then 2 * d - 2 * LIMIT else if 2 * d < -LIMIT then 2 * d + 2 * LIMIT else 2 * d
  }

  /** The loop of `backoffFor` with `left` doublings to go. */
  function Delay(d: int, max: int, left: nat): int
    requires IsInt64(d)
    decreases left
  {
    if left == 0 then (if d <= 0 || d > max then max else d)
    else if Doubled(d) > max then max
    else Delay(Doubled(d), max, left - 1)
  }

  function Doublings(attempts: int): nat {
    if attempts < 1 then 0 else attempts - 1
  }

  method BackoffFor(base: int, max: int, attempts: int) returns (d: int)
    requires IsInt64(base) && IsInt64(max)
    ensures d == Delay(base, max, Doublings(attempts))
    ensures d <= max && (max > 0 ==> d > 0)
  {
    d := base;
    var n := if attempts < 1 then 1 else attempts;
    for i := 1 to n
      invariant IsInt64(d)
      invariant Delay(base, max, n - 1) == Delay(d, max, n - i)
    {
      d := Doubled(d);
      if d > max { return max; }
    }
    if d <= 0 || d > max { d := max; }
  }

  function Pow2(n: nat): (r: int)
    ensures r >= 1
  {
    if n == 0 then 1 else 2 * Pow2(n - 1)
  }

  function Min(a: int, b: int): int {
    if a <= b then a else b
  }

  /** A duration that wrapped to the least value, or to zero, ends at the cap. */
  lemma {:induction false} Exhausted(d: int, max: int, left: nat)
    requires (d == 0 || d == -LIMIT) && max > 0
    ensures Delay(d, max, left) == max
    decreases left
  {
    if left > 0 { Exhausted(0, max, left - 1); }
  }

  /** Doubling without wrap-around. */
  function Scaled(d: int, n: nat): (r: int)
    ensures d >= 0 ==> r >= d
    decreases n
  {
    if n == 0 then d else Scaled(2 * d, n - 1)
  }

  lemma {:induction false} ScaledIsProduct(d: int, n: nat)
    ensures Scaled(d, n) == d * Pow2(n)
    decreases n
  {
    if n > 0 {
      ScaledIsProduct(2 * d, n - 1);
      var p := Pow2(n - 1);
      assert (2 * d) * p == d * (2 * p);
    }
  }

  lemma {:induction false} DelayIsCapped(d: int, max: int, left: nat)
    requires 0 < d <= HALF && 0 < max <= HALF + 1
    ensures Delay(d, max, left) == Min(Scaled(d, left), max)
    decreases left
  {
    if left > 0 {
      if 2 * d == LIMIT {
        Exhausted(-LIMIT, max, left - 1);
      } else if 2 * d <= max {
        DelayIsCapped(2 * d, max, left - 1);
      }
    }
  }

  /** The delay the comment gives: the base doubled once per earlier attempt, cut at the maximum. */
  predicate AsDocumented(base: int, max: int, attempts: int)
    requires IsInt64(base)
  {
    Delay(base, max, Doublings(attempts)) == Min(base * Pow2(Doublings(attempts)), max)
  }

  lemma {:induction false} SmallBase(base: int, max: int, attempts: int)
    requires 0 < base <= HALF && 0 < max <= HALF + 1
    ensures AsDocumented(base, max, attempts)
  {
    DelayIsCapped(base, max, Doublings(attempts));
    ScaledIsProduct(base, Doublings(attempts));
  }

  /** For every base up to 2^62 nanoseconds, above the maximum or not, and every number of attempts, the delay is as
      documented exactly when the maximum is at most 2^62 + 1. */
  lemma {:induction false} CappedExactly(max: int)
    requires 0 < max < LIMIT
    ensures (forall base, attempts :: 0 < base <= HALF ==> AsDocumented(base, max, attempts)) <==> max <= HALF + 1
  {
    if max <= HALF + 1 {
      forall base, attempts | 0 < base <= HALF ensures AsDocumented(base, max, attempts) { SmallBase(base, max, attempts); }
    } else {
      WrapsShort(max);
      assert !AsDocumented(HALF / 2 + 1, max, 4);
    }
  }

  /** For such a maximum, the bases up to a bound all give the documented delay exactly when the bound is at most 2^62. */
  lemma {:induction false} BaseExactly(bound: int, max: int)
    requires 0 < bound < LIMIT && 4 < max <= HALF + 1
    ensures (forall base, attempts :: 0 < base <= bound ==> AsDocumented(base, max, attempts)) <==> bound <= HALF
  {
    if bound <= HALF {
      forall base, attempts | 0 < base <= bound ensures AsDocumented(base, max, attempts) { SmallBase(base, max, attempts); }
    } else {
      BigBaseWraps(max);
      assert !AsDocumented(HALF + 1, max, 3);
    }
  }

  /** Above a maximum of 2^62 + 1 a base of 2^61 + 1 wraps around: the fourth attempt waits 8 nanoseconds. */
  lemma {:induction false} WrapsShort(max: int)
    requires HALF + 1 < max < LIMIT
    ensures Delay(HALF / 2 + 1, max, Doublings(4)) == 8
    ensures Min((HALF / 2 + 1) * Pow2(Doublings(4)), max) == max
  {
    var once := Doubled(HALF / 2 + 1);
    var twice := Doubled(once);
    assert once == HALF + 2 && Doubled(twice) == 8;
    assert Delay(once, max, 2) == Delay(twice, max, 1) == Delay(8, max, 0) == 8;
    assert Pow2(3) == 2 * Pow2(2) == 4 * Pow2(1) == 8;
  }

  /** A base of 2^62 + 1 wraps around under any maximum above 4: the third attempt waits 4 nanoseconds. */
  lemma {:induction false} BigBaseWraps(max: int)
    requires 4 < max < LIMIT
    ensures Delay(HALF + 1, max, Doublings(3)) == 4
    ensures Min((HALF + 1) * Pow2(Doublings(3)), max) == max
  {
    var once := Doubled(HALF + 1);
    assert Doubled(once) == 4;
    assert Delay(once, max, 1) == Delay(4, max, 0) == 4;
    assert Pow2(2) == 2 * Pow2(1) == 4;
  }
}
