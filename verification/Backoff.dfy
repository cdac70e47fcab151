/** The delay before a retry, in signed 64-bit nanoseconds. */
module Backoff {
  import opened Common

  predicate Int64(x: int) { -0x8000_0000_0000_0000 <= x < 0x8000_0000_0000_0000 }

  function Wrap64(x: int): (r: int)
    ensures Int64(r) && (Int64(x) ==> r == x) && (x - r) % 0x1_0000_0000_0000_0000 == 0
  {
    (x + 0x8000_0000_0000_0000) % 0x1_0000_0000_0000_0000 - 0x8000_0000_0000_0000
  }

  function Pow2(n: nat): (r: nat)
    ensures r >= 1
  {
    if n == 0 then 1 else 2 * Pow2(n - 1)
  }

  /** Doubling at most n times in 64-bit arithmetic, stopping at the limit. */
  function Doubled(delay: int, max: int, n: nat): int
    decreases n
  {
    if n == 0 then (if delay > max then max else delay)
    else
      var next := Wrap64(2 * delay);
      if next >= max then max else Doubled(next, max, n - 1)
  }

  function Tries(attempt: int): nat { if attempt < 1 then 0 else attempt - 1 }

  // ----- when the loop computes the formula -----

  const HALF: int := 0x4000_0000_0000_0000

  /** The delays the loop goes through leap over the last range in which doubling overflows. */
  ghost predicate NeverOverflows(base: int, max: int) {
    base < HALF && forall k: nat :: !(HALF <= base * Pow2(k) < max)
  }

  lemma Twice(delay: int, n: nat)
    ensures (2 * delay) * Pow2(n) == delay * Pow2(n + 1)
  {
  }

  lemma AtLeastTwice(delay: int, n: nat)
    requires delay >= 0 && n > 0
    ensures delay * Pow2(n) >= 2 * delay
  {
    assert delay * Pow2(n) == 2 * (delay * Pow2(n - 1)) && delay * Pow2(n - 1) >= delay * 1;
  }

  /** Without an overflow every doubling counts, and the loop computes the documented formula. */
  lemma {:induction false} DoublingIsDelay(delay: int, max: int, n: nat)
    requires 0 <= delay && 0 <= max && Int64(max) && NeverOverflows(delay, max)
    ensures Doubled(delay, max, n) == Min(delay * Pow2(n), max)
    decreases n
  {
    if n > 0 {
      AtLeastTwice(delay, n);
      if 2 * delay < max {
        assert !(HALF <= delay * Pow2(1) < max);
        forall k: nat ensures !(HALF <= (2 * delay) * Pow2(k) < max) { Twice(delay, k); }
        DoublingIsDelay(2 * delay, max, n - 1);
        Twice(delay, n - 1);
      }
    }
  }

  /** The first delay in that range is reached, and the doubling after it turns negative. */
  lemma {:induction false} OverflowShows(delay: int, max: int, k: nat)
    requires 0 <= delay && Int64(delay) && Int64(max)
    requires HALF <= delay * Pow2(k) < max
    ensures exists n: nat :: Doubled(delay, max, n) < 0
    decreases k
  {
    if delay >= HALF {
      assert Doubled(delay, max, 1) < 0 by { assert Wrap64(2 * delay) < 0; }
    } else {
      AtLeastTwice(delay, k);
      Twice(delay, k - 1);
      OverflowShows(2 * delay, max, k - 1);
      var n: nat :| Doubled(2 * delay, max, n) < 0;
      assert Doubled(delay, max, n + 1) < 0;
    }
  }

  lemma FormulaIsNotNegative(base: int, max: int, n: nat)
    requires 0 <= base && 0 <= max
    ensures Min(base * Pow2(n), max) >= 0
  {
    if n > 0 { AtLeastTwice(base, n); }
  }

  /** The loop computes min(base * 2^(attempt-1), max) for every attempt exactly when no delay it
      reaches is too large to be doubled. */
  lemma FormulaHoldsExactly(base: int, max: int)
    requires 0 <= base && Int64(base) && 0 <= max && Int64(max)
    ensures (forall n: nat :: Doubled(base, max, n) == Min(base * Pow2(n), max)) <==> NeverOverflows(base, max)
  {
    if NeverOverflows(base, max) {
      forall n: nat ensures Doubled(base, max, n) == Min(base * Pow2(n), max) { DoublingIsDelay(base, max, n); }
    } else {
      var n: nat;
      if base >= HALF {
        n := 1;
        assert Wrap64(2 * base) < 0;
      } else {
        var k: nat :| HALF <= base * Pow2(k) < max;
        OverflowShows(base, max, k);
        n :| Doubled(base, max, n) < 0;
      }
      assert Doubled(base, max, n) < 0;
      FormulaIsNotNegative(base, max, n);
    }
  }

  /** A base and a maximum below 2^62 are always in order. */
  lemma SmallNeverOverflows(base: int, max: int)
    requires 0 <= base < HALF && max <= HALF
    ensures NeverOverflows(base, max)
  {
  }

  method Backoff(attempt: int, base: int, max: int) returns (delay: int)
    requires Int64(base) && Int64(max)
    ensures delay == Doubled(base, max, Max(0, attempt - 1))
    ensures 0 <= base && 0 <= max && NeverOverflows(base, max) ==>
              delay == Min(base * Pow2(Max(0, attempt - 1)), max)
  {
    if 0 <= base && 0 <= max && NeverOverflows(base, max) { DoublingIsDelay(base, max, Tries(attempt)); }
    var attempts := if attempt < 1 then 1 else attempt;
    delay := base;
    var i := 1;
    while i < attempts
      invariant 1 <= i <= attempts
      invariant Doubled(delay, max, attempts - i) == Doubled(base, max, Tries(attempt))
    {
      delay := Wrap64(delay * 2);
      if delay >= max {
        return max;
      }
      i := i + 1;
    }
    if delay > max {
      return max;
    }
  }

  /** Every retry waits at least as long as the one before, and never longer than the limit. */
  lemma DelayGrows(attempt: int, base: int, max: int)
    requires 0 <= base && 0 <= max
    ensures 0 <= Min(base * Pow2(Max(0, attempt - 1)), max) <= Min(base * Pow2(Max(0, attempt)), max) <= max
  {
  }

  /** The smallest base that fails at its first doubling, and a small base that fails at the last one
      because the maximum is too large. */
  lemma LargeDelaysOverflow()
    ensures !NeverOverflows(HALF, HALF) && Doubled(HALF, HALF, 1) < 0
    ensures !NeverOverflows(1, HALF + 1)
  {
    PowerOfTwo62();
    assert HALF <= 1 * Pow2(62) < HALF + 1;
  }

  lemma PowerOfTwo62()
    ensures Pow2(62) == HALF
  {
    assert Pow2(16) == 0x1_0000;
    PowersMultiply(16, 16);
    PowersMultiply(32, 16);
    PowersMultiply(48, 14);
    assert Pow2(14) == 0x4000;
  }

  lemma {:induction false} PowersMultiply(a: nat, b: nat)
    ensures Pow2(a + b) == Pow2(a) * Pow2(b)
  {
    if b > 0 { PowersMultiply(a, b - 1); }
  }
}
