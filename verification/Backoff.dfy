/** Retry delays of the job queue, in whole seconds. */
module Backoff {
  import opened Integers

  const MAX_DELAY: int := 60

  function Pow2(n: nat): (r: int)
    ensures r >= 1
  {
    if n == 0 then 1 else 2 * Pow2(n - 1)
  }

  /** `2.saturating_pow(n)` in an integer type with the greatest value `max`. */
  function SaturatingPow2(n: nat, max: int): int {
    if n == 0 then Min(1, max) else Min(2 * SaturatingPow2(n - 1, max), max)
  }

  /** The delay after the `attempts`-th failure, computed in a type with greatest value `max`. */
  function DelayIn(attempts: nat, max: int): int
    requires attempts >= 1
  {
    Min(SaturatingPow2(attempts - 1, max), MAX_DELAY)
  }

  /** What the delay means. */
  function Delay(attempts: nat): (r: int)
    requires attempts >= 1
    ensures 1 <= r <= MAX_DELAY
  {
    Min(Pow2(attempts - 1), MAX_DELAY)
  }

  lemma {:induction false} SaturatingIsCapped(n: nat, max: int)
    requires max >= 1
    ensures SaturatingPow2(n, max) == Min(Pow2(n), max)
  {
    if n == 0 {
    } else {
      SaturatingIsCapped(n - 1, max);
    }
  }

  /** Both backends compute the capped power of two, without overflow, for any attempt count. */
  lemma BackendsAgree(attempts: nat)
    requires attempts >= 1
    ensures DelayIn(attempts, U64_MAX) == DelayIn(attempts, I64_MAX) == Delay(attempts)
  {
    SaturatingIsCapped(attempts - 1, U64_MAX);
    SaturatingIsCapped(attempts - 1, I64_MAX);
  }

  /** All delays up to and including the one after the `n`-th failure. */
  function TotalDelay(n: nat): int {
    if n == 0 then 0 else TotalDelay(n - 1) + Delay(n)
  }

  lemma {:induction false} Pow2Doubles(n: nat)
    requires n >= 6
    ensures Pow2(n) >= 64
  {
    if n > 6 {
      Pow2Doubles(n - 1);
    } else {
      assert Pow2(3) == 8 && Pow2(4) == 16 && Pow2(5) == 32;
    }
  }

  /** The delays are 1, 2, 4, 8, 16, 32 seconds, and 60 from the seventh failure on. */
  lemma DelayIs(attempts: nat)
    requires attempts >= 1
    ensures Delay(attempts) == if attempts <= 6 then Pow2(attempts - 1) else 60
  {
    assert Pow2(0) == 1 && Pow2(1) == 2 && Pow2(2) == 4 && Pow2(3) == 8 && Pow2(4) == 16 && Pow2(5) == 32;
    if attempts > 6 {
      Pow2Doubles(attempts - 1);
    }
  }

  /** The delays add up to `2^n - 1` through the sixth failure, and to 60 seconds more for each failure after it. */
  lemma {:induction false} TotalDelayIs(n: nat)
    ensures TotalDelay(n) == if n <= 6 then Pow2(n) - 1 else 63 + 60 * (n - 6)
  {
    if n == 0 {
    } else {
      TotalDelayIs(n - 1);
      DelayIs(n);
      assert Pow2(3) == 8 && Pow2(6) == 64;
    }
  }
}
