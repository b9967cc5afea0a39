/** The capped exponential backoff that the Rust, Go and Python sockets share. Seconds are reals. */
module Backoff {
  function Pow2(n: nat): (r: nat)
    ensures r >= 1
  {
    if n == 0 then 1 else 2 * Pow2(n - 1)
  }

  /** The sleep before attempt `a`, for a >= 1. */
  function Delay(a: nat, cap: real): real
    requires a >= 1
  {
    var d := Pow2(a - 1) as real;
    if d <= cap then d else cap
  }

  /** The sleep of attempts 1..m together. */
  function TotalSleep(m: nat, cap: real): real {
    if m == 0 then 0.0 else TotalSleep(m - 1, cap) + Delay(m, cap)
  }

  lemma Pow2Monotone(m: nat, n: nat)
    requires m <= n
    ensures 1 <= Pow2(m) <= Pow2(n)
    decreases n - m
  {
    if m < n {
      Pow2Monotone(m, n - 1);
    }
  }

  /** A delay is neither more than the cap nor more than its power of two, and is one of the two. */
  lemma DelayCapped(a: nat, cap: real)
    requires a >= 1
    ensures Delay(a, cap) <= cap && Delay(a, cap) <= Pow2(a - 1) as real
    ensures Delay(a, cap) == cap || Delay(a, cap) == Pow2(a - 1) as real
    ensures Pow2(0) == 1 && Pow2(a) == 2 * Pow2(a - 1)
  {
  }

  lemma DelaysNondecreasing(a: nat, b: nat, cap: real)
    requires 1 <= a <= b
    ensures Delay(a, cap) <= Delay(b, cap)
  {
    Pow2Monotone(a - 1, b - 1);
  }

  lemma {:induction false} TotalSleepBound(m: nat, cap: real)
    ensures TotalSleep(m, cap) <= m as real * cap
  {
    if m > 0 {
      TotalSleepBound(m - 1, cap);
      assert m as real * cap == (m - 1) as real * cap + cap;
    }
  }

  /** With a cap of 2^k that is reached, the total is exactly 2^k - 1 + (m - k) * 2^k. */
  lemma {:induction false} TotalSleepExact(m: nat, k: nat)
    requires k <= m
    ensures TotalSleep(m, Pow2(k) as real) == (Pow2(k) - 1 + (m - k) * Pow2(k)) as real
    decreases m
  {
    if m > k {
      TotalSleepExact(m - 1, k);
      Pow2Monotone(k, m - 1);
      assert (m - k) * Pow2(k) == (m - 1 - k) * Pow2(k) + Pow2(k);
    } else {
      Uncapped(m, k);
    }
  }

  lemma {:induction false} Uncapped(m: nat, k: nat)
    requires m <= k
    ensures TotalSleep(m, Pow2(k) as real) == (Pow2(m) - 1) as real
  {
    if m > 0 {
      Uncapped(m - 1, k);
      Pow2Monotone(m - 1, k);
    }
  }
}
