/** The reconciler's retry delay on 64-bit durations. */
module Backoff {
  import opened Common

  type Duration = Int64

  function Pow2(n: nat): (p: nat)
    ensures p >= 1
  {
    if n == 0 then 1 else 2 * Pow2(n - 1)
  }

  lemma {:induction false} Pow2Grows(m: nat, n: nat)
    requires m <= n
    ensures Pow2(m) <= Pow2(n)
    decreases n
  {
    if m < n { Pow2Grows(m, n - 1); }
  }

  function Doubled(base: int, times: nat): int {
    base * Pow2(times)
  }

  lemma DoubledOnce(base: int, times: nat)
    ensures Doubled(base, times + 1) == 2 * Doubled(base, times)
  {
    assert base * (2 * Pow2(times)) == 2 * (base * Pow2(times));
  }

  lemma DoubledGrows(base: int, m: nat, n: nat)
    requires m <= n && base >= 0
    ensures Doubled(base, m) <= Doubled(base, n)
  {
    Pow2Grows(m, n);
    assert base * (Pow2(n) - Pow2(m)) >= 0;
  }

  function Least(a: int, b: int): int {
    if a < b then a else b
  }

  /** min(maxBackoff, retryBase * 2^(attempt-1)). */
  function Delay(retryBase: Duration, maxBackoff: Duration, attempt: int): int {
    var ideal := Doubled(retryBase as int, if attempt < 1 then 0 else attempt - 1);
    if ideal < maxBackoff as int then ideal else maxBackoff as int
  }

  /** The first delay is the base, each further one doubles the last, and none exceeds the greatest; so
      delays are positive and never shrink with more attempts. */
  lemma DelayIsPositive(retryBase: Duration, maxBackoff: Duration, attempt: int)
    requires retryBase > 0 && maxBackoff > 0
    ensures 0 < Delay(retryBase, maxBackoff, attempt) <= maxBackoff as int
    ensures Delay(retryBase, maxBackoff, attempt) <= Delay(retryBase, maxBackoff, attempt + 1)
    ensures attempt <= 1 ==> Delay(retryBase, maxBackoff, attempt) == Least(retryBase as int, maxBackoff as int)
    ensures attempt >= 1 ==>
              Delay(retryBase, maxBackoff, attempt + 1) == Least(2 * Delay(retryBase, maxBackoff, attempt), maxBackoff as int)
  {
    var n := if attempt < 1 then 0 else attempt - 1;
    DoubledGrows(retryBase as int, 0, n);
    DoubledGrows(retryBase as int, n, if attempt < 0 then 0 else attempt);
    DoubledOnce(retryBase as int, n);
  }

  /** min(maxBackoff, retryBase * 2^(attempt-1)), where attempts below 1 count as 1; the arithmetic of
      Duration shows that no doubling overflows. */
  method RetryDelay(retryBase: Duration, maxBackoff: Duration, attempt: int) returns (delay: Duration)
    requires retryBase > 0 && maxBackoff > 0
    ensures delay as int == Delay(retryBase, maxBackoff, attempt)
  {
    var n := if attempt < 1 then 1 else attempt;
    delay := retryBase;
    var i := 1;
    while i < n && delay < maxBackoff
      invariant 1 <= i <= n
      invariant delay as int == Doubled(retryBase as int, i - 1)
      decreases n - i
    {
      DoubledOnce(retryBase as int, i - 1);
      if delay > maxBackoff / 2 {
        DoubledGrows(retryBase as int, i, n - 1);
        return maxBackoff;
      }
      delay := delay * 2;
      i := i + 1;
    }
    DoubledGrows(retryBase as int, i - 1, n - 1);
    if delay > maxBackoff {
      return maxBackoff;
    }
  }
}
