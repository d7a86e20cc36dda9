/** The retry delays of `ship`, in Go's wrapping int64 arithmetic. */
module Backoff {
  const TWO_63: int := 0x8000_0000_0000_0000
  const TWO_64: int := 0x1_0000_0000_0000_0000

  /** Reduction to a two's complement 64-bit value. */
  function Wrap64(x: int): int { (x + TWO_63) % TWO_64 - TWO_63 }

  function Pow2(n: nat): nat { if n == 0 then 1 else 2 * Pow2(n - 1) }

  function Min(a: int, b: int): int { if a <= b then a else b }

  /** The loop body: RetryBackoff * time.Duration(1<<attempt), capped at MaxBackoff. Both the
      shift and the product wrap. */
  function Delay(retryBackoff: int, maxBackoff: int, attempt: nat): int {
    var backoff := Wrap64(retryBackoff * Wrap64(Pow2(attempt)));
    if backoff > maxBackoff then maxBackoff else backoff
  }

  /** The delay the configuration describes: doubling, capped. */
  function Ideal(retryBackoff: int, maxBackoff: int, attempt: nat): int {
    Min(retryBackoff * Pow2(attempt), maxBackoff)
  }

  predicate Durations(retryBackoff: int, maxBackoff: int) {
    0 < retryBackoff < TWO_63 && 0 < maxBackoff < TWO_63
  }

  lemma WrapInRange(x: int)
    requires -TWO_63 <= x < TWO_63
    ensures Wrap64(x) == x
  {
  }

  lemma WrapOnce(x: int)
    requires TWO_63 <= x < TWO_64
    ensures Wrap64(x) == x - TWO_64 < 0
  {
  }

  lemma {:induction false} Pow2Monotone(a: nat, b: nat)
    requires a <= b
    ensures Pow2(a) <= Pow2(b)
    decreases b
  {
    if a < b { Pow2Monotone(a, b - 1); }
  }

  lemma ScaledMonotone(r: int, a: nat, b: nat)
    requires r > 0 && a <= b
    ensures Pow2(a) <= r * Pow2(a) <= r * Pow2(b)
  {
    Pow2Monotone(a, b);
    Scale(r, Pow2(a), Pow2(b));
  }

  lemma Scale(r: int, x: nat, y: nat)
    requires r > 0 && x <= y
    ensures x <= r * x <= r * y
  {
    assert r * y - r * x == r * (y - x);
    assert r * x - x == (r - 1) * x;
  }

  lemma DelayExact(r: int, m: int, a: nat)
    requires Durations(r, m) && r * Pow2(a) < TWO_63
    ensures Delay(r, m, a) == Ideal(r, m, a)
  {
    ScaledMonotone(r, a, a);
    WrapInRange(Pow2(a));
    WrapInRange(r * Pow2(a));
  }

  /** The first attempt whose product leaves int64 gets a negative delay. */
  lemma FirstOverflow(r: int, m: int, a: nat)
    requires Durations(r, m)
    requires r * Pow2(a) < TWO_63 <= r * Pow2(a + 1)
    ensures Delay(r, m, a + 1) < 0
  {
    Twice(r, Pow2(a));
    WrapOnce(r * Pow2(a + 1));
    if Pow2(a + 1) < TWO_63 {
      WrapInRange(Pow2(a + 1));
    } else {
      WrapOnce(Pow2(a + 1));
    }
  }

  lemma Twice(r: int, p: nat)
    requires r > 0
    ensures r * (2 * p) == 2 * (r * p)
    ensures r > 1 ==> r * p >= 2 * p
  {
    assert r * p == 2 * p + (r - 2) * p;
  }

  /** The exact condition for the backoff schedule of n waits (n = MaxRetries) to be the
      configured one: the last product fits int64. Otherwise some wait is not even positive. */
  lemma ScheduleExact(r: int, m: int, n: nat)
    requires Durations(r, m)
    ensures (forall a: nat | a < n :: Delay(r, m, a) == Ideal(r, m, a))
       <==> (n == 0 || r * Pow2(n - 1) < TWO_63)
  {
    if n > 0 {
      if r * Pow2(n - 1) < TWO_63 {
        forall a: nat | a < n ensures Delay(r, m, a) == Ideal(r, m, a) {
          ScaledMonotone(r, a, n - 1);
          DelayExact(r, m, a);
        }
      } else {
        var a := LastFit(r, n - 1);
        FirstOverflow(r, m, a);
        ScaledMonotone(r, a + 1, a + 1);
      }
    }
  }

  lemma {:induction false} LastFit(r: int, n: nat) returns (a: nat)
    requires 0 < r < TWO_63 <= r * Pow2(n)
    ensures a < n && r * Pow2(a) < TWO_63 <= r * Pow2(a + 1)
  {
    ScaledMonotone(r, 0, n);
    if n == 0 {
      assert false;
    } else if r * Pow2(n - 1) < TWO_63 {
      a := n - 1;
    } else {
      a := LastFit(r, n - 1);
    }
  }

  // ---- what the schedule adds up to ----

  function TotalWait(r: int, m: int, n: nat): int {
    if n == 0 then 0 else TotalWait(r, m, n - 1) + Delay(r, m, n - 1)
  }

  /** While the products fit, every delay is positive and none is shorter than the one before. */
  lemma DelaysGrow(r: int, m: int, a: nat)
    requires Durations(r, m) && r * Pow2(a) < TWO_63
    ensures 0 < Delay(r, m, a) <= m
    ensures a > 0 ==> Delay(r, m, a - 1) <= Delay(r, m, a)
  {
    ScaledMonotone(r, 0, a);
    DelayExact(r, m, a);
    if a > 0 {
      ScaledMonotone(r, a - 1, a);
      DelayExact(r, m, a - 1);
    }
  }

  lemma {:induction false} UncappedTotal(r: int, m: int, n: nat)
    requires Durations(r, m) && (n == 0 || (r * Pow2(n - 1) < m))
    ensures TotalWait(r, m, n) == r * (Pow2(n) - 1)
  {
    if n > 0 {
      if n > 1 { ScaledMonotone(r, n - 2, n - 1); }
      UncappedTotal(r, m, n - 1);
      DelayExact(r, m, n - 1);
      Distribute(r, Pow2(n - 1));
    }
  }

  lemma Distribute(r: int, p: int)
    ensures r * (2 * p - 1) == r * (p - 1) + r * p
  {
  }

  lemma CappedDelay(r: int, m: int, k: nat, a: nat)
    requires Durations(r, m) && k <= a && r * Pow2(k) >= m && r * Pow2(a) < TWO_63
    ensures Delay(r, m, a) == m
  {
    ScaledMonotone(r, k, a);
    DelayExact(r, m, a);
  }

  lemma {:induction false} CappedTotal(r: int, m: int, n: nat, k: nat)
    requires Durations(r, m) && k <= n
    requires k < n ==> r * Pow2(k) >= m && r * Pow2(n - 1) < TWO_63
    ensures TotalWait(r, m, n) == TotalWait(r, m, k) + (n - k) * m
    decreases n
  {
    if k < n {
      CappedDelay(r, m, k, n - 1);
      if k < n - 1 { ScaledMonotone(r, n - 2, n - 1); }
      CappedTotal(r, m, n - 1, k);
      Distribute2(n - k, m);
    }
  }

  lemma Distribute2(c: int, m: int)
    ensures c * m == (c - 1) * m + m
  {
  }

  /** Then n waits take r * (2^k - 1) + (n - k) * m in all, where k is the first attempt
      that reaches the cap. */
  lemma TotalWaitClosedForm(r: int, m: int, n: nat, k: nat)
    requires Durations(r, m) && k <= n
    requires k > 0 ==> r * Pow2(k - 1) < m
    requires k < n ==> r * Pow2(k) >= m && r * Pow2(n - 1) < TWO_63
    ensures TotalWait(r, m, n) == r * (Pow2(k) - 1) + (n - k) * m
  {
    UncappedTotal(r, m, k);
    CappedTotal(r, m, n, k);
  }

  /** One ship call never waits longer than n times the cap, overflow or not. */
  lemma {:induction false} TotalWaitBounded(r: int, m: int, n: nat)
    requires m > 0
    ensures TotalWait(r, m, n) <= n * m
  {
    if n > 0 {
      TotalWaitBounded(r, m, n - 1);
      assert n * m == (n - 1) * m + m;
    }
  }
}
