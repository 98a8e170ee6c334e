/** When a failed submission is tried again. */
module RetryPolicy {
  const MAX_DELAY := 6 * 3600

  function Power2(n: nat): nat {
    if n == 0 then 1 else 2 * Power2(n - 1)
  }

  function Min(a: int, b: int): int {
    if a < b then a else b
  }

  function Max(a: int, b: int): int {
    if a < b then b else a
  }

  /** The delay after `attempts` earlier attempts; a missing or zero hint counts as 30 seconds. */
  function RetryDelay(retryAfter: int, attempts: int): int {
    var attemptIndex := Max(1, attempts + 1);
    var base := Max(5, if retryAfter == 0 then 30 else retryAfter);
    var multiplier := Min(Power2(Max(0, attemptIndex - 1)), 64);
    Max(5, Min(base * multiplier, MAX_DELAY))
  }

  /**
   The delay by hint and earlier attempts: 30 seconds without a hint, at least 5, doubled with each
   of the first six attempts, and six hours at most.
   */
  ghost function Backoff(hint: int, attempts: int): int {
    var base := if hint == 0 then 30 else if hint < 5 then 5 else hint;
    var factor :=
      if attempts <= 0 then 1
      else if attempts == 1 then 2
      else if attempts == 2 then 4
      else if attempts == 3 then 8
      else if attempts == 4 then 16
      else if attempts == 5 then 32
      else 64;
    if base * factor > 21600 then 21600 else base * factor
  }

  lemma DelayIsBackoff(hint: int, attempts: int)
    ensures RetryDelay(hint, attempts) == Backoff(hint, attempts)
  {
    var n := Max(0, Max(1, attempts + 1) - 1);
    assert Power2(1) == 2 && Power2(2) == 4 && Power2(3) == 8;
    assert Power2(4) == 16 && Power2(5) == 32 && Power2(6) == 64;
    if n >= 6 {
      Power2Grows(6, n);
    }
  }

  lemma {:induction false} Power2Grows(m: nat, n: nat)
    requires m <= n
    ensures 1 <= Power2(m) <= Power2(n)
    decreases n
  {
    if m < n {
      Power2Grows(m, n - 1);
    } else if n > 0 {
      Power2Grows(m - 1, n - 1);
    }
  }

  /** Always between 5 seconds and 6 hours, and never shorter after more attempts or for a longer hint. */
  lemma RetryDelayBounds(retryAfter: int, larger: int, attempts: int, later: int)
    requires attempts <= later && 0 < retryAfter <= larger
    ensures 5 <= RetryDelay(retryAfter, attempts) <= MAX_DELAY
    ensures RetryDelay(retryAfter, attempts) <= RetryDelay(retryAfter, later)
    ensures RetryDelay(retryAfter, attempts) <= RetryDelay(larger, attempts)
  {
    var m, n := Max(0, Max(1, attempts + 1) - 1), Max(0, Max(1, later + 1) - 1);
    Power2Grows(m, n);
    var base, wider := Max(5, retryAfter), Max(5, larger);
    var low, high := Min(Power2(m), 64), Min(Power2(n), 64);
    Scale(base, base, low, high);
    Scale(base, wider, low, low);
  }

  lemma Scale(a: int, b: int, m: int, n: int)
    requires 0 <= a <= b && 0 <= m <= n
    ensures a * m <= b * n
  {
    assert a * m <= b * m <= b * n;
  }

  /** The bounds hold for any hint at all, also none or a negative one. */
  lemma RetryDelayInRange(retryAfter: int, attempts: int)
    ensures 5 <= RetryDelay(retryAfter, attempts) <= MAX_DELAY
  {}

  /** The delay starts at the hint and doubles with every attempt, up to 64 times the hint and to the maximum. */
  lemma DelayDoubles(hint: int, attempts: nat)
    requires hint > 0
    ensures RetryDelay(hint, 0) == Min(Max(5, hint), MAX_DELAY)
    ensures attempts < 6 ==> RetryDelay(hint, attempts + 1) == Min(2 * RetryDelay(hint, attempts), MAX_DELAY)
    ensures attempts >= 6 ==> RetryDelay(hint, attempts) == RetryDelay(hint, 6)
  {
    assert Power2(6) == 64 by {
      assert Power2(3) == 8;
    }
    if attempts < 6 {
      Power2Grows(attempts + 1, 6);
      Power2Grows(attempts, 6);
      Twice(Max(5, hint), Power2(attempts));
    } else {
      Power2Grows(6, attempts);
    }
  }

  lemma Twice(base: int, m: nat)
    ensures base * (2 * m) == 2 * (base * m)
  {}
}
