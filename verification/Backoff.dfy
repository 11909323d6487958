/**
 * The capped doubling used for every retry delay: dispatchBackoff
 * (internal/notifications/dispatcher.go), runBackoff
 * (internal/businessreports/runner.go) and Backoff
 * (internal/fleetupdate/fleetupdate.go). Durations are nanoseconds.
 */
module Backoff {
  const SECOND := 1_000_000_000
  const MINUTE := 60 * SECOND
  const HOUR := 60 * MINUTE

  function Power2(n: nat): nat {
    if n == 0 then 1 else 2 * Power2(n - 1)
  }

  /** base, 2 * base, 4 * base, ... for attempts 1, 2, 3, ..., never above the cap. */
  function Delay(base: nat, cap: nat, attempt: int): nat {
    var doubled := base * Power2(if attempt < 1 then 0 else attempt - 1);
    if doubled > cap then cap else doubled
  }

  lemma {:induction false} Power2Monotone(m: nat, n: nat)
    requires m <= n
    ensures 1 <= Power2(m) <= Power2(n)
    decreases n
  {
    if m < n {
      Power2Monotone(m, n - 1);
    } else if n > 0 {
      Power2Monotone(n - 1, n - 1);
    }
  }

  /** Delays never shrink from one attempt to the next. */
  lemma DelayMonotone(base: nat, cap: nat, attempt: int, later: int)
    requires attempt <= later
    ensures Delay(base, cap, attempt) <= Delay(base, cap, later) <= cap
  {
    var m, n := if attempt < 1 then 0 else attempt - 1, if later < 1 then 0 else later - 1;
    ScaledMonotone(base, m, n);
  }

  lemma PowerOfZero()
    ensures Power2(0) == 1
  {
  }

  lemma Doubled(base: nat, n: nat)
    ensures base * Power2(n + 1) == 2 * (base * Power2(n))
  {
    assert Power2(n + 1) == 2 * Power2(n);
  }

  lemma ScaledMonotone(base: nat, m: nat, n: nat)
    requires m <= n
    ensures base * Power2(m) <= base * Power2(n)
  {
    Power2Monotone(m, n);
    assert base * (Power2(n) - Power2(m)) >= 0;
  }

  /** The first delay is the base, and every later one twice the one before, never above the cap. */
  lemma DelayDoubles(base: nat, cap: nat, attempt: int)
    ensures attempt <= 1 ==> Delay(base, cap, attempt) == if base > cap then cap else base
    ensures attempt >= 1 ==>
      Delay(base, cap, attempt + 1) ==
        if 2 * Delay(base, cap, attempt) > cap then cap else 2 * Delay(base, cap, attempt)
  {
    PowerOfZero();
    assert base * Power2(0) == base;
    if attempt >= 1 {
      Doubled(base, attempt - 1);
    }
    hide Power2;
  }

  /** The loop of all three functions; it stops doubling once the cap is reached. */
  method CappedDoubling(base: nat, cap: nat, attempt: int) returns (delay: nat)
    ensures delay == Delay(base, cap, attempt)
  {
    hide Power2;
    delay := base;
    var i := 1;
    PowerOfZero();
    while i < attempt && delay < cap
      invariant 1 <= i && (i <= attempt || i == 1)
      invariant delay == base * Power2(i - 1)
    {
      Doubled(base, i - 1);
      delay := delay * 2;
      i := i + 1;
    }
    if i < attempt {
      ScaledMonotone(base, i - 1, attempt - 1);
    }
    if delay > cap {
      delay := cap;
    }
  }
}
