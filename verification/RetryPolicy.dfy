/**
 Retry arithmetic of retry_policy.py over binary64.

 A positive finite binary64 number is the bit pattern of section 3.4 of IEEE 754-2019: a
 significand below 2^53 and a scale, worth significand * 2^(scale - 1074).  Every such number is a
 whole number of units of 2^-1074, so exactness statements are about natural numbers of units.
 */
module RetryPolicy {
  import opened Wrappers

  const HIDDEN_BIT: nat := 0x10_0000_0000_0000      // 2^52
  const SIGNIFICAND_LIMIT: nat := 0x20_0000_0000_0000 // 2^53
  const MAX_SCALE: nat := 2045
  const MAX_INSTANT: int := 315_537_897_599_999_999 // 9999-12-31T23:59:59.999999 in microseconds since year 1

  datatype Binary64 = Binary64(significand: nat, scale: nat)

  /** A Python number handed in as a delay. */
  datatype Number = NotFinite | NotPositive | Positive(value: Binary64)

  datatype Outcome = DeliverySucceeded | DeliveryFailed

  datatype RetryDecision = MarkSucceeded | MarkDeadLetter | RetryAt(instant: int)

  datatype RetryError = InvalidAttemptNumber | InvalidMaxAttempts | InvalidDelay | BaseAboveMaximum | InstantOutOfRange

  type Rounding = nat -> nat

  function Pow2(n: nat): nat {
    if n == 0 then 1 else 2 * Pow2(n - 1)
  }

  /** Positive, finite and in the one canonical encoding: normal, or subnormal at scale 0. */
  predicate Finite(x: Binary64) {
    && 0 < x.significand < SIGNIFICAND_LIMIT
    && x.scale <= MAX_SCALE
    && (x.significand < HIDDEN_BIT ==> x.scale == 0)
  }

  predicate ValidNumber(x: Number) {
    x.Positive? ==> Finite(x.value)
  }

  function Units(x: Binary64): nat {
    x.significand * Pow2(x.scale)
  }

  function Least(x: nat, y: nat): nat {
    if x <= y then x else y
  }

  /** Comparison of the encodings, as the machine does it. */
  predicate AtMost(x: Binary64, y: Binary64) {
    x.scale < y.scale || (x.scale == y.scale && x.significand <= y.significand)
  }

  /** math.ldexp on a positive finite number: shift a subnormal up, else raise the exponent; None is OverflowError. */
  function Ldexp(x: Binary64, k: nat): (r: Option<Binary64>)
    requires Finite(x)
    ensures r.Some? ==> Finite(r.value)
    decreases k
  {
    if k == 0 then Some(x)
    else if x.significand < HIDDEN_BIT then Ldexp(Binary64(2 * x.significand, 0), k - 1)
    else if x.scale + k <= MAX_SCALE then Some(Binary64(x.significand, x.scale + k))
    else None
  }

  function ValidateDelay(x: Number): Result<Binary64, RetryError> {
    if x.Positive? then Ok(x.value) else Err(InvalidDelay)
  }

  function ValidateDelays(base: Number, max: Number): Result<(Binary64, Binary64), RetryError> {
    var b := ValidateDelay(base);
    if b.Err? then Err(b.error) else
    var m := ValidateDelay(max);
    if m.Err? then Err(m.error) else
    if !AtMost(b.value, m.value) then Err(BaseAboveMaximum) else
    Ok((b.value, m.value))
  }

  function CalculateRetryDelay(attemptNumber: int, base: Number, max: Number): Result<Binary64, RetryError>
    requires ValidNumber(base) && ValidNumber(max)
  {
    if attemptNumber < 1 then Err(InvalidAttemptNumber) else
    var delays := ValidateDelays(base, max);
    if delays.Err? then Err(delays.error) else
    var shifted := Ldexp(delays.value.0, attemptNumber - 1);
    if shifted.None? then Ok(delays.value.1) else
    Ok(if AtMost(delays.value.1, shifted.value) then delays.value.1 else shifted.value)
  }

  function DecideRetry(outcome: Outcome, attemptNumber: int, decisionAt: int, maxAttempts: int,
                       base: Number, max: Number, rounding: Rounding): Result<RetryDecision, RetryError>
    requires ValidNumber(base) && ValidNumber(max)
  {
    if attemptNumber < 1 then Err(InvalidAttemptNumber) else
    if maxAttempts < 1 then Err(InvalidMaxAttempts) else
    var delays := ValidateDelays(base, max);
    if delays.Err? then Err(delays.error) else
    if outcome.DeliverySucceeded? then Ok(MarkSucceeded) else
    if attemptNumber >= maxAttempts then Ok(MarkDeadLetter) else
    var delay := CalculateRetryDelay(attemptNumber, base, max);
    if delay.Err? then Err(delay.error) else
    var instant := decisionAt + rounding(Units(delay.value));
    if instant > MAX_INSTANT then Err(InstantOutOfRange) else
    Ok(RetryAt(instant))
  }

  // ---------------------------------------------------------------- powers of two

  lemma {:induction false} Pow2Adds(a: nat, b: nat)
    ensures Pow2(a + b) == Pow2(a) * Pow2(b)
    decreases b
  {
    if b > 0 {
      Pow2Adds(a, b - 1);
      assert Pow2(a + b) == 2 * Pow2(a + (b - 1));
    }
  }

  lemma {:induction false} Pow2Grows(a: nat, b: nat)
    requires a <= b
    ensures 0 < Pow2(a) <= Pow2(b)
    ensures a < b ==> 2 * Pow2(a) <= Pow2(b)
    decreases b
  {
    if a < b {
      Pow2Grows(a, b - 1);
    } else if a > 0 {
      Pow2Grows(a - 1, b - 1);
    }
  }

  lemma MulMono(a: nat, b: nat, c: nat)
    requires a <= b
    ensures a * c <= b * c && c * a <= c * b
  {
  }

  lemma Regroup(a: nat, b: nat, c: nat)
    ensures a * (b * c) == a * b * c
  {
  }

  // ---------------------------------------------------------------- comparison and scaling are exact

  /** Comparing encodings is comparing values. */
  lemma AtMostIsExact(x: Binary64, y: Binary64)
    requires Finite(x) && Finite(y)
    ensures AtMost(x, y) <==> Units(x) <= Units(y)
  {
    if x.scale == y.scale {
      Pow2Grows(x.scale, x.scale);
      SameScale(x.significand, y.significand, Pow2(x.scale));
    } else if x.scale < y.scale {
      LowerScaleIsSmaller(x, y);
    } else {
      LowerScaleIsSmaller(y, x);
    }
  }

  lemma SameScale(a: nat, b: nat, p: nat)
    requires 0 < p
    ensures a <= b <==> a * p <= b * p
  {
    if a <= b { MulMono(a, b, p); } else { MulMono(b + 1, a, p); }
  }

  /** A smaller scale loses to any normal number of a larger one, even one past the largest finite scale. */
  lemma LowerScaleIsSmaller(x: Binary64, y: Binary64)
    requires x.significand < SIGNIFICAND_LIMIT && HIDDEN_BIT <= y.significand && x.scale < y.scale
    ensures Units(x) < Units(y)
  {
    Pow2Grows(x.scale, y.scale);
    CrossScales(x.significand, Pow2(x.scale), y.significand, Pow2(y.scale), HIDDEN_BIT);
  }

  lemma CrossScales(a: nat, p: nat, b: nat, q: nat, half: nat)
    requires a < 2 * half && half <= b && 0 < p && 2 * p <= q
    ensures a * p < b * q
  {
    MulMono(a + 1, 2 * half, p);
    Regroup(half, 2, p);
    MulMono(2 * p, q, half);
    MulMono(half, b, q);
  }

  /** ldexp never rounds; it overflows exactly when no finite number is as large as the true product. */
  lemma {:induction false} LdexpIsExact(x: Binary64, k: nat)
    requires Finite(x)
    ensures Ldexp(x, k).Some? ==> Units(Ldexp(x, k).value) == Units(x) * Pow2(k)
    ensures Ldexp(x, k).None? ==> forall y: Binary64 :: Finite(y) ==> Units(y) < Units(x) * Pow2(k)
    decreases k
  {
    if k == 0 {
    } else if x.significand < HIDDEN_BIT {
      var up := Binary64(2 * x.significand, 0);
      LdexpIsExact(up, k - 1);
      Regroup(x.significand, 2, Pow2(k - 1));
    } else if x.scale + k <= MAX_SCALE {
      Pow2Adds(x.scale, k);
      Regroup(x.significand, Pow2(x.scale), Pow2(k));
    } else {
      var top := Binary64(x.significand, x.scale + k);
      Pow2Adds(x.scale, k);
      Regroup(x.significand, Pow2(x.scale), Pow2(k));
      forall y: Binary64 | Finite(y) ensures Units(y) < Units(x) * Pow2(k) {
        LowerScaleIsSmaller(y, top);
      }
    }
  }

  // ---------------------------------------------------------------- the delay formula

  /** The delay is the true value min(base * 2^(n-1), max), the overflow branch included. */
  lemma DelayIsExact(n: int, base: Number, max: Number)
    requires ValidNumber(base) && ValidNumber(max)
    ensures CalculateRetryDelay(n, base, max).Ok? <==>
              n >= 1 && base.Positive? && max.Positive? && Units(base.value) <= Units(max.value)
    ensures CalculateRetryDelay(n, base, max).Ok? ==>
              var d := CalculateRetryDelay(n, base, max).value;
              Finite(d) && Units(d) == Least(Units(base.value) * Pow2(n - 1), Units(max.value))
  {
    if base.Positive? && max.Positive? {
      AtMostIsExact(base.value, max.value);
      if n >= 1 && AtMost(base.value, max.value) {
        LdexpIsExact(base.value, n - 1);
        var shifted := Ldexp(base.value, n - 1);
        if shifted.Some? {
          AtMostIsExact(max.value, shifted.value);
        }
      }
    }
  }

  /** The wait before attempt n + 1, in units. */
  ghost function Wait(base: nat, max: nat, n: nat): nat
    requires n >= 1
  {
    Least(base * Pow2(n - 1), max)
  }

  /** Waits never shrink and stay between the base and the maximum; the encoding does too. */
  lemma DelayIsMonotone(n: int, later: int, base: Number, max: Number)
    requires ValidNumber(base) && ValidNumber(max)
    requires 1 <= n <= later
    requires CalculateRetryDelay(n, base, max).Ok?
    ensures CalculateRetryDelay(later, base, max).Ok?
    ensures Units(base.value) <= Units(CalculateRetryDelay(n, base, max).value)
                              <= Units(CalculateRetryDelay(later, base, max).value)
                              <= Units(max.value)
  {
    DelayIsExact(n, base, max);
    DelayIsExact(later, base, max);
    WaitIsMonotone(Units(base.value), Units(max.value), n, later);
  }

  lemma WaitIsMonotone(base: nat, max: nat, n: nat, later: nat)
    requires 1 <= n <= later && base <= max
    ensures base <= Wait(base, max, n) <= Wait(base, max, later) <= max
  {
    Pow2Grows(0, n - 1);
    Pow2Grows(n - 1, later - 1);
    MulMono(1, Pow2(n - 1), base);
    MulMono(Pow2(n - 1), Pow2(later - 1), base);
  }

  /** The waits of a cycle of m failed attempts, in units: what the policy returns after attempts 1 .. m-1. */
  ghost function TotalDelay(base: Number, max: Number, m: nat): nat
    requires ValidNumber(base) && ValidNumber(max) && m >= 1 && CalculateRetryDelay(1, base, max).Ok?
  {
    if m == 1 then 0
    else
      DelayIsMonotone(1, m - 1, base, max);
      TotalDelay(base, max, m - 1) + Units(CalculateRetryDelay(m - 1, base, max).value)
  }

  /** k is the first doubling that reaches the cap. */
  ghost predicate FirstAtCap(base: nat, max: nat, k: nat) {
    && base * Pow2(k) >= max
    && (forall i: nat :: i < k ==> base * Pow2(i) < max)
  }

  lemma {:induction false} Pow2Exceeds(n: nat)
    ensures Pow2(n) > n
  {
    if n > 0 { Pow2Exceeds(n - 1); }
  }

  lemma {:induction false} FirstWithin(base: nat, max: nat, k: nat) returns (first: nat)
    requires base * Pow2(k) >= max
    ensures first <= k && FirstAtCap(base, max, first)
    decreases k
  {
    first := k;
    if i: nat :| i < k && base * Pow2(i) >= max {
      first := FirstWithin(base, max, i);
    }
  }

  /** Exactly one doubling is the first to reach the cap. */
  lemma FirstAtCapExists(base: nat, max: nat) returns (k: nat)
    requires 0 < base
    ensures FirstAtCap(base, max, k)
    ensures forall other: nat :: FirstAtCap(base, max, other) ==> other == k
  {
    Pow2Exceeds(max);
    MulMono(1, base, Pow2(max));
    k := FirstWithin(base, max, max);
  }

  lemma PositiveProduct(a: nat, b: nat)
    requires 0 < a && 0 < b
    ensures 0 < a * b
  {
  }

  /** The same sum over the real formula. */
  ghost function TotalWait(base: nat, max: nat, m: nat): nat
    requires m >= 1
  {
    if m == 1 then 0 else TotalWait(base, max, m - 1) + Wait(base, max, m - 1)
  }

  lemma {:induction false} DelaysAreWaits(base: Number, max: Number, m: nat)
    requires ValidNumber(base) && ValidNumber(max) && m >= 1 && CalculateRetryDelay(1, base, max).Ok?
    ensures base.Positive? && max.Positive?
    ensures TotalDelay(base, max, m) == TotalWait(Units(base.value), Units(max.value), m)
    decreases m
  {
    hide CalculateRetryDelay, Units;
    DelayIsExact(1, base, max);
    if m > 1 {
      DelaysAreWaits(base, max, m - 1);
      DelayIsMonotone(1, m - 1, base, max);
      DelayIsExact(m - 1, base, max);
    }
  }

  /** The sum of n waits when k doublings fit under the cap. */
  ghost function ClosedForm(base: nat, max: nat, k: nat, n: nat): int {
    if n <= k then base * (Pow2(n) - 1) else base * (Pow2(k) - 1) + (n - k) * max
  }

  lemma ClosedFormStep(base: nat, max: nat, k: nat, n: nat)
    ensures ClosedForm(base, max, k, 0) == 0
    ensures ClosedForm(base, max, k, n + 1) == ClosedForm(base, max, k, n) + if n < k then base * Pow2(n) else max
  {
    Pow2Grows(0, n);
    if n < k {
      Doubled(base, Pow2(n));
    } else {
      CappedStep(base * (Pow2(k) - 1), max, n - k);
    }
  }

  lemma Doubled(base: int, p: int)
    ensures base * (p - 1) + base * p == base * (2 * p - 1)
  {
  }

  lemma {:induction false} SumToCap(base: nat, max: nat, m: nat, k: nat)
    requires m >= 1 && FirstAtCap(base, max, k)
    ensures TotalWait(base, max, m) == ClosedForm(base, max, k, m - 1)
    decreases m
  {
    hide FirstAtCap, Wait, ClosedForm, Pow2;
    ClosedFormStep(base, max, k, 0);
    if m > 1 {
      SumToCap(base, max, m - 1, k);
      WaitAtCap(base, max, k, m - 2);
      ClosedFormStep(base, max, k, m - 2);
    }
  }

  lemma WaitAtCap(base: nat, max: nat, k: nat, i: nat)
    requires FirstAtCap(base, max, k)
    ensures Wait(base, max, i + 1) == if i < k then base * Pow2(i) else max
  {
    if i >= k {
      Pow2Grows(k, i);
      MulMono(Pow2(k), Pow2(i), base);
    }
  }

  lemma CappedStep(sum: int, max: int, n: int)
    ensures sum + n * max + max == sum + (n + 1) * max
  {
  }

  /** The waits of a failing cycle sum to a geometric series up to the cap, and to the cap for each attempt beyond. */
  lemma TotalWaitClosedForm(base: Number, max: Number, m: nat) returns (k: nat)
    requires ValidNumber(base) && ValidNumber(max) && m >= 1 && CalculateRetryDelay(1, base, max).Ok?
    ensures var b, top := Units(base.value), Units(max.value);
            && FirstAtCap(b, top, k)
            && TotalDelay(base, max, m) ==
                 if m - 1 <= k then b * (Pow2(m - 1) - 1) else b * (Pow2(k) - 1) + (m - 1 - k) * top
  {
    DelayIsExact(1, base, max);
    Pow2Grows(0, base.value.scale);
    PositiveProduct(base.value.significand, Pow2(base.value.scale));
    k := FirstAtCapExists(Units(base.value), Units(max.value));
    DelaysAreWaits(base, max, m);
    SumToCap(Units(base.value), Units(max.value), m, k);
  }

  // ---------------------------------------------------------------- the decision

  ghost predicate Monotone(rounding: Rounding) {
    forall a: nat, b: nat :: a <= b ==> rounding(a) <= rounding(b)
  }

  /** Exactly when each decision is taken, and the instant a retry is set for. */
  lemma DecisionCases(outcome: Outcome, n: int, at: int, maxAttempts: int, base: Number, max: Number,
                      rounding: Rounding)
    requires ValidNumber(base) && ValidNumber(max)
    requires n >= 1 && maxAttempts >= 1
    requires base.Positive? && max.Positive? && Units(base.value) <= Units(max.value)
    ensures var wait := rounding(Wait(Units(base.value), Units(max.value), n));
            var r := DecideRetry(outcome, n, at, maxAttempts, base, max, rounding);
            && (r == Ok(MarkSucceeded) <==> outcome == DeliverySucceeded)
            && (r == Ok(MarkDeadLetter) <==> outcome == DeliveryFailed && n >= maxAttempts)
            && (r == Ok(RetryAt(at + wait)) <==>
                  outcome == DeliveryFailed && n < maxAttempts && at + wait <= MAX_INSTANT)
            && (r == Err(InstantOutOfRange) <==>
                  outcome == DeliveryFailed && n < maxAttempts && at + wait > MAX_INSTANT)
  {
    DelayIsExact(n, base, max);
  }

  /** Each refusal of the policy and its case, in the order of the checks. */
  lemma DecisionRefusals(outcome: Outcome, n: int, at: int, maxAttempts: int, base: Number, max: Number,
                         rounding: Rounding)
    requires ValidNumber(base) && ValidNumber(max)
    ensures var r := DecideRetry(outcome, n, at, maxAttempts, base, max, rounding);
            && (r == Err(InvalidAttemptNumber) <==> n < 1)
            && (r == Err(InvalidMaxAttempts) <==> n >= 1 && maxAttempts < 1)
            && (r == Err(InvalidDelay) <==> n >= 1 && maxAttempts >= 1 && (!base.Positive? || !max.Positive?))
            && (r == Err(BaseAboveMaximum) <==>
                  && n >= 1 && maxAttempts >= 1 && base.Positive? && max.Positive?
                  && Units(base.value) > Units(max.value))
            && (r.Err? && r.error.InstantOutOfRange? ==> outcome == DeliveryFailed && n < maxAttempts)
  {
    if base.Positive? && max.Positive? {
      AtMostIsExact(base.value, max.value);
    }
    if n >= 1 {
      DelayIsExact(n, base, max);
    }
  }

  /** Under any monotone rounding to microseconds, later failures of one cycle never wait less. */
  lemma ScheduledWaitsAreMonotone(n: int, later: int, at: int, laterAt: int, maxAttempts: int,
                                  base: Number, max: Number, rounding: Rounding)
    requires ValidNumber(base) && ValidNumber(max) && Monotone(rounding)
    requires 1 <= n <= later
    requires DecideRetry(DeliveryFailed, n, at, maxAttempts, base, max, rounding).Ok?
    requires DecideRetry(DeliveryFailed, later, laterAt, maxAttempts, base, max, rounding).Ok?
    requires later < maxAttempts
    ensures var first := DecideRetry(DeliveryFailed, n, at, maxAttempts, base, max, rounding).value;
            var second := DecideRetry(DeliveryFailed, later, laterAt, maxAttempts, base, max, rounding).value;
            first.RetryAt? && second.RetryAt? && first.instant - at <= second.instant - laterAt
  {
    DelayIsMonotone(n, later, base, max);
    var d1 := CalculateRetryDelay(n, base, max).value;
    var d2 := CalculateRetryDelay(later, base, max).value;
    assert rounding(Units(d1)) <= rounding(Units(d2));
  }
}
