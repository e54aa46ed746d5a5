/** Readiness policies: validation, the doubling retry delay in 64-bit nanoseconds,
    and the configuration parser that produces them. */
module Readiness {
  import opened Wrappers

  const TWO_62: int := 0x4000_0000_0000_0000
  const TWO_63: int := 0x8000_0000_0000_0000
  const TWO_64: int := 0x1_0000_0000_0000_0000

  const MILLISECOND: int := 1_000_000
  const SECOND: int := 1_000_000_000
  const MINUTE: int := 60_000_000_000

  /** time.Duration: signed 64-bit nanoseconds. */
  type Duration = d: int | -TWO_63 <= d < TWO_63 witness 0

  datatype Policy = Policy(
    startupTimeout: Duration,
    probeTimeout: Duration,
    probeInterval: Duration,
    retryMinimum: Duration,
    retryMaximum: Duration)

  predicate Valid(p: Policy) {
    !(p.startupTimeout <= 0 || p.probeTimeout <= 0 || p.probeInterval <= 0
      || p.retryMinimum <= 0 || p.retryMaximum < p.retryMinimum)
  }

  /** Two's-complement wrap of a 64-bit result. */
  function Wrap(x: int): Duration {
    (x + TWO_63) % TWO_64 - TWO_63
  }

  function Min(a: int, b: int): int {
    if a < b then a else b
  }

  function NextDelay(p: Policy, delay: Duration): Duration {
    Min(Wrap(delay * 2), p.retryMaximum)
  }

  /** The delay the retry loop arms for its k-th timer. */
  function Delay(p: Policy, k: nat): Duration {
    if k == 0 then p.retryMinimum else NextDelay(p, Delay(p, k - 1))
  }

  function Pow2(k: nat): nat {
    if k == 0 then 1 else 2 * Pow2(k - 1)
  }

  /** The documented delay: exponential, capped. */
  function CappedDelay(p: Policy, k: nat): int {
    Min(p.retryMinimum * Pow2(k), p.retryMaximum)
  }

  /** Time the first k retry timers take at least. */
  function Waited(p: Policy, k: nat): int {
    if k == 0 then 0 else Waited(p, k - 1) + Delay(p, k - 1)
  }

  lemma {:induction false} CappedDelayStep(p: Policy, k: nat)
    requires Valid(p)
    ensures CappedDelay(p, k + 1) == Min(2 * CappedDelay(p, k), p.retryMaximum)
  {
    assert p.retryMinimum * Pow2(k + 1) == 2 * (p.retryMinimum * Pow2(k)) by {
      assert Pow2(k + 1) == 2 * Pow2(k);
    }
  }

  lemma {:induction false} DelayIsCapped(p: Policy, k: nat)
    requires Valid(p) && p.retryMaximum < TWO_62
    ensures Delay(p, k) == CappedDelay(p, k)
  {
    if k == 0 {
      assert p.retryMinimum * Pow2(0) == p.retryMinimum;
    } else {
      DelayIsCapped(p, k - 1);
      var previous := Delay(p, k - 1);
      assert 0 < previous <= p.retryMaximum by {
        PowersGrow(p.retryMinimum, k - 1);
      }
      WrapInRange(previous * 2);
      CappedDelayStep(p, k - 1);
    }
  }

  lemma WrapInRange(x: int)
    requires -TWO_63 <= x < TWO_63
    ensures Wrap(x) == x
  {
  }

  lemma WrapOverflows(x: int)
    requires TWO_63 <= x < TWO_64
    ensures Wrap(x) < 0
  {
  }

  /** From 2^62 on, one doubling leaves the 64-bit range. */
  lemma {:induction false} DoublingOverflows(p: Policy, k: nat)
    requires Valid(p)
    requires TWO_62 <= p.retryMinimum * Pow2(k)
    requires TWO_62 <= p.retryMaximum
    ensures exists j: nat :: Delay(p, j) != CappedDelay(p, j)
  {
    if Delay(p, k) == CappedDelay(p, k) {
      CappedDelayStep(p, k);
      WrapOverflows(Delay(p, k) * 2);
      assert Delay(p, k + 1) != CappedDelay(p, k + 1);
    }
  }

  lemma {:induction false} PowersGrow(m: int, k: nat)
    requires 0 < m
    ensures k < m * Pow2(k)
  {
    if k == 0 {
      assert m * Pow2(0) == m;
    } else {
      PowersGrow(m, k - 1);
      assert m * Pow2(k) == 2 * (m * Pow2(k - 1));
    }
  }

  /** The retry loop's 64-bit doubling is the capped exponential for every attempt
      exactly when the configured maximum is below 2^62 nanoseconds. */
  lemma {:induction false} DoublingNeverOverflowsIff(p: Policy)
    requires Valid(p)
    ensures (forall k: nat :: Delay(p, k) == CappedDelay(p, k)) <==> p.retryMaximum < TWO_62
  {
    if p.retryMaximum < TWO_62 {
      forall k: nat ensures Delay(p, k) == CappedDelay(p, k) {
        DelayIsCapped(p, k);
      }
    } else {
      PowersGrow(p.retryMinimum, TWO_62);
      DoublingOverflows(p, TWO_62);
    }
  }

  /** Each attempt waits at least the minimum, so k waits take at least k minimums. */
  lemma {:induction false} WaitedAtLeast(p: Policy, k: nat)
    requires Valid(p) && p.retryMaximum < TWO_62
    ensures k * p.retryMinimum <= Waited(p, k)
    ensures p.retryMinimum <= Delay(p, k)
  {
    DelayIsCapped(p, k);
    assert p.retryMinimum * 1 <= p.retryMinimum * Pow2(k) by {
      PowersGrow(1, k);
      MulMonotone(p.retryMinimum, 1, Pow2(k));
    }
    if k > 0 {
      WaitedAtLeast(p, k - 1);
      assert k * p.retryMinimum == (k - 1) * p.retryMinimum + p.retryMinimum;
    }
  }

  lemma MulMonotone(m: int, a: int, b: int)
    requires 0 <= m && a <= b
    ensures m * a <= m * b
  {
  }

  /** A rounds-per-deadline bound: an attempt numbered from 0 that starts before
      the deadline has number at most (timeout - 1) / minimum. */
  lemma AttemptBound(p: Policy, k: nat, elapsed: int)
    requires Valid(p) && p.retryMaximum < TWO_62
    requires Waited(p, k) <= elapsed < p.startupTimeout
    ensures k <= (p.startupTimeout - 1) / p.retryMinimum
  {
    WaitedAtLeast(p, k);
    DivBound(k, p.retryMinimum, p.startupTimeout - 1);
  }

  lemma DivBound(k: nat, m: int, t: int)
    requires 0 < m && k * m <= t
    ensures k <= t / m
  {
    if t / m < k {
      MulMonotone(m, t / m + 1, k);
    }
  }

  /** A setting after time.ParseDuration: missing, rejected, or a duration. */
  datatype Setting = Absent | Malformed | Parsed(value: Duration)

  datatype Settings = Settings(
    startupTimeout: Setting, probeTimeout: Setting, probeInterval: Setting,
    retryMinimum: Setting, retryMaximum: Setting)

  function Ranged(s: Setting, fallback: Duration, min: Duration, max: Duration): Result<Duration> {
    var d := if s.Absent? then Parsed(fallback) else s;
    if d.Malformed? || d.value < min || d.value > max then Rejected else Ok(d.value)
  }

  /** The dependency section of the process configuration. */
  function ParsePolicy(s: Settings): Result<Policy> {
    var startup := Ranged(s.startupTimeout, 60 * SECOND, SECOND, 10 * MINUTE);
    if startup.Rejected? then Rejected else
    var probe := Ranged(s.probeTimeout, 3 * SECOND, 100 * MILLISECOND, MINUTE);
    if probe.Rejected? then Rejected else
    var interval := Ranged(s.probeInterval, 5 * SECOND, SECOND, MINUTE);
    if interval.Rejected? then Rejected else
    var minimum := Ranged(s.retryMinimum, 100 * MILLISECOND, 10 * MILLISECOND, MINUTE);
    if minimum.Rejected? then Rejected else
    var maximum := Ranged(s.retryMaximum, 2 * SECOND, 10 * MILLISECOND, MINUTE);
    if maximum.Rejected? then Rejected else
    if probe.value >= startup.value then Rejected
    else if minimum.value > maximum.value then Rejected
    else Ok(Policy(startup.value, probe.value, interval.value, minimum.value, maximum.value))
  }

  /** Every policy the configuration accepts passes the supervisor's own check and
      retries with the capped exponential delay, never overflowing. */
  lemma ParsedPolicyIsSafe(s: Settings, k: nat)
    requires ParsePolicy(s).Ok?
    ensures var p := ParsePolicy(s).value;
            && Valid(p)
            && p.probeTimeout < p.startupTimeout
            && Delay(p, k) == CappedDelay(p, k)
            && Delay(p, k) * 2 < TWO_63
  {
    var p := ParsePolicy(s).value;
    DelayIsCapped(p, k);
  }
}
