/** Exponential backoff with jitter, in exact arithmetic. */
module Backoffs {

  /** The policy's own units: milliseconds. */
  datatype Policy = Policy(baseMs: real, maxMs: real, jitter: real)

  /** The configuration's units: seconds. */
  datatype RetryConfig = RetryConfig(baseDelay: real, maxDelay: real, jitterFactor: real)

  function FromConfig(c: RetryConfig): Policy {
    Policy(c.baseDelay * 1000.0, c.maxDelay * 1000.0, c.jitterFactor)
  }

  function Pow2(n: nat): nat { if n == 0 then 1 else 2 * Pow2(n - 1) }

  function Min(a: real, b: real): real { if a <= b then a else b }

  /** The delay in milliseconds before jitter and cap, and the greatest jitter. */
  function Base(p: Policy, attempt: nat): real { p.baseMs * Pow2(attempt) as real }

  function Range(p: Policy, attempt: nat): real { Base(p, attempt) * p.jitter }

  /** What `random.uniform(-range, range)` may return. */
  predicate Draw(p: Policy, attempt: nat, u: real) {
    -Range(p, attempt) <= u <= Range(p, attempt)
  }

  /** The delay before retrying after attempt `attempt` (from 0), in seconds, for jitter draw `u`. */
  function Delay(p: Policy, attempt: nat, u: real): real {
    Min(Base(p, attempt) + u, p.maxMs) / 1000.0
  }

  /** `RetryConfig.calculate_delay`, whose attempts count from 1. */
  function CalculateDelay(c: RetryConfig, attempt: nat): real
    requires attempt >= 1
  {
    Min(c.baseDelay * Pow2(attempt - 1) as real, c.maxDelay)
  }

  predicate ValidPolicy(p: Policy) { p.baseMs >= 0.0 && 0.0 <= p.jitter <= 1.0 }

  /** Without jitter the policy and its configuration compute the same delays. */
  lemma AgreesWithConfig(c: RetryConfig, attempt: nat)
    requires c.jitterFactor == 0.0
    ensures forall u | Draw(FromConfig(c), attempt, u) ::
              Delay(FromConfig(c), attempt, u) == CalculateDelay(c, attempt + 1)
  {
    var x := Pow2(attempt) as real;
    forall u | Draw(FromConfig(c), attempt, u)
      ensures Delay(FromConfig(c), attempt, u) == CalculateDelay(c, attempt + 1)
    {
      assert c.baseDelay * 1000.0 * x * 0.0 == 0.0;
      assert u == 0.0;
      Rescale(c.baseDelay, x, c.maxDelay);
    }
  }

  lemma Rescale(base: real, x: real, max: real)
    ensures Min(base * 1000.0 * x, max * 1000.0) / 1000.0 == Min(base * x, max)
  {
    assert base * 1000.0 * x == (base * x) * 1000.0;
  }

  // ---------------------------------------------------------------- monotonicity

  ghost predicate NeverDecreases(p: Policy, attempt: nat) {
    forall u, v | Draw(p, attempt, u) && Draw(p, attempt + 1, v) :: InOrder(p, attempt, u, v)
  }

  predicate InOrder(p: Policy, attempt: nat, u: real, v: real) {
    Delay(p, attempt, u) <= Delay(p, attempt + 1, v)
  }

  /** The next delay is at least this one, whatever the two draws, exactly when the jitter factor is at
      most one third or even the least next delay reaches the cap. */
  lemma NeverDecreasesExactly(p: Policy, attempt: nat)
    requires ValidPolicy(p) && p.baseMs > 0.0
    ensures NeverDecreases(p, attempt) <==>
              p.jitter <= 1.0 / 3.0 || Base(p, attempt + 1) - Range(p, attempt + 1) >= p.maxMs
  {
    hide Base, Range;
    var x, r := Base(p, attempt), Range(p, attempt);
    BaseFacts(p, attempt);
    NextBase(p, attempt);
    if NeverDecreases(p, attempt) {
      assert Draw(p, attempt, r) && Draw(p, attempt + 1, -2.0 * r);
      assert InOrder(p, attempt, r, -2.0 * r);
    } else {
      var u, v :| Draw(p, attempt, u) && Draw(p, attempt + 1, v) && !InOrder(p, attempt, u, v);
      assert u <= r && v >= -2.0 * r;
    }
  }

  lemma BaseFacts(p: Policy, attempt: nat)
    requires ValidPolicy(p) && p.baseMs > 0.0
    ensures Base(p, attempt) > 0.0 && Range(p, attempt) >= 0.0
    ensures p.jitter <= 1.0 / 3.0 <==> Base(p, attempt) >= 3.0 * Range(p, attempt)
  {
    PowPositive(attempt);
    MulPositive(p.baseMs, Pow2(attempt) as real);
    var x, j := Base(p, attempt), p.jitter;
    assert x * j >= 0.0;
    if j <= 1.0 / 3.0 {
      assert x * (1.0 - 3.0 * j) >= 0.0;
    } else {
      assert x * (3.0 * j - 1.0) > 0.0;
    }
  }

  lemma MulPositive(a: real, b: real)
    requires a > 0.0 && b > 0.0
    ensures a * b > 0.0
  {
  }

  lemma {:induction false} PowPositive(n: nat)
    ensures Pow2(n) >= 1
  {
    if n > 0 {
      PowPositive(n - 1);
    }
  }

  lemma NextBase(p: Policy, attempt: nat)
    ensures Base(p, attempt + 1) == 2.0 * Base(p, attempt)
    ensures Range(p, attempt + 1) == 2.0 * Range(p, attempt)
  {
    var x := Pow2(attempt) as real;
    assert Pow2(attempt + 1) as real == 2.0 * x;
    assert p.baseMs * (2.0 * x) == 2.0 * (p.baseMs * x);
    assert 2.0 * (p.baseMs * x) * p.jitter == 2.0 * (p.baseMs * x * p.jitter);
  }

  // ---------------------------------------------------------------- total sleep

  /** The sum of the delays after attempts `0 .. |us| - 1`. */
  function TotalDelay(p: Policy, us: seq<real>): real {
    if us == [] then 0.0 else TotalDelay(p, us[..|us| - 1]) + Delay(p, |us| - 1, us[|us| - 1])
  }

  /** `n` delays at the cap, and `n` delays of the uncapped geometric series with maximal jitter. */
  function Caps(p: Policy, n: nat): real { n as real * p.maxMs }

  function Geometric(p: Policy, n: nat): real { p.baseMs * (1.0 + p.jitter) * (Pow2(n) - 1) as real }

  /** Whatever the draws, sleeping `n` times takes at most `n` caps and at most the geometric sum. */
  lemma {:induction false} TotalBounded(p: Policy, us: seq<real>)
    requires forall i | 0 <= i < |us| :: Draw(p, i, us[i])
    ensures 1000.0 * TotalDelay(p, us) <= Min(Caps(p, |us|), Geometric(p, |us|))
  {
    hide Base, Range, Caps, Geometric;
    SumStart(p);
    if us != [] {
      var n := |us| - 1;
      TotalBounded(p, us[..n]);
      SumStep(p, n);
      assert Draw(p, n, us[n]);
    }
  }

  lemma SumStart(p: Policy)
    ensures Caps(p, 0) == 0.0 && Geometric(p, 0) == 0.0
  {
  }

  lemma SumStep(p: Policy, n: nat)
    ensures Caps(p, n + 1) == Caps(p, n) + p.maxMs
    ensures Geometric(p, n + 1) == Geometric(p, n) + Base(p, n) + Range(p, n)
  {
    var b, x := p.baseMs * (1.0 + p.jitter), Pow2(n) as real;
    assert (Pow2(n + 1) - 1) as real == (x - 1.0) + x;
    assert (Pow2(n) - 1) as real == x - 1.0;
    assert b * ((x - 1.0) + x) == b * (x - 1.0) + b * x;
    assert b * x == p.baseMs * x + p.baseMs * x * p.jitter;
  }
}
