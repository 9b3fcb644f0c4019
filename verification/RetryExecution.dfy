/** One execution of the retry policy, composed with a circuit breaker and the retry budget. */
module RetryExecution {
  import opened Common
  import B = Backoffs

  /** What the environment does in one attempt: whether the breaker admits it, whether the rejection
      counts as transient, whether the budget grants a retry, what `func` does, and the jitter draw. */
  datatype Attempt = Attempt(admits: bool, rejectionTransient: bool, budgetGrants: bool, outcome: Outcome, draw: real)

  datatype Outcome = Value | Transient | Permanent

  datatype Config = Config(maxAttempts: nat, hasBreaker: bool, delays: B.Policy)

  /** What can be observed of an execution, in order. */
  datatype Event =
    | Rejected(attempt: nat)
    | Refused(attempt: nat)
    | Charged(attempt: nat)
    | Called(attempt: nat)
    | Left(attempt: nat, failed: bool)
    | Slept(delay: real)

  /** How an execution ends, with the attempt count it reports. */
  datatype End =
    | OpenAtStart
    | Success(attempts: nat)
    | BudgetExceeded(attempts: nat)
    | NotTransient
    | Exhausted(attempts: nat)

  // ---------------------------------------------------------------- the executed loop, as a function

  /** The events of the attempt up to its result. */
  function Body(c: Config, e: Attempt, n: nat): seq<Event> {
    if c.hasBreaker && !e.admits then [Rejected(n)]
    else if n > 0 && !e.budgetGrants then [Refused(n)] + Leaving(c, n, true)
    else (if n > 0 then [Charged(n)] else []) + [Called(n)] + Leaving(c, n, e.outcome != Value)
  }

  function Leaving(c: Config, n: nat, failed: bool): seq<Event> {
    if c.hasBreaker then [Left(n, failed)] else []
  }

  /** Whether the attempt ends the execution; `None` is a transient failure. */
  function Verdict(c: Config, e: Attempt, n: nat): Option<End> {
    if c.hasBreaker && !e.admits then if e.rejectionTransient then None else Some(NotTransient)
    else if n > 0 && !e.budgetGrants then Some(BudgetExceeded(n + 1))
    else match e.outcome
         case Value => Some(Success(n + 1))
         case Permanent => Some(NotTransient)
         case Transient => None
  }

  /** Everything from attempt `n` on. */
  function From(c: Config, env: seq<Attempt>, n: nat): (seq<Event>, End)
    requires |env| == c.maxAttempts && n <= c.maxAttempts
    decreases c.maxAttempts - n
  {
    if n == c.maxAttempts then ([], Exhausted(c.maxAttempts))
    else
      var body, v := Body(c, env[n], n), Verdict(c, env[n], n);
      if v.Some? then (body, v.value)
      else if n == c.maxAttempts - 1 then (body, Exhausted(n + 1))
      else
        var (rest, end) := From(c, env, n + 1);
        (body + [Slept(B.Delay(c.delays, n, env[n].draw))] + rest, end)
  }

  // ---------------------------------------------------------------- the loop itself

  /** One attempt, up to its result. */
  method Try(c: Config, e: Attempt, n: nat) returns (events: seq<Event>, verdict: Option<End>)
    ensures events == Body(c, e, n) && verdict == Verdict(c, e, n)
  {
    events := [];
    if c.hasBreaker && !e.admits {
      return [Rejected(n)], if e.rejectionTransient then None else Some(NotTransient);
    }
    if n > 0 {
      if !e.budgetGrants {
        return [Refused(n)] + Leaving(c, n, true), Some(BudgetExceeded(n + 1));
      }
      events := [Charged(n)];
    }
    events := events + [Called(n)] + Leaving(c, n, e.outcome != Value);
    match e.outcome
    case Value => verdict := Some(Success(n + 1));
    case Permanent => verdict := Some(NotTransient);
    case Transient => verdict := None;
  }

  /** The events of `log` followed by those still to come. */
  function Then(log: seq<Event>, r: (seq<Event>, End)): (seq<Event>, End) { (log + r.0, r.1) }

  lemma OneAttempt(c: Config, env: seq<Attempt>, log: seq<Event>, n: nat)
    requires |env| == c.maxAttempts && n < c.maxAttempts
    ensures var body, v := Body(c, env[n], n), Verdict(c, env[n], n);
            Then(log, From(c, env, n)) ==
            if v.Some? then (log + body, v.value)
            else if n == c.maxAttempts - 1 then (log + body, Exhausted(n + 1))
            else Then(log + body + [Slept(B.Delay(c.delays, n, env[n].draw))], From(c, env, n + 1))
  {
    hide Body, Verdict;
    var body, s := Body(c, env[n], n), [Slept(B.Delay(c.delays, n, env[n].draw))];
    if Verdict(c, env[n], n).None? && n < c.maxAttempts - 1 {
      assert log + (body + s + From(c, env, n + 1).0) == log + body + s + From(c, env, n + 1).0;
    }
  }

  /** `execute_with_metrics`. */
  method Execute(c: Config, openAtStart: bool, env: seq<Attempt>) returns (log: seq<Event>, end: End)
    requires |env| == c.maxAttempts
    ensures if c.hasBreaker && openAtStart then log == [] && end == OpenAtStart
            else (log, end) == From(c, env, 0)
  {
    hide Body, Verdict;
    log := [];
    if c.hasBreaker && openAtStart {
      return log, OpenAtStart;
    }
    var attempt := 0;
    assert [] + From(c, env, 0).0 == From(c, env, 0).0;
    while attempt < c.maxAttempts
      invariant 0 <= attempt <= c.maxAttempts
      invariant Then(log, From(c, env, attempt)) == From(c, env, 0)
    {
      OneAttempt(c, env, log, attempt);
      var events, verdict := Try(c, env[attempt], attempt);
      log := log + events;
      if verdict.Some? {
        return log, verdict.value;
      }
      if attempt >= c.maxAttempts - 1 {
        return log, Exhausted(attempt + 1);
      }
      log := log + [Slept(B.Delay(c.delays, attempt, env[attempt].draw))];
      attempt := attempt + 1;
    }
    end := Exhausted(c.maxAttempts);
    assert log + [] == log;
  }

  // ---------------------------------------------------------------- what the events add up to

  predicate IsCall(e: Event) { e.Called? }
  predicate IsRetryCall(e: Event) { e.Called? && e.attempt > 0 }
  predicate IsCharge(e: Event) { e.Charged? }
  predicate IsRefusal(e: Event) { e.Refused? }
  predicate IsRejection(e: Event) { e.Rejected? }
  predicate IsExit(e: Event) { e.Left? }
  predicate IsSleep(e: Event) { e.Slept? }

  datatype Tally = Tally(
    calls: nat,
    retryCalls: nat,
    charges: nat,
    refusals: nat,
    rejections: nat,
    exits: nat,
    sleeps: nat)

  function TallyOf(log: seq<Event>): Tally {
    Tally(Count(log, IsCall), Count(log, IsRetryCall), Count(log, IsCharge), Count(log, IsRefusal),
          Count(log, IsRejection), Count(log, IsExit), Count(log, IsSleep))
  }

  function Plus(a: Tally, b: Tally): Tally {
    Tally(a.calls + b.calls, a.retryCalls + b.retryCalls, a.charges + b.charges, a.refusals + b.refusals,
          a.rejections + b.rejections, a.exits + b.exits, a.sleeps + b.sleeps)
  }

  lemma TallyAppend(a: seq<Event>, b: seq<Event>)
    ensures TallyOf(a + b) == Plus(TallyOf(a), TallyOf(b))
  {
    hide Count, IsCall, IsRetryCall, IsCharge, IsRefusal, IsRejection, IsExit, IsSleep;
    CountAppend(a, b, IsCall);
    CountAppend(a, b, IsRetryCall);
    CountAppend(a, b, IsCharge);
    CountAppend(a, b, IsRefusal);
    CountAppend(a, b, IsRejection);
    CountAppend(a, b, IsExit);
    CountAppend(a, b, IsSleep);
  }

  /** The tally of a single event. */
  function TallyOne(e: Event): Tally {
    Tally(if IsCall(e) then 1 else 0, if IsRetryCall(e) then 1 else 0, if IsCharge(e) then 1 else 0,
          if IsRefusal(e) then 1 else 0, if IsRejection(e) then 1 else 0, if IsExit(e) then 1 else 0,
          if IsSleep(e) then 1 else 0)
  }

  lemma TallySingle(e: Event)
    ensures TallyOf([e]) == TallyOne(e) && TallyOf([]) == Tally(0, 0, 0, 0, 0, 0, 0)
  {
    CountOne(e, IsCall);
    CountOne(e, IsRetryCall);
    CountOne(e, IsCharge);
    CountOne(e, IsRefusal);
    CountOne(e, IsRejection);
    CountOne(e, IsExit);
    CountOne(e, IsSleep);
  }

  lemma LeavingTally(c: Config, n: nat, failed: bool)
    ensures TallyOf(Leaving(c, n, failed)) == Tally(0, 0, 0, 0, 0, if c.hasBreaker then 1 else 0, 0)
  {
    hide TallyOf;
    TallySingle(Left(n, failed));
  }

  lemma CallTally(c: Config, n: nat, failed: bool)
    ensures var retry := if n > 0 then 1 else 0;
            TallyOf((if n > 0 then [Charged(n)] else []) + [Called(n)] + Leaving(c, n, failed)) ==
            Tally(1, retry, retry, 0, 0, if c.hasBreaker then 1 else 0, 0)
  {
    hide TallyOf, Leaving, Plus;
    var charge := if n > 0 then [Charged(n)] else [];
    var retry, exit := if n > 0 then 1 else 0, if c.hasBreaker then 1 else 0;
    TallySingle(Charged(n));
    TallySingle(Called(n));
    LeavingTally(c, n, failed);
    TallyAppend(charge + [Called(n)], Leaving(c, n, failed));
    TallyAppend(charge, [Called(n)]);
    assert TallyOf(charge) == Tally(0, 0, retry, 0, 0, 0, 0);
    assert TallyOf([Called(n)]) == Tally(1, retry, 0, 0, 0, 0, 0);
    CallPlus(retry, exit);
  }

  lemma CallPlus(retry: nat, exit: nat)
    ensures Plus(Plus(Tally(0, 0, retry, 0, 0, 0, 0), Tally(1, retry, 0, 0, 0, 0, 0)), Tally(0, 0, 0, 0, 0, exit, 0)) ==
            Tally(1, retry, retry, 0, 0, exit, 0)
  {
  }

  /** How often each kind of event can occur in one attempt. */
  predicate BodyOk(c: Config, t: Tally, n: nat) {
    && t.sleeps == 0
    && t.charges == t.retryCalls == (if n > 0 then t.calls else 0)
    && t.exits == (if c.hasBreaker then t.calls + t.refusals else 0)
    && t.calls + t.refusals + t.rejections == 1
    && (!c.hasBreaker ==> t.rejections == 0)
  }

  lemma BodyTally(c: Config, e: Attempt, n: nat)
    ensures BodyOk(c, TallyOf(Body(c, e, n)), n)
    ensures TallyOf(Body(c, e, n)).refusals == 1 <==> Verdict(c, e, n) == Some(BudgetExceeded(n + 1))
  {
    hide TallyOf, Leaving;
    if c.hasBreaker && !e.admits {
      TallySingle(Rejected(n));
    } else if n > 0 && !e.budgetGrants {
      TallySingle(Refused(n));
      LeavingTally(c, n, true);
      TallyAppend([Refused(n)], Leaving(c, n, true));
    } else {
      CallTally(c, n, e.outcome != Value);
    }
  }

  predicate CallsOk(t: Tally, n: nat) {
    t.charges == t.retryCalls && t.retryCalls <= t.calls <= t.retryCalls + if n == 0 then 1 else 0
  }

  predicate ExitsOk(c: Config, t: Tally) {
    if c.hasBreaker then t.exits == t.calls + t.refusals else t.exits == 0 && t.rejections == 0
  }

  predicate TriesOk(c: Config, t: Tally, end: End, n: nat) {
    var tries := Tries(t);
    && n + tries <= c.maxAttempts
    && t.refusals == (if end.BudgetExceeded? then 1 else 0)
    && !end.OpenAtStart?
    && (end.Success? || end.BudgetExceeded? || end.Exhausted? ==> end.attempts == n + tries)
    && t.sleeps == if n == c.maxAttempts then 0 else tries - 1
  }

  /** The totals from attempt `n` on, which ends as `end`. */
  predicate TotalsOk(c: Config, t: Tally, end: End, n: nat) {
    CallsOk(t, n) && ExitsOk(c, t) && TriesOk(c, t, end, n)
  }

  /** The tally of one attempt and its sleep before those of the attempts that follow. */
  function Before(b: Tally, r: Tally): Tally { Plus(Plus(b, Tally(0, 0, 0, 0, 0, 0, 1)), r) }

  lemma CallsStep(c: Config, b: Tally, r: Tally, n: nat)
    requires BodyOk(c, b, n) && b.refusals == 0 && CallsOk(r, n + 1)
    ensures CallsOk(Before(b, r), n)
  {
  }

  lemma ExitsStep(c: Config, b: Tally, r: Tally, n: nat)
    requires BodyOk(c, b, n) && b.refusals == 0 && ExitsOk(c, r)
    ensures ExitsOk(c, Before(b, r))
  {
  }

  function Tries(t: Tally): nat { t.calls + t.refusals + t.rejections }

  lemma OneTry(c: Config, b: Tally, n: nat)
    requires BodyOk(c, b, n)
    ensures Tries(b) == 1 && b.sleeps == 0
  {
  }

  lemma TriesAdd(b: Tally, r: Tally)
    ensures Tries(Before(b, r)) == Tries(b) + Tries(r)
    ensures Before(b, r).sleeps == b.sleeps + 1 + r.sleeps && Before(b, r).refusals == b.refusals + r.refusals
  {
  }

  lemma TriesStep(c: Config, b: Tally, r: Tally, end: End, n: nat)
    requires BodyOk(c, b, n) && b.refusals == 0 && n + 1 < c.maxAttempts && TriesOk(c, r, end, n + 1)
    ensures TriesOk(c, Before(b, r), end, n)
  {
    hide BodyOk, Before, Tries;
    OneTry(c, b, n);
    TriesAdd(b, r);
  }

  /** One attempt, its sleep and the attempts that follow. */
  lemma TotalsStep(c: Config, b: Tally, s: Tally, r: Tally, end: End, n: nat)
    requires BodyOk(c, b, n) && b.refusals == 0 && s == Tally(0, 0, 0, 0, 0, 0, 1)
    requires n + 1 < c.maxAttempts && TotalsOk(c, r, end, n + 1)
    ensures TotalsOk(c, Plus(Plus(b, s), r), end, n)
  {
    hide BodyOk, CallsOk, ExitsOk, TriesOk, Plus;
    CallsStep(c, b, r, n);
    ExitsStep(c, b, r, n);
    TriesStep(c, b, r, end, n);
  }

  lemma OneAttemptOk(c: Config, b: Tally, n: nat)
    requires BodyOk(c, b, n)
    ensures CallsOk(b, n) && ExitsOk(c, b) && b.refusals <= 1
  {
  }

  lemma VerdictMeans(c: Config, e: Attempt, n: nat)
    ensures var v := Verdict(c, e, n);
            v.Some? ==> !v.value.OpenAtStart? && !v.value.Exhausted?
                        && (v.value.BudgetExceeded? <==> v == Some(BudgetExceeded(n + 1)))
                        && (v.value.Success? || v.value.BudgetExceeded? ==> v.value.attempts == n + 1)
  {
  }

  /** The attempt the loop ends at. */
  lemma TotalsEnd(c: Config, e: Attempt, n: nat)
    requires n < c.maxAttempts
    ensures Verdict(c, e, n).Some? ==> TotalsOk(c, TallyOf(Body(c, e, n)), Verdict(c, e, n).value, n)
    ensures Verdict(c, e, n).None? ==> TallyOf(Body(c, e, n)).refusals == 0
    ensures (Verdict(c, e, n).None? && n == c.maxAttempts - 1) ==>
              TotalsOk(c, TallyOf(Body(c, e, n)), Exhausted(n + 1), n)
  {
    hide TallyOf, Body, Verdict, BodyOk, CallsOk, ExitsOk, Tries;
    var b := TallyOf(Body(c, e, n));
    BodyTally(c, e, n);
    OneAttemptOk(c, b, n);
    OneTry(c, b, n);
    VerdictMeans(c, e, n);
  }

  lemma {:induction false} FromTotals(c: Config, env: seq<Attempt>, n: nat)
    requires |env| == c.maxAttempts && n <= c.maxAttempts
    ensures TotalsOk(c, TallyOf(From(c, env, n).0), From(c, env, n).1, n)
    decreases c.maxAttempts - n
  {
    hide TallyOf, Body, Verdict, BodyOk, Plus;
    if n == c.maxAttempts {
      TallySingle(Slept(0.0));
    } else {
      hide TotalsOk;
      var body, v := Body(c, env[n], n), Verdict(c, env[n], n);
      TotalsEnd(c, env[n], n);
      if v.None? && n < c.maxAttempts - 1 {
        var s, rest := Slept(B.Delay(c.delays, n, env[n].draw)), From(c, env, n + 1).0;
        FromTotals(c, env, n + 1);
        BodyTally(c, env[n], n);
        TallySingle(s);
        TallyAppend(body + [s], rest);
        TallyAppend(body, [s]);
        TotalsStep(c, TallyOf(body), TallyOf([s]), TallyOf(rest), From(c, env, n + 1).1, n);
      }
    }
  }

  /** `func` is called at most `maxAttempts` times; the budget is charged once for every call made on a
      retry; the breaker is left once for every call and every refusal; and the reported attempts are
      the calls, refusals and rejections, so without a breaker a success reports its calls. */
  lemma ExecutionAddsUp(c: Config, env: seq<Attempt>)
    requires |env| == c.maxAttempts
    ensures var (log, end) := From(c, env, 0);
            var t := TallyOf(log);
            t.calls <= c.maxAttempts
            && t.charges == t.retryCalls
            && t.exits == (if c.hasBreaker then t.calls + t.refusals else 0)
            && (end.Success? ==> end.attempts == t.calls + t.rejections)
            && (end.Success? && !c.hasBreaker ==> end.attempts == t.calls)
            && (end.Exhausted? ==> end.attempts == c.maxAttempts)
  {
    FromTotals(c, env, 0);
    ExhaustedUsesAll(c, env, 0);
  }

  lemma {:induction false} ExhaustedUsesAll(c: Config, env: seq<Attempt>, n: nat)
    requires |env| == c.maxAttempts && n <= c.maxAttempts
    ensures From(c, env, n).1.Exhausted? ==> From(c, env, n).1.attempts == c.maxAttempts
    decreases c.maxAttempts - n
  {
    if n < c.maxAttempts - 1 {
      ExhaustedUsesAll(c, env, n + 1);
    }
  }

  /** An execution succeeds exactly when some attempt returns a value before any attempt ended the
      execution otherwise. */
  lemma {:induction false} SucceedsExactly(c: Config, env: seq<Attempt>, n: nat)
    requires |env| == c.maxAttempts && n <= c.maxAttempts
    ensures From(c, env, n).1.Success? <==>
            exists k :: n <= k < c.maxAttempts && Verdict(c, env[k], k) == Some(Success(k + 1))
                        && forall i | n <= i < k :: Verdict(c, env[i], i) == None
    decreases c.maxAttempts - n
  {
    if n < c.maxAttempts {
      var v := Verdict(c, env[n], n);
      if v.None? {
        SucceedsExactly(c, env, n + 1);
      }
    }
  }

  // ---------------------------------------------------------------- the end, from the environment alone

  /** `func` is called: the breaker lets the attempt in and the budget, asked on retries, grants it. */
  predicate Calls(c: Config, e: Attempt, i: nat) { (c.hasBreaker ==> e.admits) && (i > 0 ==> e.budgetGrants) }

  /** The attempt fails in a way that another one may follow. */
  predicate Passable(c: Config, e: Attempt, i: nat) {
    if c.hasBreaker && !e.admits then e.rejectionTransient else Calls(c, e, i) && e.outcome == Transient
  }

  predicate Returns(c: Config, e: Attempt, i: nat) { Calls(c, e, i) && e.outcome == Value }

  predicate IsRefused(c: Config, e: Attempt, i: nat) { (c.hasBreaker ==> e.admits) && i > 0 && !e.budgetGrants }

  /** The attempt fails for good: `func` raises a permanent exception, or a rejection is not transient. */
  predicate FailsForGood(c: Config, e: Attempt, i: nat) {
    if c.hasBreaker && !e.admits then !e.rejectionTransient else Calls(c, e, i) && e.outcome == Permanent
  }

  predicate PassableBefore(c: Config, env: seq<Attempt>, k: nat)
    requires k <= |env|
  {
    forall i | 0 <= i < k :: Passable(c, env[i], i)
  }

  lemma {:induction false} PassesOn(c: Config, env: seq<Attempt>, k: nat)
    requires |env| == c.maxAttempts && k <= c.maxAttempts && PassableBefore(c, env, k)
    ensures k < c.maxAttempts ==> From(c, env, 0).1 == From(c, env, k).1
    ensures k == c.maxAttempts ==> From(c, env, 0).1 == Exhausted(c.maxAttempts)
  {
    if k > 0 {
      PassesOn(c, env, k - 1);
      assert Passable(c, env[k - 1], k - 1);
    }
  }

  lemma {:induction false} FirstNotPassable(c: Config, env: seq<Attempt>, n: nat) returns (k: nat)
    requires n <= |env| == c.maxAttempts && PassableBefore(c, env, n)
    ensures n <= k <= c.maxAttempts && PassableBefore(c, env, k)
    ensures k < c.maxAttempts ==> !Passable(c, env[k], k)
    decreases c.maxAttempts - n
  {
    k := n;
    if n < c.maxAttempts && Passable(c, env[n], n) {
      k := FirstNotPassable(c, env, n + 1);
    }
  }

  /** The attempts that may be passed over decide, with the first one that may not, how it ends. */
  lemma EndOfExecution(c: Config, env: seq<Attempt>) returns (k: nat)
    requires |env| == c.maxAttempts
    ensures k <= c.maxAttempts && PassableBefore(c, env, k) && (k < c.maxAttempts ==> !Passable(c, env[k], k))
    ensures From(c, env, 0).1 ==
            if k == c.maxAttempts then Exhausted(c.maxAttempts)
            else if IsRefused(c, env[k], k) then BudgetExceeded(k + 1)
            else if Returns(c, env[k], k) then Success(k + 1) else NotTransient
  {
    k := FirstNotPassable(c, env, 0);
    PassesOn(c, env, k);
  }

  lemma OnlyOne(c: Config, e: Attempt, i: nat)
    ensures Passable(c, e, i) ==> !Returns(c, e, i) && !IsRefused(c, e, i) && !FailsForGood(c, e, i)
    ensures !Passable(c, e, i) && !IsRefused(c, e, i) && !Returns(c, e, i) ==> FailsForGood(c, e, i)
    ensures !(Returns(c, e, i) && IsRefused(c, e, i)) && !(Returns(c, e, i) && FailsForGood(c, e, i))
    ensures !(IsRefused(c, e, i) && FailsForGood(c, e, i))
  {
  }

  /** An execution succeeds, is refused or raises in attempt `k` if and only if the attempts before failed in
      a way that may be retried and that one returns a value, exceeds the budget or fails for good; and it
      is exhausted if and only if all attempts may be retried. */
  lemma EndsExactly(c: Config, env: seq<Attempt>)
    requires |env| == c.maxAttempts
    ensures forall k: nat | k < c.maxAttempts ::
              From(c, env, 0).1 == Success(k + 1) <==> Returns(c, env[k], k) && PassableBefore(c, env, k)
    ensures forall k: nat | k < c.maxAttempts ::
              From(c, env, 0).1 == BudgetExceeded(k + 1) <==> IsRefused(c, env[k], k) && PassableBefore(c, env, k)
    ensures From(c, env, 0).1 == NotTransient <==>
            exists k: nat :: k < c.maxAttempts && FailsForGood(c, env[k], k) && PassableBefore(c, env, k)
    ensures From(c, env, 0).1.Exhausted? <==> PassableBefore(c, env, c.maxAttempts)
  {
    var first := EndOfExecution(c, env);
    if first < c.maxAttempts {
      OnlyOne(c, env[first], first);
    }
    forall k: nat | k < c.maxAttempts && PassableBefore(c, env, k) && !Passable(c, env[k], k)
      ensures k == first
    {
    }
    forall k: nat | k < c.maxAttempts
      ensures Returns(c, env[k], k) || IsRefused(c, env[k], k) || FailsForGood(c, env[k], k)
              <==> !Passable(c, env[k], k)
    {
      OnlyOne(c, env[k], k);
    }
    hide Passable, Returns, IsRefused, FailsForGood, From;
  }

  // ---------------------------------------------------------------- the order of events

  /** A retry is called right after it was charged; the breaker is left right after the call or the
      refusal, and with an exception after a refusal. */
  predicate InOrder(c: Config, log: seq<Event>) {
    forall i | 0 <= i < |log| :: EventOk(c, log, i)
  }

  predicate EventOk(c: Config, log: seq<Event>, i: nat)
    requires i < |log|
  {
    match log[i]
    case Charged(n) => i + 1 < |log| && log[i + 1] == Called(n)
    case Called(n) =>
      (n > 0 ==> i > 0 && log[i - 1] == Charged(n))
      && (c.hasBreaker ==> i + 1 < |log| && log[i + 1].Left? && log[i + 1].attempt == n)
    case Refused(n) => c.hasBreaker ==> i + 1 < |log| && log[i + 1] == Left(n, true)
    case Left(n, _) => i > 0 && (log[i - 1] == Called(n) || log[i - 1] == Refused(n))
    case _ => true
  }

  lemma InOrderAppend(c: Config, a: seq<Event>, b: seq<Event>)
    requires InOrder(c, a) && InOrder(c, b)
    ensures InOrder(c, a + b)
  {
    forall i | 0 <= i < |a + b|
      ensures EventOk(c, a + b, i)
    {
      if i < |a| {
        assert EventOk(c, a, i);
      } else {
        assert EventOk(c, b, i - |a|);
      }
    }
  }

  lemma BodyInOrder(c: Config, e: Attempt, n: nat)
    ensures InOrder(c, Body(c, e, n))
  {
  }

  lemma {:induction false} LogInOrder(c: Config, env: seq<Attempt>, n: nat)
    requires |env| == c.maxAttempts && n <= c.maxAttempts
    ensures InOrder(c, From(c, env, n).0)
    decreases c.maxAttempts - n
  {
    hide Body, Verdict, InOrder;
    if n < c.maxAttempts {
      BodyInOrder(c, env[n], n);
      if Verdict(c, env[n], n).None? && n < c.maxAttempts - 1 {
        var s := Slept(B.Delay(c.delays, n, env[n].draw));
        LogInOrder(c, env, n + 1);
        SleepInOrder(c, s);
        InOrderAppend(c, Body(c, env[n], n), [s]);
        InOrderAppend(c, Body(c, env[n], n) + [s], From(c, env, n + 1).0);
      }
    } else {
      NothingInOrder(c);
    }
  }

  lemma SleepInOrder(c: Config, s: Event)
    requires s.Slept?
    ensures InOrder(c, [s])
  {
  }

  lemma NothingInOrder(c: Config)
    ensures InOrder(c, [])
  {
  }

  predicate IsFailedExit(e: Event) { e.Left? && e.failed }

  /** The breaker sees a failure on every exit but the one of the call that returns the value. */
  lemma {:induction false} ExitsFailExactly(c: Config, env: seq<Attempt>, n: nat)
    requires |env| == c.maxAttempts && n <= c.maxAttempts
    ensures Count(From(c, env, n).0, IsFailedExit) + (if c.hasBreaker && From(c, env, n).1.Success? then 1 else 0) ==
            Count(From(c, env, n).0, IsExit)
    decreases c.maxAttempts - n
  {
    if n < c.maxAttempts {
      BodyExits(c, env[n], n);
      if Verdict(c, env[n], n).None? && n < c.maxAttempts - 1 {
        var s, body, rest := Slept(B.Delay(c.delays, n, env[n].draw)), Body(c, env[n], n), From(c, env, n + 1).0;
        ExitsFailExactly(c, env, n + 1);
        CountSnoc(body, s, IsFailedExit);
        CountSnoc(body, s, IsExit);
        CountAppend(body + [s], rest, IsFailedExit);
        CountAppend(body + [s], rest, IsExit);
        hide Count, Body, Verdict;
      } else {
        hide Count, Body;
      }
    }
  }

  lemma BodyExits(c: Config, e: Attempt, n: nat)
    ensures var v := Verdict(c, e, n);
            Count(Body(c, e, n), IsFailedExit) + (if c.hasBreaker && v.Some? && v.value.Success? then 1 else 0) ==
            Count(Body(c, e, n), IsExit)
  {
    var charge := if n > 0 then [Charged(n)] else [];
    var failed := e.outcome != Value;
    CountAppend(charge + [Called(n)], Leaving(c, n, failed), IsFailedExit);
    CountAppend(charge + [Called(n)], Leaving(c, n, failed), IsExit);
    CountAppend(charge, [Called(n)], IsFailedExit);
    CountAppend(charge, [Called(n)], IsExit);
    CountAppend([Refused(n)], Leaving(c, n, true), IsFailedExit);
    CountAppend([Refused(n)], Leaving(c, n, true), IsExit);
  }

  // ---------------------------------------------------------------- total sleep

  function Sleep(log: seq<Event>): real {
    if log == [] then 0.0 else (if log[0].Slept? then log[0].delay else 0.0) + Sleep(log[1..])
  }

  lemma {:induction false} SleepAppend(a: seq<Event>, b: seq<Event>)
    ensures Sleep(a + b) == Sleep(a) + Sleep(b)
  {
    if a == [] {
      assert a + b == b;
    } else {
      SleepAppend(a[1..], b);
      assert (a + b)[1..] == a[1..] + b;
    }
  }

  lemma {:induction false} NoSleep(a: seq<Event>)
    requires forall i | 0 <= i < |a| :: !a[i].Slept?
    ensures Sleep(a) == 0.0
  {
    if a != [] {
      NoSleep(a[1..]);
    }
  }

  function Draws(env: seq<Attempt>, k: nat): seq<real>
    requires k <= |env|
  {
    seq(k, i requires 0 <= i < k => env[i].draw)
  }

  /** The time slept is that of the first `k` backoff delays, for some `k` below the attempt limit. */
  lemma {:induction false} SleepsArePrefix(c: Config, env: seq<Attempt>, n: nat) returns (k: nat)
    requires |env| == c.maxAttempts && n < c.maxAttempts
    ensures n <= k < c.maxAttempts
    ensures B.TotalDelay(c.delays, Draws(env, n)) + Sleep(From(c, env, n).0) == B.TotalDelay(c.delays, Draws(env, k))
    decreases c.maxAttempts - n
  {
    var body, v := Body(c, env[n], n), Verdict(c, env[n], n);
    NoSleep(body);
    if v.None? && n < c.maxAttempts - 1 {
      k := SleepsArePrefix(c, env, n + 1);
      var d, rest := B.Delay(c.delays, n, env[n].draw), From(c, env, n + 1).0;
      SleepAppend(body + [Slept(d)], rest);
      SleepAppend(body, [Slept(d)]);
      assert Sleep([Slept(d)]) == d;
      assert Draws(env, n + 1)[..n] == Draws(env, n);
    } else {
      k := n;
    }
  }

  /** One execution sleeps at most `maxAttempts - 1` caps and at most the geometric sum, whatever the
      jitter draws, the breaker, the budget and `func` do. */
  lemma TotalSleepBounded(c: Config, env: seq<Attempt>)
    requires |env| == c.maxAttempts >= 1 && B.ValidPolicy(c.delays) && c.delays.maxMs >= 0.0
    requires forall i | 0 <= i < |env| :: B.Draw(c.delays, i, env[i].draw)
    ensures 1000.0 * Sleep(From(c, env, 0).0) <=
            B.Min(B.Caps(c.delays, c.maxAttempts - 1), B.Geometric(c.delays, c.maxAttempts - 1))
  {
    var k := SleepsArePrefix(c, env, 0);
    assert Draws(env, 0) == [];
    B.TotalBounded(c.delays, Draws(env, k));
    BoundsGrow(c.delays, k, c.maxAttempts - 1);
  }

  lemma {:induction false} BoundsGrow(p: B.Policy, k: nat, n: nat)
    requires B.ValidPolicy(p) && p.maxMs >= 0.0 && k <= n
    ensures B.Caps(p, k) <= B.Caps(p, n) && B.Geometric(p, k) <= B.Geometric(p, n)
  {
    if k < n {
      BoundsGrow(p, k, n - 1);
      B.SumStep(p, n - 1);
      B.PowPositive(n - 1);
      BaseNonNegative(p, n - 1);
    }
  }

  lemma BaseNonNegative(p: B.Policy, n: nat)
    requires B.ValidPolicy(p)
    ensures B.Base(p, n) >= 0.0 && B.Range(p, n) >= 0.0
  {
    B.PowPositive(n);
    Product(p.baseMs, B.Pow2(n) as real);
    Product(B.Base(p, n), p.jitter);
  }

  lemma Product(a: real, b: real)
    requires a >= 0.0 && b >= 0.0
    ensures a * b >= 0.0
  {
  }
}
