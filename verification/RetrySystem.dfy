/** Any number of concurrent executions of one retry policy that share its budget and, those that are given
    one, a circuit breaker. */
module RetrySystem {
  import opened Common
  import C = CircuitBreaking
  import B = BreakerSystem
  import G = RetryBudgets
  import X = RetryExecution
  import D = Backoffs

  datatype Config = Config(policy: X.Config, budget: G.Config)

  /** Where an execution is: before `func` (at or in the breaker, if it has one), in `func`, refused by the
      budget and not yet out of the breaker, or between two attempts. */
  datatype Pc = New | Trying | Running | Refusing | Sleeping | Over(end: X.End)

  /** `guarded` says whether the execution was given the breaker; `seen` are the attempts made so far, as
      the environment decided them, and `log` is what happened in them. */
  datatype Exec = Exec(key: string, guarded: bool, pc: Pc, seen: seq<X.Attempt>, log: seq<X.Event>)

  /** What a caller asks for. */
  datatype Request = Request(key: string, guarded: bool)

  /** One call of `func`: by which execution, in which attempt, when, and charged to which key. */
  datatype Call = Call(e: nat, attempt: nat, at: real, key: string, guarded: bool)

  datatype Sys = Sys(b: B.Sys, g: G.Sys, execs: seq<Exec>, calls: seq<Call>)

  datatype Action =
    | Starting(e: nat)
    | AtBreaker(e: nat, a: B.Action, transient: bool, draw: real)
    | Calling(e: nat, now: real)
    | Asking(e: nat, now: real)
    | Leaving(e: nat, outcome: X.Outcome, draw: real, t1: real, t2: real, t3: real)
    | Waking(e: nat)
    | Shared(a: B.Action)
    | ResettingBudget(key: string, now: real)

  /** The steps of the breaker that admit a task or turn it away. */
  predicate IsEntry(a: B.Action) { a.Entering? || a.Granting? || a.Resuming? || a.TimingOut? }

  /** The policy as execution `x` was called with it. */
  function For(c: Config, x: Exec): X.Config { c.policy.(hasBreaker := x.guarded) }

  /** Execution `e` is about to ask the budget or to call `func`. */
  predicate InBody(s: Sys, e: nat) {
    e < |s.execs| && e < |s.b.tasks| && s.execs[e].pc.Trying? && (s.execs[e].guarded ==> s.b.tasks[e].Inside?)
  }

  predicate Enabled(s: Sys, a: Action) {
    && |s.b.tasks| == |s.execs|
    && match a
       case Starting(e) => e < |s.execs| && s.execs[e].pc.New?
       case AtBreaker(e, b, _, _) =>
         e < |s.execs| && s.execs[e].guarded && s.execs[e].pc.Trying? && IsEntry(b) && b.t == e && B.Enabled(s.b, b)
       case Calling(e, _) => InBody(s, e) && s.execs[e].seen == []
       case Asking(e, now) =>
         InBody(s, e) && s.execs[e].seen != [] && G.Enabled(s.g, G.Checking(s.execs[e].key, now))
       case Leaving(e, outcome, _, t1, t2, t3) =>
         e < |s.execs| && (s.execs[e].pc.Running? || s.execs[e].pc.Refusing?)
         && (s.execs[e].guarded ==> B.Enabled(s.b, B.Exiting(e, Fails(s.execs[e], outcome), t1, t2, t3)))
       case Waking(e) => e < |s.execs| && s.execs[e].pc.Sleeping?
       case Shared(b) => (b.Measuring? || b.Resetting?) && B.Enabled(s.b, b)
       case ResettingBudget(key, now) => G.Enabled(s.g, G.Resetting(key, now))
  }

  /** Whether an attempt ends with an exception. */
  predicate Fails(x: Exec, outcome: X.Outcome) { x.pc.Refusing? || outcome != X.Value }

  /** The loop after one attempt: the end of the execution, or a sleep. */
  function Decide(c: X.Config, x: Exec, e: X.Attempt): Exec {
    var n := |x.seen|;
    var v, log := X.Verdict(c, e, n), x.log + X.Body(c, e, n);
    if v.Some? then x.(seen := x.seen + [e], log := log, pc := Over(v.value))
    else if n == c.maxAttempts - 1 then x.(seen := x.seen + [e], log := log, pc := Over(X.Exhausted(n + 1)))
    else x.(seen := x.seen + [e], log := log + [X.Slept(D.Delay(c.delays, n, e.draw))], pc := Sleeping)
  }

  function StepEntry(c: Config, s: Sys, a: Action): Sys
    requires a.AtBreaker? && Enabled(s, a)
  {
    var b, x := B.Step(s.b, a.a), s.execs[a.e];
    s.(b := b,
       execs := if a.e < |b.tasks| && b.tasks[a.e].Outside?
                then s.execs[a.e := Decide(For(c, x), x, X.Attempt(false, a.transient, false, X.Value, a.draw))]
                else s.execs)
  }

  function StepAsk(c: Config, s: Sys, e: nat, now: real): Sys
    requires Enabled(s, Asking(e, now))
  {
    var x := s.execs[e];
    var g := G.Step(c.budget, s.g, G.Checking(x.key, now));
    if |g.grants| > |s.g.grants|
    then s.(g := g, execs := s.execs[e := x.(pc := Running)],
            calls := s.calls + [Call(e, |x.seen|, now, x.key, x.guarded)])
    else s.(g := g, execs := s.execs[e := x.(pc := Refusing)])
  }

  function Step(c: Config, s: Sys, a: Action): Sys
    requires Enabled(s, a)
  {
    match a
    case Starting(e) =>
      var end := if s.execs[e].guarded && s.b.b.mode.Open? then Over(X.OpenAtStart)
                 else if c.policy.maxAttempts == 0 then Over(X.Exhausted(0)) else Trying;
      s.(execs := s.execs[e := s.execs[e].(pc := end)])
    case AtBreaker(_, _, _, _) => StepEntry(c, s, a)
    case Calling(e, now) =>
      var x := s.execs[e];
      s.(execs := s.execs[e := x.(pc := Running)], calls := s.calls + [Call(e, 0, now, x.key, x.guarded)])
    case Asking(e, now) => StepAsk(c, s, e, now)
    case Leaving(e, outcome, draw, t1, t2, t3) =>
      var x := s.execs[e];
      s.(b := if x.guarded then B.Step(s.b, B.Exiting(e, Fails(x, outcome), t1, t2, t3)) else s.b,
         execs := s.execs[e := Decide(For(c, x), x, X.Attempt(true, false, x.pc.Running?, outcome, draw))])
    case Waking(e) => s.(execs := s.execs[e := s.execs[e].(pc := Trying)])
    case Shared(b) => s.(b := B.Step(s.b, b))
    case ResettingBudget(key, now) => s.(g := G.Step(c.budget, s.g, G.Resetting(key, now)))
  }

  function Begin(breaker: C.Config, requests: seq<Request>, t0: real): Sys {
    Sys(B.Start(breaker, |requests|, t0), G.Begin(t0),
        seq(|requests|, i requires 0 <= i < |requests| => Exec(requests[i].key, requests[i].guarded, New, [], [])), [])
  }

  ghost predicate IsRun(c: Config, states: seq<Sys>, actions: seq<Action>) {
    && |states| == |actions| + 1
    && forall i | 0 <= i < |actions| ::
         Enabled(states[i], actions[i]) && states[i + 1] == Step(c, states[i], actions[i])
  }

  // ---------------------------------------------------------------- each execution is one of the specification

  /** An environment for a whole execution that starts as `seen`. */
  predicate Extends(c: X.Config, env: seq<X.Attempt>, seen: seq<X.Attempt>) {
    |env| == c.maxAttempts && seen <= env
  }

  /** However the environment goes on, the execution so far and the specified rest are the specified whole. */
  ghost predicate Follows(c: X.Config, x: Exec) {
    |x.seen| < c.maxAttempts
    && forall env | Extends(c, env, x.seen) :: X.Then(x.log, X.From(c, env, |x.seen|)) == X.From(c, env, 0)
  }

  ghost predicate EndsAs(c: X.Config, x: Exec, end: X.End) {
    && |x.seen| <= c.maxAttempts
    && if end.OpenAtStart? then x.seen == [] && x.log == []
       else forall env | Extends(c, env, x.seen) :: (x.log, end) == X.From(c, env, 0)
  }

  ghost predicate ExecOk(c: X.Config, x: Exec) {
    match x.pc
    case New => x.seen == [] && x.log == []
    case Over(end) => EndsAs(c, x, end)
    case _ => Follows(c, x) && (x.pc.Refusing? ==> x.seen != [])
  }

  lemma DecideFollows(c: X.Config, x: Exec, e: X.Attempt)
    requires Follows(c, x)
    ensures ExecOk(c, Decide(c, x, e))
  {
    hide X.From, X.Body, X.Verdict, X.Then;
    var y := Decide(c, x, e);
    forall env | Extends(c, env, y.seen)
      ensures if y.pc.Over? then (y.log, y.pc.end) == X.From(c, env, 0)
              else X.Then(y.log, X.From(c, env, |y.seen|)) == X.From(c, env, 0)
    {
      assert Extends(c, env, x.seen) && env[|x.seen|] == e;
      X.OneAttempt(c, env, x.log, |x.seen|);
    }
    VerdictIsNoOpenAtStart(c, e, |x.seen|);
  }

  lemma VerdictIsNoOpenAtStart(c: X.Config, e: X.Attempt, n: nat)
    ensures X.Verdict(c, e, n).Some? ==> !X.Verdict(c, e, n).value.OpenAtStart?
  {
  }

  lemma StartFollows(c: X.Config, x: Exec)
    requires x.seen == [] && x.log == []
    ensures c.maxAttempts > 0 ==> Follows(c, x)
    ensures c.maxAttempts == 0 ==> EndsAs(c, x, X.Exhausted(0))
  {
    forall env | Extends(c, env, x.seen)
      ensures X.Then([], X.From(c, env, 0)) == X.From(c, env, 0)
    {
      assert [] + X.From(c, env, 0).0 == X.From(c, env, 0).0;
    }
  }

  // ---------------------------------------------------------------- the invariant

  /** Inside the breaker, if any, while in the body, outside before, between and after the attempts. */
  predicate TaskOk(x: Exec, p: B.Phase) {
    if !x.guarded then p.Outside?
    else match x.pc
         case Trying => true
         case Running => p.Inside?
         case Refusing => p.Inside?
         case _ => p.Outside?
  }

  function By(e: nat): Call -> bool { (c: Call) => c.e == e }

  /** Retries under `key` at a time in `[a, b)`. */
  function RetryDuring(key: string, a: real, b: real): Call -> bool {
    (c: Call) => c.attempt > 0 && c.key == key && a <= c.at < b
  }

  predicate IsGuarded(c: Call) { c.guarded }

  /** With the breaker: in `func`, and ended by the budget. */
  predicate IsRunning(x: Exec) { x.guarded && x.pc.Running? }

  predicate EndedByBudget(x: Exec) { x.guarded && x.pc.Over? && x.pc.end.BudgetExceeded? }

  ghost predicate ExecsOk(c: Config, s: Sys) {
    && |s.b.tasks| == |s.execs|
    && forall e | 0 <= e < |s.execs| :: ExecOk(For(c, s.execs[e]), s.execs[e]) && TaskOk(s.execs[e], s.b.tasks[e])
  }

  /** Calls as the executions' own logs have them. */
  ghost predicate CallsLogged(s: Sys) {
    forall e: nat | e < |s.execs| ::
      Count(s.calls, By(e)) == Count(s.execs[e].log, X.IsCall) + if s.execs[e].pc.Running? then 1 else 0
  }

  /** Every retry call was granted at the moment it was made, and every grant led to a call. */
  ghost predicate CallsGranted(s: Sys) {
    forall key, a, b :: Count(s.calls, RetryDuring(key, a, b)) == Count(s.g.grants, G.During(key, a, b))
  }

  ghost predicate Inv(c: Config, s: Sys) {
    && G.Inv(c.budget, s.g)
    && ExecsOk(c, s) && CallsLogged(s) && CallsGranted(s)
  }

  /** Exits from the breaker, with the calls still running in it, are the calls and refusals in it. */
  predicate RequestsOk(s: Sys) {
    s.b.b.requests + Count(s.execs, IsRunning) == Count(s.calls, IsGuarded) + Count(s.execs, EndedByBudget)
  }

  lemma BeginInv(c: Config, breaker: C.Config, requests: seq<Request>, t0: real)
    ensures Inv(c, Begin(breaker, requests, t0)) && RequestsOk(Begin(breaker, requests, t0))
    ensures breaker.halfOpenMaxCalls >= 1 ==> B.Inv(Begin(breaker, requests, t0).b)
  {
    var s := Begin(breaker, requests, t0);
    if breaker.halfOpenMaxCalls >= 1 {
      B.StartInv(breaker, |requests|, t0);
    }
    G.BeginInv(c.budget, t0);
    CountZero(s.execs, IsRunning);
    CountZero(s.execs, EndedByBudget);
    hide G.Inv, B.Inv;
  }

  // the executions

  lemma TasksStep(s: B.Sys, a: B.Action)
    requires B.Enabled(s, a)
    ensures var t := B.Step(s, a);
            |t.tasks| == |s.tasks|
            && (forall i | 0 <= i < |s.tasks| && (a.Measuring? || a.Resetting? || i != a.t) :: t.tasks[i] == s.tasks[i])
            && (a.Exiting? ==> t.tasks[a.t].Outside?)
            && (!a.Resetting? ==> t.b.requests == s.b.requests + if a.Exiting? then 1 else 0)
            && (!a.Resetting? ==> t.b.successes == s.b.successes + if a.Exiting? && !a.failed then 1 else 0)
  {
  }

  /** Only execution `e` and its task are touched, and both fit together again. */
  lemma OneExecChanges(c: Config, s: Sys, t: Sys, e: nat)
    requires ExecsOk(c, s) && |t.b.tasks| == |t.execs| == |s.execs| && e < |s.execs|
    requires forall i | 0 <= i < |s.execs| && i != e :: t.execs[i] == s.execs[i] && t.b.tasks[i] == s.b.tasks[i]
    requires ExecOk(For(c, t.execs[e]), t.execs[e]) && TaskOk(t.execs[e], t.b.tasks[e])
    ensures ExecsOk(c, t)
  {
  }

  lemma PcExecs(c: Config, s: Sys, t: Sys, e: nat, pc: Pc)
    requires ExecsOk(c, s) && e < |s.execs| && t.b == s.b && t.execs == s.execs[e := s.execs[e].(pc := pc)]
    requires ExecOk(For(c, s.execs[e]), s.execs[e].(pc := pc)) && TaskOk(s.execs[e].(pc := pc), s.b.tasks[e])
    ensures ExecsOk(c, t)
  {
    hide ExecOk, TaskOk;
    OneExecChanges(c, s, t, e);
  }

  lemma StartExecs(c: Config, s: Sys, e: nat)
    requires ExecsOk(c, s) && Enabled(s, Starting(e))
    ensures ExecsOk(c, Step(c, s, Starting(e)))
  {
    var x, t := s.execs[e], Step(c, s, Starting(e));
    assert ExecOk(For(c, x), x) && TaskOk(x, s.b.tasks[e]);
    StartFollows(For(c, x), x);
    hide Follows, ExecsOk, B.Step, G.Step;
    PcExecs(c, s, t, e, t.execs[e].pc);
  }

  /** `func` starts, the budget refuses, or a sleep ends. */
  lemma MoveExecs(c: Config, s: Sys, a: Action)
    requires ExecsOk(c, s) && Enabled(s, a) && (a.Calling? || a.Asking? || a.Waking?)
    ensures ExecsOk(c, Step(c, s, a))
  {
    var x, t := s.execs[a.e], Step(c, s, a);
    assert ExecOk(For(c, x), x) && TaskOk(x, s.b.tasks[a.e]);
    hide Follows, ExecsOk, B.Step, G.Step;
    PcExecs(c, s, t, a.e, t.execs[a.e].pc);
  }

  lemma EntryExecs(c: Config, s: Sys, a: Action)
    requires ExecsOk(c, s) && a.AtBreaker? && Enabled(s, a)
    ensures ExecsOk(c, Step(c, s, a))
  {
    var x, t, e := s.execs[a.e], Step(c, s, a), X.Attempt(false, a.transient, false, X.Value, a.draw);
    assert ExecOk(For(c, x), x) && TaskOk(x, s.b.tasks[a.e]);
    TasksStep(s.b, a.a);
    DecideFollows(For(c, x), x, e);
    DecideStops(For(c, x), x, e);
    hide Follows, EndsAs, ExecsOk, Decide, B.Step, B.Enabled, G.Step, G.Enabled;
    OneExecChanges(c, s, t, a.e);
  }

  lemma ExitExecs(c: Config, s: Sys, a: Action)
    requires ExecsOk(c, s) && a.Leaving? && Enabled(s, a)
    ensures ExecsOk(c, Step(c, s, a))
  {
    var x, t := s.execs[a.e], Step(c, s, a);
    var e := X.Attempt(true, false, x.pc.Running?, a.outcome, a.draw);
    assert ExecOk(For(c, x), x);
    if x.guarded {
      TasksStep(s.b, B.Exiting(a.e, Fails(x, a.outcome), a.t1, a.t2, a.t3));
    }
    DecideFollows(For(c, x), x, e);
    DecideStops(For(c, x), x, e);
    hide Follows, EndsAs, ExecsOk, Decide, B.Step, B.Enabled, G.Step, G.Enabled;
    OneExecChanges(c, s, t, a.e);
  }

  lemma DecideStops(c: X.Config, x: Exec, e: X.Attempt)
    ensures Decide(c, x, e).guarded == x.guarded
    ensures Decide(c, x, e).pc.Over? || Decide(c, x, e).pc.Sleeping?
  {
  }

  lemma SharedExecs(c: Config, s: Sys, a: Action)
    requires ExecsOk(c, s) && (a.Shared? || a.ResettingBudget?) && Enabled(s, a)
    ensures ExecsOk(c, Step(c, s, a))
  {
    hide ExecOk, TaskOk, B.Step, B.Enabled, G.Step, G.Enabled;
    if a.Shared? {
      TasksStep(s.b, a.a);
    }
  }

  lemma StepExecs(c: Config, s: Sys, a: Action)
    requires ExecsOk(c, s) && Enabled(s, a)
    ensures ExecsOk(c, Step(c, s, a))
  {
    hide ExecsOk, Enabled, Step;
    match a
    case Starting(e) => StartExecs(c, s, e);
    case AtBreaker(_, _, _, _) => EntryExecs(c, s, a);
    case Leaving(_, _, _, _, _, _) => ExitExecs(c, s, a);
    case Shared(_) => SharedExecs(c, s, a);
    case ResettingBudget(_, _) => SharedExecs(c, s, a);
    case _ => MoveExecs(c, s, a);
  }

  // the calls

  lemma BodyCalls(c: X.Config, e: X.Attempt, n: nat)
    requires c.hasBreaker || e.admits
    ensures Count(X.Body(c, e, n), X.IsCall) == if e.admits && (n == 0 || e.budgetGrants) then 1 else 0
  {
    hide X.TallyOf;
    X.TallySingle(X.Rejected(n));
    if e.admits && n > 0 && !e.budgetGrants {
      X.TallySingle(X.Refused(n));
      X.LeavingTally(c, n, true);
      X.TallyAppend([X.Refused(n)], X.Leaving(c, n, true));
    } else if e.admits {
      X.CallTally(c, n, e.outcome != X.Value);
    }
    TallyCalls(X.Body(c, e, n));
  }

  lemma TallyCalls(log: seq<X.Event>)
    ensures X.TallyOf(log).calls == Count(log, X.IsCall)
  {
  }

  lemma DecideCalls(c: X.Config, x: Exec, e: X.Attempt)
    requires c.hasBreaker || e.admits
    ensures Count(Decide(c, x, e).log, X.IsCall) ==
            Count(x.log, X.IsCall) + if e.admits && (|x.seen| == 0 || e.budgetGrants) then 1 else 0
  {
    var n := |x.seen|;
    BodyCalls(c, e, n);
    hide Count, X.Body, X.Verdict;
    CountAppend(x.log, X.Body(c, e, n), X.IsCall);
    CountSnoc(x.log + X.Body(c, e, n), X.Slept(D.Delay(c.delays, n, e.draw)), X.IsCall);
    assert x.log + (X.Body(c, e, n) + [X.Slept(D.Delay(c.delays, n, e.draw))]) ==
           x.log + X.Body(c, e, n) + [X.Slept(D.Delay(c.delays, n, e.draw))];
  }

  /** A call as the step makes it, if it makes one. */
  function NewCalls(c: Config, s: Sys, a: Action): seq<Call>
    requires Enabled(s, a)
  {
    match a
    case Calling(e, now) => [Call(e, 0, now, s.execs[e].key, s.execs[e].guarded)]
    case Asking(e, now) =>
      var x := s.execs[e];
      if StepAsk(c, s, e, now).execs[e].pc.Running? then [Call(e, |x.seen|, now, x.key, x.guarded)] else []
    case _ => []
  }

  lemma CallsStep(c: Config, s: Sys, a: Action)
    requires Enabled(s, a)
    ensures Step(c, s, a).calls == s.calls + NewCalls(c, s, a)
  {
    assert s.calls + [] == s.calls;
  }

  /** The part of a step that concerns execution `e`. */
  lemma LogStep(c: Config, s: Sys, a: Action, e: nat)
    requires ExecsOk(c, s) && Enabled(s, a) && e < |s.execs|
    ensures var x, y := s.execs[e], Step(c, s, a).execs[e];
            Count(y.log, X.IsCall) + (if y.pc.Running? then 1 else 0) ==
            Count(x.log, X.IsCall) + (if x.pc.Running? then 1 else 0) + Count(NewCalls(c, s, a), By(e))
  {
    var x := s.execs[e];
    assert ExecOk(For(c, x), x);
    if a.AtBreaker? && a.e == e {
      DecideCalls(For(c, x), x, X.Attempt(false, a.transient, false, X.Value, a.draw));
    } else if a.Leaving? && a.e == e {
      DecideCalls(For(c, x), x, X.Attempt(true, false, x.pc.Running?, a.outcome, a.draw));
    }
    hide Follows, EndsAs, B.Step, B.Enabled, G.Step, G.Enabled, X.Body, X.Verdict;
  }

  lemma GrantsStep(c: Config, s: Sys, a: Action, key: string, lo: real, hi: real)
    requires Enabled(s, a)
    ensures Count(Step(c, s, a).g.grants, G.During(key, lo, hi)) ==
            Count(s.g.grants, G.During(key, lo, hi)) + Count(NewCalls(c, s, a), RetryDuring(key, lo, hi))
  {
    if a.Asking? {
      var x := s.execs[a.e];
      var g := G.Step(c.budget, s.g, G.Checking(x.key, a.now));
      if |g.grants| > |s.g.grants| {
        CountSnoc(s.g.grants, g.grants[|s.g.grants|], G.During(key, lo, hi));
        CountOne(Call(a.e, |x.seen|, a.now, x.key, x.guarded), RetryDuring(key, lo, hi));
      }
    } else if a.Calling? {
      CountOne(Call(a.e, 0, a.now, s.execs[a.e].key, s.execs[a.e].guarded), RetryDuring(key, lo, hi));
    }
    hide B.Step, B.Enabled;
  }

  lemma StepCalls(c: Config, s: Sys, a: Action)
    requires ExecsOk(c, s) && CallsLogged(s) && CallsGranted(s) && Enabled(s, a)
    ensures CallsLogged(Step(c, s, a)) && CallsGranted(Step(c, s, a))
  {
    var t := Step(c, s, a);
    CallsStep(c, s, a);
    StepExecs(c, s, a);
    SameExecs(c, s, a);
    hide ExecsOk, Enabled, Step, NewCalls, Count;
    forall e: nat | e < |t.execs|
      ensures Count(t.calls, By(e)) == Count(t.execs[e].log, X.IsCall) + if t.execs[e].pc.Running? then 1 else 0
    {
      LogStep(c, s, a, e);
      CountAppend(s.calls, NewCalls(c, s, a), By(e));
    }
    forall key, lo, hi
      ensures Count(t.calls, RetryDuring(key, lo, hi)) == Count(t.g.grants, G.During(key, lo, hi))
    {
      GrantsStep(c, s, a, key, lo, hi);
      CountAppend(s.calls, NewCalls(c, s, a), RetryDuring(key, lo, hi));
      assert Count(s.calls, RetryDuring(key, lo, hi)) == Count(s.g.grants, G.During(key, lo, hi));
    }
  }

  lemma SameExecs(c: Config, s: Sys, a: Action)
    requires Enabled(s, a)
    ensures |Step(c, s, a).execs| == |s.execs|
  {
    hide B.Step, B.Enabled, G.Step, G.Enabled, Decide;
  }

  lemma StepParts(c: Config, s: Sys, a: Action)
    requires G.Inv(c.budget, s.g) && Enabled(s, a)
    ensures G.Inv(c.budget, Step(c, s, a).g)
    ensures B.Inv(s.b) ==> B.Inv(Step(c, s, a).b)
  {
    hide B.Inv, B.Step, B.Enabled, G.Inv, G.Step, G.Enabled, Decide;
    match a
    case AtBreaker(_, b, _, _) => if B.Inv(s.b) { B.StepKeepsInv(s.b, b); }
    case Shared(b) => if B.Inv(s.b) { B.StepKeepsInv(s.b, b); }
    case Leaving(e, outcome, _, t1, t2, t3) =>
      if B.Inv(s.b) && s.execs[e].guarded {
        B.StepKeepsInv(s.b, B.Exiting(e, Fails(s.execs[e], outcome), t1, t2, t3));
      }
    case Asking(e, now) => G.StepKeepsInv(c.budget, s.g, G.Checking(s.execs[e].key, now));
    case ResettingBudget(key, now) => G.StepKeepsInv(c.budget, s.g, G.Resetting(key, now));
    case _ =>
  }

  lemma StepKeepsInv(c: Config, s: Sys, a: Action)
    requires Inv(c, s) && Enabled(s, a)
    ensures Inv(c, Step(c, s, a)) && (B.Inv(s.b) ==> B.Inv(Step(c, s, a).b))
  {
    hide Enabled, Step, B.Inv, G.Inv, ExecsOk, CallsLogged, CallsGranted;
    StepParts(c, s, a);
    StepExecs(c, s, a);
    StepCalls(c, s, a);
  }

  lemma {:induction false} RunKeepsInv(c: Config, states: seq<Sys>, actions: seq<Action>, j: nat)
    requires IsRun(c, states, actions) && Inv(c, states[0]) && j < |states|
    ensures Inv(c, states[j]) && (B.Inv(states[0].b) ==> B.Inv(states[j].b))
  {
    hide Inv, B.Inv, Step, Enabled;
    if j > 0 {
      RunKeepsInv(c, states, actions, j - 1);
      StepKeepsInv(c, states[j - 1], actions[j - 1]);
      assert states[j] == Step(c, states[j - 1], actions[j - 1]);
    }
  }

  // ---------------------------------------------------------------- what the executions guarantee together

  /** However many executions there are and however they interleave, in any half-open interval of `k`
      windows' length `func` is called on retries of one key at most `k + 1` budgets often, plus one
      for every time the key was reset. */
  lemma RetriesBounded(c: Config, breaker: C.Config, requests: seq<Request>, t0: real,
                       states: seq<Sys>, actions: seq<Action>, j: nat, key: string, a: real, k: nat)
    requires c.budget.window > 0.0 && j < |states|
    requires IsRun(c, states, actions) && states[0] == Begin(breaker, requests, t0)
    ensures Count(states[j].calls, RetryDuring(key, a, a + G.Span(k, c.budget.window))) <=
            c.budget.budget * (k + 1 + Count(states[j].g.resets, G.OfKey(key)))
  {
    hide G.Inv, B.Inv, IsRun, G.Span, Count;
    BeginInv(c, breaker, requests, t0);
    RunKeepsInv(c, states, actions, j);
    G.GrantsBounded(c.budget, states[j].g, key, a, k);
  }

  /** The environment in which the next attempt succeeds. */
  function Succeeding(c: X.Config, seen: seq<X.Attempt>): seq<X.Attempt>
    requires |seen| <= c.maxAttempts
  {
    seen + seq(c.maxAttempts - |seen|, _ => X.Attempt(true, false, true, X.Value, 0.0))
  }

  lemma CallsLeft(c: X.Config, x: Exec)
    requires Follows(c, x)
    ensures Count(x.log, X.IsCall) + 1 <= c.maxAttempts
  {
    var env, n := Succeeding(c, x.seen), |x.seen|;
    assert Extends(c, env, x.seen);
    BodyCalls(c, env[n], n);
    CountAppend(x.log, X.From(c, env, n).0, X.IsCall);
    X.ExecutionAddsUp(c, env);
    TallyCalls(X.From(c, env, 0).0);
    assert X.From(c, env, n).0 == X.Body(c, env[n], n);
    hide X.TallyOf, X.Body, X.From;
  }

  /** In every state of every run an execution has called `func` at most `maxAttempts` times; once over it
      has done exactly what the policy specifies for every environment that starts with the attempts it
      saw, so that its calls, charges, refusals and breaker exits add up. */
  lemma ExecutionsFollowThePolicy(c: Config, s: Sys, e: nat)
    requires Inv(c, s) && e < |s.execs|
    ensures Count(s.calls, By(e)) <= c.policy.maxAttempts
    ensures var x := s.execs[e];
            x.pc.Over? && !x.pc.end.OpenAtStart? ==>
              (forall env | Extends(For(c, x), env, x.seen) :: (x.log, x.pc.end) == X.From(For(c, x), env, 0))
              && var t := X.TallyOf(x.log);
                 Count(s.calls, By(e)) == t.calls && t.charges == t.retryCalls
                 && t.exits == if x.guarded then t.calls + t.refusals else 0
  {
    var x := s.execs[e];
    assert ExecOk(For(c, x), x);
    hide X.From, B.Inv, G.Inv, X.TallyOf;
    TallyCalls(x.log);
    if x.pc.New? || (x.pc.Over? && x.pc.end.OpenAtStart?) {
      assert x.log == [];
    } else if x.pc.Over? {
      var env := Succeeding(For(c, x), x.seen);
      assert Extends(For(c, x), env, x.seen);
      X.ExecutionAddsUp(For(c, x), env);
    } else {
      CallsLeft(For(c, x), x);
    }
  }

  // ---------------------------------------------------------------- the breaker's request count

  lemma DecideEnds(c: X.Config, x: Exec, e: X.Attempt)
    requires c.hasBreaker == x.guarded
    ensures !IsRunning(Decide(c, x, e))
    ensures EndedByBudget(Decide(c, x, e)) <==> x.guarded && e.admits && |x.seen| > 0 && !e.budgetGrants
  {
  }

  lemma LeaveRequests(c: Config, s: Sys, a: Action)
    requires ExecsOk(c, s) && RequestsOk(s) && Enabled(s, a) && a.Leaving?
    ensures RequestsOk(Step(c, s, a))
  {
    var x, t := s.execs[a.e], Step(c, s, a);
    assert ExecOk(For(c, x), x);
    if x.guarded {
      TasksStep(s.b, B.Exiting(a.e, Fails(x, a.outcome), a.t1, a.t2, a.t3));
    }
    DecideEnds(For(c, x), x, X.Attempt(true, false, x.pc.Running?, a.outcome, a.draw));
    CountUpdate(s.execs, a.e, t.execs[a.e], IsRunning);
    CountUpdate(s.execs, a.e, t.execs[a.e], EndedByBudget);
    hide Follows, EndsAs, Count, Decide, B.Step, B.Enabled;
  }

  lemma EntryRequests(c: Config, s: Sys, a: Action)
    requires RequestsOk(s) && Enabled(s, a) && a.AtBreaker?
    ensures RequestsOk(Step(c, s, a))
  {
    var x, t := s.execs[a.e], Step(c, s, a);
    TasksStep(s.b, a.a);
    DecideEnds(For(c, x), x, X.Attempt(false, a.transient, false, X.Value, a.draw));
    CountUpdate(s.execs, a.e, t.execs[a.e], IsRunning);
    CountUpdate(s.execs, a.e, t.execs[a.e], EndedByBudget);
    hide Count, Decide, B.Step, B.Enabled;
  }

  lemma StepRequests(c: Config, s: Sys, a: Action)
    requires ExecsOk(c, s) && RequestsOk(s) && Enabled(s, a)
    requires a.Shared? ==> !a.a.Resetting?
    ensures RequestsOk(Step(c, s, a))
  {
    hide ExecsOk, Decide, Count, B.Step, B.Enabled, G.Step, G.Enabled;
    CallsStep(c, s, a);
    CountAppend(s.calls, NewCalls(c, s, a), IsGuarded);
    CountZero<Call>([], IsGuarded);
    if NewCalls(c, s, a) != [] {
      CountOne(NewCalls(c, s, a)[0], IsGuarded);
    }
    match a
    case Leaving(_, _, _, _, _, _) => LeaveRequests(c, s, a);
    case AtBreaker(_, _, _, _) => EntryRequests(c, s, a);
    case Shared(b) => TasksStep(s.b, b);
    case ResettingBudget(_, _) =>
    case _ =>
      var y := Step(c, s, a).execs[a.e];
      CountUpdate(s.execs, a.e, y, IsRunning);
      CountUpdate(s.execs, a.e, y, EndedByBudget);
  }

  /** Over every run without a reset of the breaker, its request count and the calls still running in it
      are all calls of `func` and all refusals by the budget, over all executions that were given it. */
  lemma {:induction false} RequestsAreCallsAndRefusals(c: Config, breaker: C.Config, requests: seq<Request>, t0: real,
                                                       states: seq<Sys>, actions: seq<Action>, j: nat)
    requires j < |states| && IsRun(c, states, actions) && states[0] == Begin(breaker, requests, t0)
    requires forall k | 0 <= k < j && actions[k].Shared? :: !actions[k].a.Resetting?
    ensures Inv(c, states[j])
    ensures states[j].b.b.requests + Count(states[j].execs, IsRunning) ==
            Count(states[j].calls, IsGuarded) + Count(states[j].execs, EndedByBudget)
  {
    hide B.Inv, G.Inv, Step, Enabled, Count, ExecsOk, CallsLogged, CallsGranted, Begin;
    BeginInv(c, breaker, requests, t0);
    RunKeepsInv(c, states, actions, j);
    if j > 0 {
      RequestsAreCallsAndRefusals(c, breaker, requests, t0, states, actions, j - 1);
      StepRequests(c, states[j - 1], actions[j - 1]);
      assert states[j] == Step(c, states[j - 1], actions[j - 1]);
    }
  }

  // ---------------------------------------------------------------- how executions begin and end

  /** An execution is turned away at its start exactly if it has the breaker and finds it open, and in no
      other step. */
  lemma TurnedAwayExactly(c: Config, s: Sys, a: Action, e: nat)
    requires Enabled(s, a) && e < |s.execs| && s.execs[e].pc != Over(X.OpenAtStart)
    ensures e < |Step(c, s, a).execs|
    ensures Step(c, s, a).execs[e].pc == Over(X.OpenAtStart) <==>
              a == Starting(e) && s.execs[e].guarded && s.b.b.mode.Open?
  {
    SameExecs(c, s, a);
    if (a.AtBreaker? || a.Leaving?) && a.e == e {
      var x := s.execs[e];
      VerdictIsNoOpenAtStart(For(c, x), X.Attempt(false, true, false, X.Value, 0.0), |x.seen|);
    }
    hide B.Step, B.Enabled, G.Step, G.Enabled, X.Body;
  }

  predicate HasSucceeded(x: Exec) { x.guarded && x.pc.Over? && x.pc.end.Success? }

  lemma DecideSucceeds(c: X.Config, x: Exec, e: X.Attempt)
    requires c.hasBreaker == x.guarded
    ensures HasSucceeded(Decide(c, x, e)) <==>
              x.guarded && e.admits && (|x.seen| == 0 || e.budgetGrants) && e.outcome == X.Value
  {
  }

  lemma SuccessStep(c: Config, s: Sys, a: Action)
    requires ExecsOk(c, s) && Enabled(s, a) && (a.Shared? ==> !a.a.Resetting?)
    requires s.b.b.successes == Count(s.execs, HasSucceeded)
    ensures Step(c, s, a).b.b.successes == Count(Step(c, s, a).execs, HasSucceeded)
  {
    var t := Step(c, s, a);
    if a.Shared? {
      TasksStep(s.b, a.a);
    } else if !a.ResettingBudget? {
      var x := s.execs[a.e];
      CountUpdate(s.execs, a.e, t.execs[a.e], HasSucceeded);
      assert ExecOk(For(c, x), x);
      if a.AtBreaker? {
        TasksStep(s.b, a.a);
        DecideSucceeds(For(c, x), x, X.Attempt(false, a.transient, false, X.Value, a.draw));
      } else if a.Leaving? {
        if x.guarded {
          TasksStep(s.b, B.Exiting(a.e, Fails(x, a.outcome), a.t1, a.t2, a.t3));
        }
        DecideSucceeds(For(c, x), x, X.Attempt(true, false, x.pc.Running?, a.outcome, a.draw));
      }
    }
    hide Count, Decide, B.Step, B.Enabled, G.Step, G.Enabled, Follows, EndsAs;
  }

  /** Over every run without a reset, the successes the breaker has seen are the executions that returned a
      value through it. */
  lemma {:induction false} SuccessesAreReturns(c: Config, breaker: C.Config, requests: seq<Request>, t0: real,
                                               states: seq<Sys>, actions: seq<Action>, j: nat)
    requires j < |states| && IsRun(c, states, actions) && states[0] == Begin(breaker, requests, t0)
    requires forall k | 0 <= k < j && actions[k].Shared? :: !actions[k].a.Resetting?
    ensures states[j].b.b.successes == Count(states[j].execs, HasSucceeded)
  {
    hide B.Inv, G.Inv, Step, Enabled, Count, ExecsOk, CallsLogged, CallsGranted;
    if j == 0 {
      CountZero(states[0].execs, HasSucceeded);
    } else {
      SuccessesAreReturns(c, breaker, requests, t0, states, actions, j - 1);
      BeginInv(c, breaker, requests, t0);
      RunKeepsInv(c, states, actions, j - 1);
      SuccessStep(c, states[j - 1], actions[j - 1]);
      assert states[j] == Step(c, states[j - 1], actions[j - 1]);
    }
  }
}
