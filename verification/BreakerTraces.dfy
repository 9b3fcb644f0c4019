/** Which sequences of states one circuit breaker can go through. */
module BreakerTraces {
  import opened Common
  import opened CircuitBreaking
  import opened BreakerSystem

  // ---------------------------------------------------------------- transitions

  /** The edges of the state machine, reset aside. */
  predicate Edge(from: Mode, to: Mode) {
    match from
    case Closed => to != HalfOpen
    case Open => to != Closed
    case HalfOpen => true
  }

  /** A step follows an edge; the timestamp of the last change moves only with a change of state or
      when a late failure arms an open circuit again. */
  lemma StepFollowsEdge(s: Sys, a: Action)
    requires Enabled(s, a) && !a.Resetting?
    ensures var c := Step(s, a).b;
            Edge(s.b.mode, c.mode)
            && (c.since != s.b.since && c.mode == s.b.mode ==> c.mode.Open? && a.Exiting? && a.failed)
            && (s.b.mode.HalfOpen? && c.mode.Open? <==> s.b.mode.HalfOpen? && a.Exiting? && a.failed)
  {
  }

  // ---------------------------------------------------------------- the open dwell

  lemma OpenStep(s: Sys, a: Action)
    requires Inv(s) && Enabled(s, a) && s.b.mode.Open? && !a.Resetting?
    requires Step(s, a).clock < s.b.since + s.b.cfg.openDuration
    ensures var s' := Step(s, a);
            s'.b.mode.Open? && s'.b.since >= s.b.since && |s'.b.permits| == |s.b.permits|
            && (a.Entering? ==> s'.b.rejected == s.b.rejected + 1 && s'.tasks == s.tasks)
            && (s'.l.admitted > s.l.admitted ==> a.Resuming?)
  {
    if a.Entering? {
      assert s.tasks[a.t := Outside] == s.tasks;
    }
  }

  /** Once open, the circuit stays open for the whole configured duration, counted from when it was
      last armed. */
  lemma {:induction false} StaysOpen(states: seq<Sys>, actions: seq<Action>, i: nat, j: nat)
    requires IsRun(states, actions) && Inv(states[0]) && i <= j < |states|
    requires states[i].b.mode.Open?
    requires forall k | i <= k < j :: !actions[k].Resetting?
    requires states[j].clock < states[i].b.since + states[0].b.cfg.openDuration
    ensures states[j].b.mode.Open? && states[j].b.since >= states[i].b.since
    ensures |states[j].b.permits| == |states[i].b.permits|
  {
    hide Step, Inv, Enabled;
    if i < j {
      RunKeepsInv(states, actions, j - 1);
      assert states[j] == Step(states[j - 1], actions[j - 1]);
      StepKeepsConfig(states[j - 1], actions[j - 1]);
      StaysOpen(states, actions, i, j - 1);
      OpenStep(states[j - 1], actions[j - 1]);
    }
  }

  /** Contrapositive, as callers see it: a circuit that is seen open and later not open had at least
      `openDuration` pass since it was armed. */
  lemma LeavesOpenOnlyAfterDwell(states: seq<Sys>, actions: seq<Action>, i: nat, j: nat)
    requires IsRun(states, actions) && Inv(states[0]) && i <= j < |states|
    requires states[i].b.mode.Open? && !states[j].b.mode.Open?
    requires forall k | i <= k < j :: !actions[k].Resetting?
    ensures states[j].clock - states[i].b.since >= states[0].b.cfg.openDuration
  {
    if states[j].clock < states[i].b.since + states[0].b.cfg.openDuration {
      StaysOpen(states, actions, i, j);
    }
  }

  /** Task `t` waits for, or was just granted, a permit of generation `g`. */
  predicate PendingOn(s: Sys, t: nat, g: nat) {
    t < |s.tasks| && (s.tasks[t] == Waiting(g) || s.tasks[t] == Granted(g))
  }

  lemma OpenPending(s: Sys, a: Action, t: nat, g: nat)
    requires Inv(s) && Enabled(s, a) && s.b.mode.Open? && !a.Resetting?
    requires Step(s, a).clock < s.b.since + s.b.cfg.openDuration
    ensures PendingOn(Step(s, a), t, g) ==> PendingOn(s, t, g)
  {
    OpenStep(s, a);
  }

  /** Whoever waits during the dwell has been waiting, on the same semaphore, since the dwell began. */
  lemma {:induction false} PendingSince(states: seq<Sys>, actions: seq<Action>, i: nat, k: nat, t: nat, g: nat)
    requires IsRun(states, actions) && Inv(states[0]) && i <= k < |states| && states[i].b.mode.Open?
    requires forall n | i <= n < k :: !actions[n].Resetting?
    requires states[k].clock < states[i].b.since + states[0].b.cfg.openDuration
    requires PendingOn(states[k], t, g)
    ensures PendingOn(states[i], t, g)
  {
    hide Step, Inv, Enabled, PendingOn;
    if i < k {
      RunKeepsInv(states, actions, k - 1);
      assert states[k] == Step(states[k - 1], actions[k - 1]);
      StepKeepsConfig(states[k - 1], actions[k - 1]);
      var s, a := states[k - 1], actions[k - 1];
      assert s.clock <= states[k].clock;
      StaysOpen(states, actions, i, k - 1);
      assert states[k].clock < s.b.since + s.b.cfg.openDuration;
      OpenPending(s, a, t, g);
      PendingSince(states, actions, i, k - 1, t, g);
    }
  }

  /** During the dwell every caller is turned away, and whoever gets in was granted a permit of an
      earlier generation on whose semaphore it had been waiting since before the dwell. */
  lemma DwellRefuses(states: seq<Sys>, actions: seq<Action>, i: nat, k: nat)
    requires IsRun(states, actions) && Inv(states[0]) && i <= k < |actions|
    requires states[i].b.mode.Open?
    requires forall n | i <= n <= k :: !actions[n].Resetting?
    requires states[k + 1].clock < states[i].b.since + states[0].b.cfg.openDuration
    ensures actions[k].Entering? ==>
              states[k + 1].b.rejected == states[k].b.rejected + 1 && states[k + 1].tasks == states[k].tasks
    ensures states[k + 1].l.admitted > states[k].l.admitted ==>
              actions[k].Resuming?
              && var t := actions[k].t;
                 states[k].tasks[t].Granted? && states[k].tasks[t].g < |states[i].b.permits|
                 && PendingOn(states[i], t, states[k].tasks[t].g)
  {
    RunKeepsInv(states, actions, k);
    assert states[k + 1] == Step(states[k], actions[k]);
    StepKeepsConfig(states[k], actions[k]);
    StaysOpen(states, actions, i, k);
    OpenStep(states[k], actions[k]);
    if actions[k].Resuming? {
      assert PhaseOk(states[k].tasks[actions[k].t], |states[k].b.permits|);
      PendingSince(states, actions, i, k, actions[k].t, states[k].tasks[actions[k].t].g);
    }
  }

  // ---------------------------------------------------------------- recovery

  predicate Succeeds(a: Action) { a.Exiting? && !a.failed }

  predicate Fails(a: Action) { a.Exiting? && a.failed }

  /** States `i + 1 .. j` form a half-open spell that a caller opened at step `i`. */
  ghost predicate Spell(states: seq<Sys>, actions: seq<Action>, i: nat, j: nat) {
    && i < j < |states| && |states| == |actions| + 1
    && states[i].b.mode.Open? && actions[i].Entering?
    && forall k | i < k <= j :: states[k].b.mode.HalfOpen?
  }

  lemma SpellStep(s: Sys, a: Action)
    requires Enabled(s, a) && Step(s, a).b.mode.HalfOpen?
    ensures if s.b.mode.HalfOpen?
            then !Fails(a) && Step(s, a).b.probeSuccesses == s.b.probeSuccesses + if Succeeds(a) then 1 else 0
            else s.b.mode.Open? && a.Entering? && Step(s, a).b.probeSuccesses == 0
  {
  }

  lemma CountsExtend(actions: seq<Action>, i: nat, j: nat)
    requires i < j <= |actions|
    ensures Count(actions[i..j], Succeeds) ==
            Count(actions[i..j - 1], Succeeds) + if Succeeds(actions[j - 1]) then 1 else 0
    ensures Count(actions[i..j], Fails) == Count(actions[i..j - 1], Fails) + if Fails(actions[j - 1]) then 1 else 0
  {
    assert actions[i..j] == actions[i..j - 1] + [actions[j - 1]];
    CountSnoc(actions[i..j - 1], actions[j - 1], Succeeds);
    CountSnoc(actions[i..j - 1], actions[j - 1], Fails);
  }

  /** In a half-open state the success counter is the number of successful exits of the spell, and no
      exit of the spell failed. */
  lemma {:induction false} SpellCounts(states: seq<Sys>, actions: seq<Action>, j: nat) returns (i: nat)
    requires IsRun(states, actions) && Inv(states[0]) && !states[0].b.mode.HalfOpen?
    requires j < |states| && states[j].b.mode.HalfOpen?
    ensures Spell(states, actions, i, j)
    ensures states[j].b.probeSuccesses == Count(actions[i + 1..j], Succeeds)
    ensures Count(actions[i + 1..j], Fails) == 0
  {
    hide Inv, Enabled, Step;
    var a := actions[j - 1];
    assert states[j] == Step(states[j - 1], a);
    SpellStep(states[j - 1], a);
    if states[j - 1].b.mode.HalfOpen? {
      i := SpellCounts(states, actions, j - 1);
      CountsExtend(actions, i + 1, j);
    } else {
      i := j - 1;
      assert actions[i + 1..j] == [];
    }
  }

  lemma HalfOpenStep(s: Sys, a: Action)
    requires Inv(s) && Enabled(s, a) && s.b.mode.HalfOpen? && !a.Resetting?
    ensures 0 <= s.b.probeSuccesses < s.b.cfg.halfOpenMaxCalls
    ensures Step(s, a).b.mode.Closed? <==> Succeeds(a) && s.b.probeSuccesses + 1 == s.b.cfg.halfOpenMaxCalls
    ensures Step(s, a).b.mode.Open? <==> Fails(a)
  {
  }

  /** The circuit closes from half-open exactly on the exit that completes `halfOpenMaxCalls`
      successful exits of the spell, and opens exactly when an exit of the spell failed. */
  lemma ClosesExactlyOnLastSuccess(states: seq<Sys>, actions: seq<Action>, j: nat) returns (i: nat)
    requires IsRun(states, actions) && Inv(states[0]) && !states[0].b.mode.HalfOpen?
    requires j < |actions| && states[j].b.mode.HalfOpen? && !actions[j].Resetting?
    ensures Spell(states, actions, i, j)
    ensures states[j + 1].b.mode.Closed? <==>
              Succeeds(actions[j]) && Count(actions[i + 1..j + 1], Succeeds) == states[0].b.cfg.halfOpenMaxCalls
    ensures states[j + 1].b.mode.Open? <==> Count(actions[i + 1..j + 1], Fails) > 0
    ensures 0 <= states[j].b.probeSuccesses < states[0].b.cfg.halfOpenMaxCalls
  {
    hide Inv, Enabled, Step;
    i := SpellCounts(states, actions, j);
    RunKeepsInv(states, actions, j);
    HalfOpenStep(states[j], actions[j]);
    assert states[j + 1] == Step(states[j], actions[j]);
    CountsExtend(actions, i + 1, j + 1);
  }

  // ---------------------------------------------------------------- the thresholds, over runs

  predicate RecordsFailure(s: Sys, a: Action) {
    Fails(a) || (a.Measuring? && s.b.mode.Closed?
                 && a.latencyMs > s.b.cfg.baselineLatencyMs * s.b.cfg.latencyMultiplier)
  }

  /** The outcomes recorded in one step. */
  function NewEvents(s: Sys, a: Action): seq<Event> {
    if RecordsFailure(s, a) then [Event(a.t1, true)] else if Succeeds(a) then [Event(a.t1, false)] else []
  }

  /** Every outcome recorded since the last reset. */
  function Recorded(states: seq<Sys>, actions: seq<Action>, j: nat): seq<Event>
    requires j <= |actions| <= |states|
  {
    if j == 0 || actions[j - 1].Resetting? then []
    else Recorded(states, actions, j - 1) + NewEvents(states[j - 1], actions[j - 1])
  }

  lemma HistoryStep(s: Sys, a: Action)
    requires Enabled(s, a)
    ensures Step(s, a).b.history == if a.Resetting? then [] else s.b.history + NewEvents(s, a)
  {
    assert s.b.history + [] == s.b.history;
  }

  lemma {:induction false} HistoryIsRecorded(states: seq<Sys>, actions: seq<Action>, j: nat)
    requires IsRun(states, actions) && states[0].b.history == [] && j < |states|
    ensures states[j].b.history == Recorded(states, actions, j)
  {
    if j > 0 {
      hide Step, Enabled, NewEvents;
      HistoryIsRecorded(states, actions, j - 1);
      HistoryStep(states[j - 1], actions[j - 1]);
      assert states[j] == Step(states[j - 1], actions[j - 1]);
    }
  }

  lemma ClosedStep(s: Sys, a: Action)
    requires Enabled(s, a) && s.b.mode.Closed?
    ensures !Step(s, a).b.mode.HalfOpen?
    ensures Step(s, a).b.mode.Open? <==>
              RecordsFailure(s, a) && Trips(s.b.cfg, InWindow(Step(s, a).b.history, a.t2 - s.b.cfg.windowDuration))
  {
    hide InWindow, Trips;
    if a.Exiting? {
      assert PhaseOk(s.tasks[a.t], |s.b.permits|);
      OpensExactlyWhenThresholdMet(s.b, s.tasks[a.t].permit, 0.0, a.t1, a.t2, a.t3);
    } else if a.Measuring? {
      OpensExactlyWhenThresholdMet(s.b, None, a.latencyMs, a.t1, a.t2, a.t3);
    }
  }

  /** Over every run, a closed circuit opens in a step if and only if the step records a failure and the
      outcomes recorded since the last reset, cut to the window, meet a threshold; else it stays closed. */
  lemma OpensExactlyOnThreshold(cfg: Config, n: nat, t0: real, states: seq<Sys>, actions: seq<Action>, j: nat)
    requires IsRun(states, actions) && states[0] == Start(cfg, n, t0) && j < |actions|
    requires states[j].b.mode.Closed?
    ensures states[j + 1].b.mode.Open? <==>
              RecordsFailure(states[j], actions[j])
              && Trips(cfg, InWindow(Recorded(states, actions, j + 1), actions[j].t2 - cfg.windowDuration))
    ensures states[j + 1].b.mode.Closed? <==> !states[j + 1].b.mode.Open?
  {
    hide Step, Enabled, InWindow, Trips, RecordsFailure;
    ConfigStays(states, actions, j);
    HistoryIsRecorded(states, actions, j + 1);
    ClosedStep(states[j], actions[j]);
    assert states[j + 1] == Step(states[j], actions[j]);
  }

  lemma {:induction false} ConfigStays(states: seq<Sys>, actions: seq<Action>, j: nat)
    requires IsRun(states, actions) && j < |states|
    ensures states[j].b.cfg == states[0].b.cfg
  {
    if j > 0 {
      hide Step, Enabled;
      ConfigStays(states, actions, j - 1);
      StepKeepsConfig(states[j - 1], actions[j - 1]);
      assert states[j] == Step(states[j - 1], actions[j - 1]);
    }
  }

  // ---------------------------------------------------------------- accounting

  predicate IsEntry(a: Action) { a.Entering? }

  lemma CountStep(s: Sys, a: Action)
    requires Enabled(s, a) && !a.Resetting?
    ensures var t := Step(s, a);
            t.l.attempts == s.l.attempts + (if IsEntry(a) then 1 else 0)
            && t.l.failedExits == s.l.failedExits + (if Fails(a) then 1 else 0)
            && t.b.successes == s.b.successes + (if Succeeds(a) then 1 else 0)
  {
  }

  lemma {:induction false} LedgerCounts(states: seq<Sys>, actions: seq<Action>, j: nat)
    requires IsRun(states, actions) && j < |states| && forall k | 0 <= k < j :: !actions[k].Resetting?
    requires states[0].l.attempts == states[0].l.failedExits == states[0].b.successes == 0
    ensures states[j].l.attempts == Count(actions[..j], IsEntry)
    ensures states[j].l.failedExits == Count(actions[..j], Fails)
    ensures states[j].b.successes == Count(actions[..j], Succeeds)
  {
    if j > 0 {
      hide Step, Enabled;
      LedgerCounts(states, actions, j - 1);
      CountStep(states[j - 1], actions[j - 1]);
      assert states[j] == Step(states[j - 1], actions[j - 1]);
      assert actions[..j] == actions[..j - 1] + [actions[j - 1]];
      CountSnoc(actions[..j - 1], actions[j - 1], IsEntry);
      CountSnoc(actions[..j - 1], actions[j - 1], Fails);
      CountSnoc(actions[..j - 1], actions[j - 1], Succeeds);
    }
  }

  /** What the counters mean in every state of a run of a fresh breaker, absent reset: every attempt to
      enter is inside, waiting, over or rejected, and the exits are counted by their outcome. */
  lemma CountersAddUp(cfg: Config, n: nat, t0: real, states: seq<Sys>, actions: seq<Action>, j: nat)
    requires IsRun(states, actions) && states[0] == Start(cfg, n, t0) && cfg.halfOpenMaxCalls >= 1 && j < |states|
    requires forall k | 0 <= k < j :: !actions[k].Resetting?
    ensures var s, done := states[j], actions[..j];
            Count(done, IsEntry) == Count(s.tasks, IsInside) + Count(s.tasks, IsPending) + s.b.requests + s.b.rejected
            && s.b.requests == Count(done, Succeeds) + Count(done, Fails)
            && s.b.successes == Count(done, Succeeds)
            && (s.b.mode.HalfOpen? ==> s.b.current.Some?)
  {
    StartInv(cfg, n, t0);
    RunKeepsInv(states, actions, j);
    LedgerCounts(states, actions, j);
  }

  predicate Closes(s: Sys, t: Sys) { s.b.mode.HalfOpen? && t.b.mode.Closed? }

  /** How many steps of `i .. j - 1` record a failure. */
  function FailuresBetween(states: seq<Sys>, actions: seq<Action>, i: nat, j: nat): nat
    requires i <= j <= |actions| <= |states|
  {
    if i == j then 0
    else FailuresBetween(states, actions, i, j - 1) + if RecordsFailure(states[j - 1], actions[j - 1]) then 1 else 0
  }

  lemma FailureStep(s: Sys, a: Action)
    requires Enabled(s, a)
    ensures Step(s, a).b.failures ==
            if a.Resetting? || Closes(s, Step(s, a)) then 0
            else s.b.failures + if RecordsFailure(s, a) then 1 else 0
  {
  }

  /** The failure count is the number of failures recorded since the run began, the circuit last closed
      from half-open, or the breaker was last reset, whichever came last. */
  lemma {:induction false} FailureCounts(cfg: Config, n: nat, t0: real, states: seq<Sys>, actions: seq<Action>, j: nat)
    returns (i: nat)
    requires IsRun(states, actions) && states[0] == Start(cfg, n, t0) && j < |states|
    ensures i <= j && states[j].b.failures == FailuresBetween(states, actions, i, j)
    ensures i > 0 ==> actions[i - 1].Resetting? || Closes(states[i - 1], states[i])
    ensures forall k | i <= k < j :: !actions[k].Resetting? && !Closes(states[k], states[k + 1])
  {
    hide Step, Enabled, RecordsFailure, Closes;
    i := j;
    if j > 0 {
      FailureStep(states[j - 1], actions[j - 1]);
      assert states[j] == Step(states[j - 1], actions[j - 1]);
      if !actions[j - 1].Resetting? && !Closes(states[j - 1], states[j]) {
        i := FailureCounts(cfg, n, t0, states, actions, j - 1);
      }
    }
  }
}
