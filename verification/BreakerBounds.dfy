/** Exactly when the documented limits on half-open probes and calls hold. */
module BreakerBounds {
  import opened Common
  import opened CircuitBreaking
  import opened BreakerSystem
  import opened BreakerProperties
  import opened BreakerTraces

  // ---------------------------------------------------------------- runs and spells

  ghost predicate AllTimely(states: seq<Sys>, actions: seq<Action>)
    requires IsRun(states, actions)
  {
    forall k | 0 <= k < |actions| :: Timely(states[k], actions[k])
  }

  /** A run of `n` tasks over a fresh breaker, in which no waiter resumes late if `timely` is set. */
  ghost predicate RunOf(cfg: Config, n: nat, t0: real, timely: bool, states: seq<Sys>, actions: seq<Action>) {
    IsRun(states, actions) && states[0] == Start(cfg, n, t0) && (timely ==> AllTimely(states, actions))
  }

  ghost predicate Reachable(cfg: Config, n: nat, t0: real, timely: bool, s: Sys) {
    exists states: seq<Sys>, actions: seq<Action> ::
      RunOf(cfg, n, t0, timely, states, actions) && states[|actions|] == s
  }

  /** A step that lets a caller in. */
  predicate Admits(s: Sys, a: Action)
    requires Enabled(s, a)
  {
    (a.Entering? || a.Resuming?) && a.t < |Step(s, a).tasks| && Step(s, a).tasks[a.t].Inside?
  }

  /** How many callers the steps `i .. j - 1` let in. */
  function Admissions(states: seq<Sys>, actions: seq<Action>, i: nat, j: nat): nat
    requires i <= j <= |actions| <= |states|
    requires forall k | i <= k < j :: Enabled(states[k], actions[k])
  {
    if i == j then 0
    else Admissions(states, actions, i, j - 1) + if Admits(states[j - 1], actions[j - 1]) then 1 else 0
  }

  // ---------------------------------------------------------------- an upper bound

  /** Tasks inside with a permit of generation `g`. */
  function Probing(tasks: seq<Phase>, g: nat): nat { multiset(tasks)[Inside(Some(g))] }

  lemma SpellOpens(s: Sys, a: Action)
    requires Inv(s) && Enabled(s, a) && a.Entering? && s.b.mode.Open? && Step(s, a).b.mode.HalfOpen?
    ensures var g, t := |s.b.permits|, Step(s, a);
            t.b.current == Some(g) && Probing(t.tasks, g) == if Admits(s, a) then 1 else 0
  {
    NoHolders(s, |s.b.permits|);
  }

  lemma ProbingUpdate(tasks: seq<Phase>, t: nat, p: Phase, g: nat)
    requires t < |tasks|
    ensures Probing(tasks[t := p], g) + (if tasks[t] == Inside(Some(g)) then 1 else 0) ==
            Probing(tasks, g) + if p == Inside(Some(g)) then 1 else 0
  {
  }

  lemma SpellGoesOn(s: Sys, a: Action, g: nat)
    requires Inv(s) && Enabled(s, a) && s.b.mode.HalfOpen? && s.b.current == Some(g) && Step(s, a).b.mode.HalfOpen?
    ensures var t := Step(s, a);
            t.b.current == Some(g)
            && Probing(s.tasks, g) + (if Admits(s, a) then 1 else 0) <=
               Probing(t.tasks, g) + if Succeeds(a) then 1 else 0
  {
    if !a.Measuring? && !a.Resetting? {
      ProbingUpdate(s.tasks, a.t, Step(s, a).tasks[a.t], g);
    }
    hide Probing, Inv;
  }

  /** During a spell the admissions so far are still inside or have succeeded. */
  lemma {:induction false} AdmissionsAccounted(states: seq<Sys>, actions: seq<Action>, i: nat, j: nat)
    requires IsRun(states, actions) && Inv(states[0]) && Spell(states, actions, i, j)
    ensures var g := |states[i].b.permits|;
            states[j].b.current == Some(g)
            && Admissions(states, actions, i, j) <= Probing(states[j].tasks, g) + states[j].b.probeSuccesses
  {
    hide Inv, Enabled, Step, Probing, Admits;
    var s, a := states[j - 1], actions[j - 1];
    RunKeepsInv(states, actions, j - 1);
    assert states[j] == Step(s, a);
    SpellStep(s, a);
    if j == i + 1 {
      assert Admissions(states, actions, i, i) == 0;
      SpellOpens(s, a);
    } else {
      AdmissionsAccounted(states, actions, i, j - 1);
      SpellGoesOn(s, a, |states[i].b.permits|);
    }
  }

  lemma {:induction false} ProbingBelow(tasks: seq<Phase>, g: nat)
    ensures Probing(tasks, g) <= Holders(tasks, g) <= |tasks|
  {
    if tasks != [] {
      ProbingBelow(tasks[1..], g);
      assert tasks == [tasks[0]] + tasks[1..];
    }
  }

  /** A half-open spell lets in at most one call less than `halfOpenMaxCalls` and, on top of these, as
      many as there are tasks; with nobody late, as many as `probeCount`. */
  lemma SpellAdmitsAtMost(states: seq<Sys>, actions: seq<Action>, i: nat, j: nat)
    requires IsRun(states, actions) && Inv(states[0]) && Conserved(states[0]) && Spell(states, actions, i, j)
    ensures Admissions(states, actions, i, j) < states[0].b.cfg.halfOpenMaxCalls + |states[0].tasks|
    ensures (forall k | 0 <= k < j :: Timely(states[k], actions[k])) ==>
              Admissions(states, actions, i, j) < states[0].b.cfg.halfOpenMaxCalls + states[0].b.cfg.probeCount
  {
    var g := |states[i].b.permits|;
    AdmissionsAccounted(states, actions, i, j);
    RunKeepsInv(states, actions, j);
    ProbingBelow(states[j].tasks, g);
    TasksStay(states, actions, j);
    assert g < |states[j].b.permits|;
    if forall k | 0 <= k < j :: Timely(states[k], actions[k]) {
      ProbesBounded(states, actions, j, g);
    }
    hide Probing, Holders;
  }

  lemma {:induction false} TasksStay(states: seq<Sys>, actions: seq<Action>, j: nat)
    requires IsRun(states, actions) && j < |states|
    ensures |states[j].tasks| == |states[0].tasks|
  {
    hide Step, Enabled;
    if j > 0 {
      TasksStay(states, actions, j - 1);
      StepKeepsConfig(states[j - 1], actions[j - 1]);
      assert states[j] == Step(states[j - 1], actions[j - 1]);
    }
  }

  // ---------------------------------------------------------------- without permits

  predicate NoPermits(s: Sys) {
    && (forall g | 0 <= g < |s.b.permits| :: s.b.permits[g] == 0)
    && forall t | 0 <= t < |s.tasks| :: NoPermit(s.tasks[t])
  }

  predicate NoPermit(p: Phase) { !p.Granted? && (p.Inside? ==> p.permit.None?) }

  lemma NoPermitsStep(s: Sys, a: Action)
    requires NoPermits(s) && s.b.cfg.probeCount == 0 && Enabled(s, a)
    ensures NoPermits(Step(s, a))
  {
    if !a.Measuring? && !a.Resetting? {
      assert NoPermit(s.tasks[a.t]) && PhaseOk(s.tasks[a.t], |s.b.permits|);
      assert NoPermit(Step(s, a).tasks[a.t]);
    }
  }

  lemma {:induction false} NoPermitsRun(states: seq<Sys>, actions: seq<Action>, j: nat)
    requires IsRun(states, actions) && NoPermits(states[0]) && states[0].b.cfg.probeCount == 0 && j < |states|
    ensures NoPermits(states[j])
  {
    hide NoPermits, Step, Enabled;
    if j > 0 {
      NoPermitsRun(states, actions, j - 1);
      ConfigStays(states, actions, j - 1);
      NoPermitsStep(states[j - 1], actions[j - 1]);
      assert states[j] == Step(states[j - 1], actions[j - 1]);
    }
  }

  lemma NobodyHolds(s: Sys, g: nat)
    requires NoPermits(s)
    ensures Holders(s.tasks, g) == 0
  {
    assert !NoPermit(Granted(g)) && !NoPermit(Inside(Some(g)));
    assert Granted(g) !in s.tasks && Inside(Some(g)) !in s.tasks;
  }

  // ---------------------------------------------------------------- reaching states

  lemma ReachStart(cfg: Config, n: nat, t0: real)
    ensures Reachable(cfg, n, t0, true, Start(cfg, n, t0))
  {
    assert RunOf(cfg, n, t0, true, [Start(cfg, n, t0)], []);
  }

  lemma ReachStep(cfg: Config, n: nat, t0: real, timely: bool, s: Sys, a: Action)
    requires Reachable(cfg, n, t0, timely, s) && Enabled(s, a) && (timely ==> Timely(s, a))
    ensures Reachable(cfg, n, t0, timely, Step(s, a))
  {
    hide Step, Enabled, Timely, Start;
    var states: seq<Sys>, actions: seq<Action> :| RunOf(cfg, n, t0, timely, states, actions) && states[|actions|] == s;
    assert RunOf(cfg, n, t0, timely, states + [Step(s, a)], actions + [a]);
  }

  /** Being in a half-open spell that has let in `admitted` callers so far. */
  ghost predicate InSpell(cfg: Config, n: nat, t0: real, timely: bool, admitted: nat, s: Sys) {
    exists states: seq<Sys>, actions: seq<Action>, i: nat ::
      SpellRun(cfg, n, t0, timely, admitted, s, states, actions, i)
  }

  ghost predicate SpellRun(cfg: Config, n: nat, t0: real, timely: bool, admitted: nat, s: Sys,
                           states: seq<Sys>, actions: seq<Action>, i: nat)
  {
    && RunOf(cfg, n, t0, timely, states, actions) && states[|actions|] == s
    && Spell(states, actions, i, |actions|) && Admissions(states, actions, i, |actions|) == admitted
  }

  lemma SpellBegins(cfg: Config, n: nat, t0: real, timely: bool, s: Sys, a: Action)
    requires Reachable(cfg, n, t0, timely, s) && Enabled(s, a) && a.Entering?
    requires s.b.mode.Open? && Step(s, a).b.mode.HalfOpen?
    ensures InSpell(cfg, n, t0, timely, if Admits(s, a) then 1 else 0, Step(s, a))
  {
    hide Step, Enabled, Start, Admits;
    var states: seq<Sys>, actions: seq<Action> :| RunOf(cfg, n, t0, timely, states, actions) && states[|actions|] == s;
    var longer, more := states + [Step(s, a)], actions + [a];
    assert IsRun(longer, more);
    assert Admissions(longer, more, |actions|, |actions|) == 0;
    assert SpellRun(cfg, n, t0, timely, if Admits(s, a) then 1 else 0, Step(s, a), longer, more, |actions|);
  }

  lemma {:induction false} AdmissionsPrefix(states: seq<Sys>, actions: seq<Action>, t: Sys, a: Action, i: nat, j: nat)
    requires IsRun(states, actions) && IsRun(states + [t], actions + [a]) && i <= j <= |actions|
    ensures Admissions(states + [t], actions + [a], i, j) == Admissions(states, actions, i, j)
  {
    hide Step, Enabled, Admits;
    if i < j {
      AdmissionsPrefix(states, actions, t, a, i, j - 1);
    }
  }

  lemma SpellExtends(cfg: Config, n: nat, t0: real, timely: bool, admitted: nat, s: Sys, a: Action)
    requires InSpell(cfg, n, t0, timely, admitted, s) && Enabled(s, a) && Step(s, a).b.mode.HalfOpen?
    requires timely ==> Timely(s, a)
    ensures InSpell(cfg, n, t0, timely, admitted + if Admits(s, a) then 1 else 0, Step(s, a))
  {
    hide Step, Enabled, Timely, Start, Admits;
    var states: seq<Sys>, actions: seq<Action>, i: nat :| SpellRun(cfg, n, t0, timely, admitted, s, states, actions, i);
    var longer, more := states + [Step(s, a)], actions + [a];
    assert IsRun(longer, more);
    AdmissionsPrefix(states, actions, Step(s, a), a, i, |actions|);
    assert SpellRun(cfg, n, t0, timely, admitted + if Admits(s, a) then 1 else 0, Step(s, a), longer, more, i);
  }

  // ---------------------------------------------------------------- from the start to an open circuit

  /** Tasks `0 .. k - 1` are inside as probes of generation `g`, task `x` is at `w`, the others outside. */
  predicate Layout(tasks: seq<Phase>, k: nat, g: nat, x: nat, w: Phase) {
    forall i | 0 <= i < |tasks| :: tasks[i] == if i < k then Inside(Some(g)) else if i == x then w else Outside
  }

  predicate AllOutside(tasks: seq<Phase>) {
    forall i | 0 <= i < |tasks| :: tasks[i].Outside?
  }

  /** A breaker never yet half-open, with nobody at it. */
  predicate Unused(cfg: Config, n: nat, s: Sys) {
    && s.b.cfg == cfg && |s.tasks| == n && AllOutside(s.tasks)
    && s.b.permits == [] && s.b.current == None && s.l.drift == []
  }

  predicate AllFailedAt(h: seq<Event>, t: real) {
    forall i | 0 <= i < |h| :: h[i] == Event(t, true)
  }

  /** Failures of the same moment are all in the window. */
  lemma SimultaneousTrips(cfg: Config, h: seq<Event>, t: real)
    requires AllFailedAt(h, t) && cfg.windowDuration >= 0.0 && |h| >= 1 && |h| >= cfg.failureThreshold
    ensures ShouldOpen(cfg, h, t)
  {
    WindowIsSuffix(h, 0, t - cfg.windowDuration);
    CountBound(h, IsFailure);
  }

  lemma FailOnce(cfg: Config, n: nat, s: Sys)
    requires Unused(cfg, n, s) && n >= 1 && s.b.mode.Closed? && AllFailedAt(s.b.history, s.clock)
    ensures Enabled(s, Entering(0, s.clock, s.clock, false))
    ensures var m := Step(s, Entering(0, s.clock, s.clock, false));
            Enabled(m, Exiting(0, true, s.clock, s.clock, s.clock))
            && var t := Step(m, Exiting(0, true, s.clock, s.clock, s.clock));
               Unused(cfg, n, t) && t.clock == s.clock && AllFailedAt(t.b.history, t.clock)
               && |t.b.history| == |s.b.history| + 1
               && t.b.mode == if ShouldOpen(cfg, t.b.history, s.clock) then Open else Closed
  {
    hide ShouldOpen;
  }

  /** Either the circuit is open or it has recorded `k` failures, all at the start. */
  lemma {:induction false} ReachFailures(cfg: Config, n: nat, t0: real, k: nat) returns (s: Sys)
    requires n >= 1
    ensures Reachable(cfg, n, t0, true, s) && Unused(cfg, n, s) && s.clock == t0
    ensures s.b.mode.Open? || (s.b.mode.Closed? && AllFailedAt(s.b.history, t0) && |s.b.history| == k)
    ensures k >= 1 && k >= cfg.failureThreshold && cfg.windowDuration >= 0.0 ==> s.b.mode.Open?
  {
    hide Reachable;
    if k == 0 {
      s := Start(cfg, n, t0);
      ReachStart(cfg, n, t0);
    } else {
      s := ReachFailures(cfg, n, t0, k - 1);
      if s.b.mode.Closed? {
        FailOnce(cfg, n, s);
        var a, b := Entering(0, t0, t0, false), Exiting(0, true, t0, t0, t0);
        hide Step, Enabled, Unused;
        ReachStep(cfg, n, t0, true, s, a);
        ReachStep(cfg, n, t0, true, Step(s, a), b);
        s := Step(Step(s, a), b);
        if k >= cfg.failureThreshold && cfg.windowDuration >= 0.0 {
          SimultaneousTrips(cfg, s.b.history, t0);
        }
      }
    }
  }

  lemma ReachOpen(cfg: Config, n: nat, t0: real) returns (s: Sys)
    requires n >= 1 && cfg.windowDuration >= 0.0
    ensures Reachable(cfg, n, t0, true, s) && Unused(cfg, n, s) && s.b.mode.Open?
  {
    s := ReachFailures(cfg, n, t0, if cfg.failureThreshold >= 1 then cfg.failureThreshold else 1);
  }

  // ---------------------------------------------------------------- filling a generation

  /** The state of a spell of generation `g` with `k` probes inside and task `x` at `w`. */
  predicate Filling(cfg: Config, n: nat, s: Sys, k: nat, g: nat, x: nat, w: Phase) {
    && s.b.cfg == cfg && |s.tasks| == n && WellFormed(s)
    && s.b.mode.HalfOpen? && s.b.current == Some(g) && |s.b.permits| == g + 1
    && k <= cfg.probeCount && s.b.permits[g] == cfg.probeCount - k
    && s.b.probeSuccesses < cfg.halfOpenMaxCalls
    && Layout(s.tasks, k, g, x, w)
  }

  /** The moment at which an open circuit turns half-open. */
  function Due(s: Sys): real {
    var t := s.b.since + s.b.cfg.openDuration;
    if t < s.clock then s.clock else t
  }

  predicate Waiter(s: Sys, n: nat, x: nat, w: Phase) {
    && |s.tasks| == n && 0 < x && WellFormed(s) && s.b.mode.Open? && Layout(s.tasks, 0, 0, x, w)
  }

  lemma SpellStarts(cfg: Config, n: nat, s: Sys, x: nat, w: Phase)
    requires s.b.cfg == cfg && n >= 1 && cfg.probeCount >= 1 && cfg.halfOpenMaxCalls >= 1 && Waiter(s, n, x, w)
    ensures Enabled(s, Entering(0, Due(s), Due(s), false))
    ensures var t := Step(s, Entering(0, Due(s), Due(s), false));
            Filling(cfg, n, t, 1, |s.b.permits|, x, w) && t.b.probeSuccesses == 0
            && Admits(s, Entering(0, Due(s), Due(s), false))
  {
    assert s.tasks[0].Outside?;
    var t := Step(s, Entering(0, Due(s), Due(s), false));
    forall i | 0 <= i < |t.tasks|
      ensures PhaseOk(t.tasks[i], |t.b.permits|)
    {
      assert PhaseOk(s.tasks[i], |s.b.permits|);
    }
  }

  lemma ProbeEnters(cfg: Config, n: nat, s: Sys, k: nat, g: nat, x: nat, w: Phase)
    requires Filling(cfg, n, s, k, g, x, w) && k < cfg.probeCount && k < n && k < x
    ensures Enabled(s, Entering(k, s.clock, s.clock, false)) && Admits(s, Entering(k, s.clock, s.clock, false))
    ensures var t := Step(s, Entering(k, s.clock, s.clock, false));
            Filling(cfg, n, t, k + 1, g, x, w) && t.b.probeSuccesses == s.b.probeSuccesses
  {
    assert s.tasks[k].Outside?;
    var t := Step(s, Entering(k, s.clock, s.clock, false));
    forall i | 0 <= i < |t.tasks|
      ensures PhaseOk(t.tasks[i], |t.b.permits|)
    {
      assert PhaseOk(s.tasks[i], |s.b.permits|);
    }
  }

  lemma ProbeSucceeds(cfg: Config, n: nat, s: Sys, g: nat, x: nat, w: Phase)
    requires Filling(cfg, n, s, 1, g, x, w) && n >= 1 && 0 < x && s.b.probeSuccesses + 1 < cfg.halfOpenMaxCalls
    ensures Enabled(s, Exiting(0, false, s.clock, s.clock, s.clock))
    ensures var t := Step(s, Exiting(0, false, s.clock, s.clock, s.clock));
            Filling(cfg, n, t, 0, g, x, w) && t.b.probeSuccesses == s.b.probeSuccesses + 1
            && !Admits(s, Exiting(0, false, s.clock, s.clock, s.clock))
  {
    assert s.tasks[0] == Inside(Some(g));
    var t := Step(s, Exiting(0, false, s.clock, s.clock, s.clock));
    forall i | 0 <= i < |t.tasks|
      ensures PhaseOk(t.tasks[i], |t.b.permits|)
    {
      assert PhaseOk(s.tasks[i], |s.b.permits|);
    }
  }

  lemma SpellReachable(cfg: Config, n: nat, t0: real, timely: bool, admitted: nat, s: Sys)
    requires InSpell(cfg, n, t0, timely, admitted, s)
    ensures Reachable(cfg, n, t0, timely, s)
  {
  }

  lemma ReachableAnyhow(cfg: Config, n: nat, t0: real, s: Sys)
    requires Reachable(cfg, n, t0, true, s)
    ensures Reachable(cfg, n, t0, false, s)
  {
    var states: seq<Sys>, actions: seq<Action> :| RunOf(cfg, n, t0, true, states, actions) && states[|actions|] == s;
    assert RunOf(cfg, n, t0, false, states, actions);
  }

  lemma ReachSpell(cfg: Config, n: nat, t0: real, timely: bool, s: Sys, x: nat, w: Phase) returns (t: Sys)
    requires Reachable(cfg, n, t0, timely, s) && Waiter(s, n, x, w)
    requires s.b.cfg == cfg && n >= 1 && cfg.probeCount >= 1 && cfg.halfOpenMaxCalls >= 1
    ensures InSpell(cfg, n, t0, timely, 1, t) && Filling(cfg, n, t, 1, |s.b.permits|, x, w) && t.b.probeSuccesses == 0
  {
    hide Reachable, InSpell, Step, Enabled, Admits, Filling;
    var a := Entering(0, Due(s), Due(s), false);
    SpellStarts(cfg, n, s, x, w);
    t := Step(s, a);
    FillingIsHalfOpen(cfg, n, t, 1, |s.b.permits|, x, w);
    SpellBegins(cfg, n, t0, timely, s, a);
  }

  lemma FillingIsHalfOpen(cfg: Config, n: nat, s: Sys, k: nat, g: nat, x: nat, w: Phase)
    requires Filling(cfg, n, s, k, g, x, w)
    ensures s.b.mode.HalfOpen?
  {
  }

  /** Probes enter until there are `m`. */
  lemma {:induction false} FillUp(cfg: Config, n: nat, t0: real, timely: bool, admitted: nat, s: Sys,
                                  k: nat, m: nat, g: nat, x: nat, w: Phase) returns (t: Sys)
    requires InSpell(cfg, n, t0, timely, admitted, s) && Filling(cfg, n, s, k, g, x, w)
    requires k <= m <= cfg.probeCount && m <= n && m <= x
    ensures InSpell(cfg, n, t0, timely, admitted + (m - k), t) && Filling(cfg, n, t, m, g, x, w)
    ensures t.b.probeSuccesses == s.b.probeSuccesses
    decreases m - k
  {
    hide InSpell, Step, Enabled, Admits, Filling;
    if k == m {
      t := s;
    } else {
      var a := Entering(k, s.clock, s.clock, false);
      ProbeEnters(cfg, n, s, k, g, x, w);
      FillingIsHalfOpen(cfg, n, Step(s, a), k + 1, g, x, w);
      SpellExtends(cfg, n, t0, timely, admitted, s, a);
      t := FillUp(cfg, n, t0, timely, admitted + 1, Step(s, a), k + 1, m, g, x, w);
    }
  }

  /** One probe succeeds and enters again, until one more success would close the circuit. */
  lemma {:induction false} ProbeAgain(cfg: Config, n: nat, t0: real, timely: bool, s: Sys, c: nat, g: nat,
                                      x: nat, w: Phase)
    returns (t: Sys)
    requires InSpell(cfg, n, t0, timely, c + 1, s) && Filling(cfg, n, s, 1, g, x, w) && s.b.probeSuccesses == c
    requires n >= 1 && x >= 1 && c < cfg.halfOpenMaxCalls
    ensures InSpell(cfg, n, t0, timely, cfg.halfOpenMaxCalls, t) && Filling(cfg, n, t, 1, g, x, w)
    decreases cfg.halfOpenMaxCalls - c
  {
    hide InSpell, Step, Enabled, Admits;
    if c + 1 == cfg.halfOpenMaxCalls {
      t := s;
    } else {
      var a := Exiting(0, false, s.clock, s.clock, s.clock);
      ProbeSucceeds(cfg, n, s, g, x, w);
      hide Filling;
      var r := Step(s, a);
      FillingIsHalfOpen(cfg, n, r, 0, g, x, w);
      SpellExtends(cfg, n, t0, timely, c + 1, s, a);
      var u := FillUp(cfg, n, t0, timely, c + 1, r, 0, 1, g, x, w);
      t := ProbeAgain(cfg, n, t0, timely, u, c + 1, g, x, w);
    }
  }

  // ---------------------------------------------------------------- trapping a waiter

  /** The circuit reopened: probes `i .. x - 1` are still inside and task `x` waits for a permit. */
  predicate Clearing(cfg: Config, n: nat, s: Sys, i: nat, x: nat) {
    && s.b.cfg == cfg && |s.tasks| == n && i <= x < n && WellFormed(s)
    && s.b.mode.Open? && |s.b.permits| == 1 && s.b.permits[0] == i
    && forall t | 0 <= t < |s.tasks| ::
         s.tasks[t] == if i <= t < x then Inside(Some(0)) else if t == x then Waiting(0) else Outside
  }

  lemma WaiterJoins(cfg: Config, n: nat, s: Sys, x: nat)
    requires Filling(cfg, n, s, cfg.probeCount, 0, x, Outside) && x == cfg.probeCount < n
    ensures Enabled(s, Entering(x, s.clock, s.clock, false))
    ensures Filling(cfg, n, Step(s, Entering(x, s.clock, s.clock, false)), cfg.probeCount, 0, x, Waiting(0))
  {
    assert s.tasks[x].Outside?;
    var t := Step(s, Entering(x, s.clock, s.clock, false));
    forall i | 0 <= i < |t.tasks|
      ensures PhaseOk(t.tasks[i], |t.b.permits|)
    {
      assert PhaseOk(s.tasks[i], |s.b.permits|);
    }
  }

  lemma FirstProbeFails(cfg: Config, n: nat, s: Sys, x: nat)
    requires Filling(cfg, n, s, cfg.probeCount, 0, x, Waiting(0)) && 1 <= x == cfg.probeCount < n
    ensures Enabled(s, Exiting(0, true, s.clock, s.clock, s.clock))
    ensures Clearing(cfg, n, Step(s, Exiting(0, true, s.clock, s.clock, s.clock)), 1, x)
  {
    assert s.tasks[0] == Inside(Some(0));
    var t := Step(s, Exiting(0, true, s.clock, s.clock, s.clock));
    forall i | 0 <= i < |t.tasks|
      ensures PhaseOk(t.tasks[i], |t.b.permits|)
    {
      assert PhaseOk(s.tasks[i], |s.b.permits|);
    }
  }

  lemma ProbeLeaves(cfg: Config, n: nat, s: Sys, i: nat, x: nat)
    requires Clearing(cfg, n, s, i, x) && i < x
    ensures Enabled(s, Exiting(i, false, s.clock, s.clock, s.clock))
    ensures Clearing(cfg, n, Step(s, Exiting(i, false, s.clock, s.clock, s.clock)), i + 1, x)
  {
    assert s.tasks[i] == Inside(Some(0));
    var t := Step(s, Exiting(i, false, s.clock, s.clock, s.clock));
    forall k | 0 <= k < |t.tasks|
      ensures PhaseOk(t.tasks[k], |t.b.permits|)
    {
      assert PhaseOk(s.tasks[k], |s.b.permits|);
    }
  }

  lemma {:induction false} ReachCleared(cfg: Config, n: nat, t0: real, s: Sys, i: nat, x: nat) returns (t: Sys)
    requires Reachable(cfg, n, t0, true, s) && Clearing(cfg, n, s, i, x)
    ensures Reachable(cfg, n, t0, true, t) && Clearing(cfg, n, t, x, x)
    decreases x - i
  {
    hide Reachable, Step, Enabled;
    if i == x {
      t := s;
    } else {
      var a := Exiting(i, false, s.clock, s.clock, s.clock);
      ProbeLeaves(cfg, n, s, i, x);
      ReachStep(cfg, n, t0, true, s, a);
      t := ReachCleared(cfg, n, t0, Step(s, a), i + 1, x);
    }
  }

  lemma WaiterIsGranted(cfg: Config, n: nat, s: Sys, x: nat)
    requires Clearing(cfg, n, s, x, x) && x >= 1
    ensures Enabled(s, Granting(x))
    ensures var t := Step(s, Granting(x));
            Waiter(t, n, x, Granted(0)) && t.b.cfg == cfg && |t.b.permits| == 1
  {
    var t := Step(s, Granting(x));
    forall i | 0 <= i < |t.tasks|
      ensures PhaseOk(t.tasks[i], |t.b.permits|)
    {
      assert PhaseOk(s.tasks[i], |s.b.permits|);
    }
  }

  /** An open circuit with everybody outside but one waiter, which holds a permit of the first generation. */
  lemma ReachTrapped(cfg: Config, n: nat, t0: real) returns (s: Sys)
    requires cfg.windowDuration >= 0.0 && cfg.halfOpenMaxCalls >= 1 && 1 <= cfg.probeCount < n
    ensures Reachable(cfg, n, t0, true, s) && s.b.cfg == cfg && |s.b.permits| == 1
    ensures Waiter(s, n, cfg.probeCount, Granted(0))
  {
    hide Reachable, InSpell, Step, Enabled, Filling;
    var x := cfg.probeCount;
    var o := ReachOpen(cfg, n, t0);
    var f := ReachSpell(cfg, n, t0, true, o, x, Outside);
    f := FillUp(cfg, n, t0, true, 1, f, 1, x, 0, x, Outside);
    SpellReachable(cfg, n, t0, true, x, f);
    var a, b := Entering(x, f.clock, f.clock, false), Granting(x);
    WaiterJoins(cfg, n, f, x);
    ReachStep(cfg, n, t0, true, f, a);
    f := Step(f, a);
    var c := Exiting(0, true, f.clock, f.clock, f.clock);
    FirstProbeFails(cfg, n, f, x);
    ReachStep(cfg, n, t0, true, f, c);
    var t := ReachCleared(cfg, n, t0, Step(f, c), 1, x);
    WaiterIsGranted(cfg, n, t, x);
    ReachStep(cfg, n, t0, true, t, b);
    s := Step(t, b);
  }

  // ---------------------------------------------------------------- concurrent probes

  /** No generation has more probes than `probe_count`. */
  predicate ProbesWithin(s: Sys) {
    forall g | 0 <= g < |s.b.permits| :: Holders(s.tasks, g) <= s.b.cfg.probeCount
  }

  lemma {:induction false} HoldersAtLeast(tasks: seq<Phase>, m: nat, g: nat)
    requires m <= |tasks| && forall i | 0 <= i < m :: tasks[i] == Inside(Some(g))
    ensures Holders(tasks, g) >= m
  {
    if m > 0 {
      HoldersAtLeast(tasks[1..], m - 1, g);
      assert tasks == [tasks[0]] + tasks[1..];
    }
  }

  lemma LateProbe(cfg: Config, n: nat, s: Sys, k: nat, g: nat, x: nat)
    requires Filling(cfg, n, s, k, g, x, Granted(0)) && k <= x < n
    ensures Enabled(s, Resuming(x)) && Admits(s, Resuming(x))
    ensures var t := Step(s, Resuming(x));
            t.b == s.b && t.b.mode.HalfOpen? && t.tasks == s.tasks[x := Inside(Some(g))]
  {
    assert s.tasks[x] == Granted(0);
  }

  lemma ReachTooManyProbes(cfg: Config, n: nat, t0: real) returns (s: Sys)
    requires cfg.windowDuration >= 0.0 && cfg.halfOpenMaxCalls >= 1 && 1 <= cfg.probeCount < n
    ensures Reachable(cfg, n, t0, false, s) && !ProbesWithin(s)
  {
    hide Reachable, InSpell, Step, Enabled, Admits;
    var x := cfg.probeCount;
    var o := ReachTrapped(cfg, n, t0);
    ReachableAnyhow(cfg, n, t0, o);
    var f := ReachSpell(cfg, n, t0, false, o, x, Granted(0));
    f := FillUp(cfg, n, t0, false, 1, f, 1, x, 1, x, Granted(0));
    SpellReachable(cfg, n, t0, false, x, f);
    LateProbe(cfg, n, f, x, 1, x);
    ReachStep(cfg, n, t0, false, f, Resuming(x));
    s := Step(f, Resuming(x));
    HoldersAtLeast(s.tasks, x + 1, 1);
  }

  lemma ProbesWithinWhen(cfg: Config, n: nat, t0: real, s: Sys)
    requires Reachable(cfg, n, t0, false, s) && (n <= cfg.probeCount || cfg.probeCount == 0)
    ensures ProbesWithin(s)
  {
    var states: seq<Sys>, actions: seq<Action> :| RunOf(cfg, n, t0, false, states, actions) && states[|actions|] == s;
    TasksStay(states, actions, |actions|);
    ConfigStays(states, actions, |actions|);
    if cfg.probeCount == 0 {
      NoPermitsRun(states, actions, |actions|);
    }
    hide Step, Enabled, Holders, NoPermits;
    forall g | 0 <= g < |s.b.permits|
      ensures Holders(s.tasks, g) <= s.b.cfg.probeCount
    {
      if cfg.probeCount == 0 {
        NobodyHolds(s, g);
      } else {
        ProbingBelow(s.tasks, g);
      }
    }
  }

  /** "At most `probe_count` concurrent probes" holds in every run of `n` tasks if and only if there are
      no more tasks than that, or no probes at all. */
  lemma ProbeCountHoldsExactly(cfg: Config, n: nat, t0: real)
    requires cfg.halfOpenMaxCalls >= 1 && cfg.windowDuration >= 0.0
    ensures (forall s | Reachable(cfg, n, t0, false, s) :: ProbesWithin(s))
            <==> n <= cfg.probeCount || cfg.probeCount == 0
  {
    hide Reachable, ProbesWithin;
    if n <= cfg.probeCount || cfg.probeCount == 0 {
      forall s | Reachable(cfg, n, t0, false, s)
        ensures ProbesWithin(s)
      {
        ProbesWithinWhen(cfg, n, t0, s);
      }
    } else {
      var s := ReachTooManyProbes(cfg, n, t0);
    }
  }

  // ---------------------------------------------------------------- calls of a spell

  /** Some run of `n` tasks (with nobody late if `timely` is set) lets more than `half_open_max_calls`
      callers into one half-open spell. */
  ghost predicate CapExceeded(cfg: Config, n: nat, t0: real, timely: bool) {
    exists states: seq<Sys>, actions: seq<Action>, i: nat, j: nat ::
      ExceedsCap(cfg, n, t0, timely, states, actions, i, j)
  }

  ghost predicate ExceedsCap(cfg: Config, n: nat, t0: real, timely: bool,
                             states: seq<Sys>, actions: seq<Action>, i: nat, j: nat)
  {
    && RunOf(cfg, n, t0, timely, states, actions) && Spell(states, actions, i, j)
    && Admissions(states, actions, i, j) > cfg.halfOpenMaxCalls
  }

  lemma SpellExceeds(cfg: Config, n: nat, t0: real, timely: bool, admitted: nat, s: Sys)
    requires InSpell(cfg, n, t0, timely, admitted, s) && admitted > cfg.halfOpenMaxCalls
    ensures CapExceeded(cfg, n, t0, timely)
  {
    var states: seq<Sys>, actions: seq<Action>, i: nat :| SpellRun(cfg, n, t0, timely, admitted, s, states, actions, i);
    assert ExceedsCap(cfg, n, t0, timely, states, actions, i, |actions|);
  }

  /** Two probes at once: one of them may use up all but the last success, and then both are inside. */
  lemma TwoProbesExceed(cfg: Config, n: nat, t0: real)
    requires cfg.windowDuration >= 0.0 && cfg.halfOpenMaxCalls >= 1 && cfg.probeCount >= 2 && n >= 2
    ensures CapExceeded(cfg, n, t0, true)
  {
    hide Reachable, InSpell, Filling, CapExceeded;
    var o := ReachOpen(cfg, n, t0);
    assert Waiter(o, n, n, Outside);
    var f := ReachSpell(cfg, n, t0, true, o, n, Outside);
    f := ProbeAgain(cfg, n, t0, true, f, 0, 0, n, Outside);
    f := FillUp(cfg, n, t0, true, cfg.halfOpenMaxCalls, f, 1, 2, 0, n, Outside);
    SpellExceeds(cfg, n, t0, true, cfg.halfOpenMaxCalls + 1, f);
  }

  /** With one probe at a time it takes a late waiter to let in one call more. */
  lemma LateWaiterExceeds(cfg: Config, n: nat, t0: real)
    requires cfg.windowDuration >= 0.0 && cfg.halfOpenMaxCalls >= 1 && cfg.probeCount == 1 && n >= 2
    ensures CapExceeded(cfg, n, t0, false)
  {
    hide Reachable, InSpell, Filling, CapExceeded, Step, Enabled, Admits;
    var o := ReachTrapped(cfg, n, t0);
    ReachableAnyhow(cfg, n, t0, o);
    var f := ReachSpell(cfg, n, t0, false, o, 1, Granted(0));
    f := ProbeAgain(cfg, n, t0, false, f, 0, 1, 1, Granted(0));
    LateProbe(cfg, n, f, 1, 1, 1);
    SpellExtends(cfg, n, t0, false, cfg.halfOpenMaxCalls, f, Resuming(1));
    SpellExceeds(cfg, n, t0, false, cfg.halfOpenMaxCalls + 1, Step(f, Resuming(1)));
  }

  lemma CapHoldsWhen(cfg: Config, n: nat, t0: real, timely: bool,
                     states: seq<Sys>, actions: seq<Action>, i: nat, j: nat)
    requires cfg.halfOpenMaxCalls >= 1 && RunOf(cfg, n, t0, timely, states, actions) && Spell(states, actions, i, j)
    requires n <= 1 || cfg.probeCount == 0 || (timely && cfg.probeCount == 1)
    ensures Admissions(states, actions, i, j) <= cfg.halfOpenMaxCalls
  {
    StartInv(cfg, n, t0);
    SpellAdmitsAtMost(states, actions, i, j);
    if cfg.probeCount == 0 {
      AdmissionsAccounted(states, actions, i, j);
      RunKeepsInv(states, actions, j);
      NoPermitsRun(states, actions, j);
      ProbingBelow(states[j].tasks, |states[i].b.permits|);
      NobodyHolds(states[j], |states[i].b.permits|);
    }
  }

  /** "At most `half_open_max_calls` calls in half-open state" holds in every run of `n` tasks if and only
      if nothing is ever let in or there is one task; with nobody late, one probe at a time is enough. */
  lemma CallCapHoldsExactly(cfg: Config, n: nat, t0: real)
    requires cfg.halfOpenMaxCalls >= 1 && cfg.windowDuration >= 0.0
    ensures !CapExceeded(cfg, n, t0, true) <==> cfg.probeCount <= 1 || n <= 1
    ensures !CapExceeded(cfg, n, t0, false) <==> cfg.probeCount == 0 || n <= 1
  {
    if cfg.probeCount >= 2 && n >= 2 {
      TwoProbesExceed(cfg, n, t0);
      ExceededAnyhow(cfg, n, t0);
    } else {
      if cfg.probeCount == 1 && n >= 2 {
        LateWaiterExceeds(cfg, n, t0);
      } else {
        CapNotExceeded(cfg, n, t0, false);
      }
      CapNotExceeded(cfg, n, t0, true);
    }
  }

  lemma ExceededAnyhow(cfg: Config, n: nat, t0: real)
    requires CapExceeded(cfg, n, t0, true)
    ensures CapExceeded(cfg, n, t0, false)
  {
    var states: seq<Sys>, actions: seq<Action>, i: nat, j: nat :| ExceedsCap(cfg, n, t0, true, states, actions, i, j);
    assert ExceedsCap(cfg, n, t0, false, states, actions, i, j);
  }

  lemma CapNotExceeded(cfg: Config, n: nat, t0: real, timely: bool)
    requires cfg.halfOpenMaxCalls >= 1 && (n <= 1 || cfg.probeCount == 0 || (timely && cfg.probeCount == 1))
    ensures !CapExceeded(cfg, n, t0, timely)
  {
    if CapExceeded(cfg, n, t0, timely) {
      var states: seq<Sys>, actions: seq<Action>, i: nat, j: nat :|
        ExceedsCap(cfg, n, t0, timely, states, actions, i, j);
      CapHoldsWhen(cfg, n, t0, timely, states, actions, i, j);
    }
  }
}
