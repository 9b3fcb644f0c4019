/** Any number of tasks sharing one circuit breaker, under every interleaving of their atomic steps. */
module BreakerSystem {
  import opened Common
  import opened CircuitBreaking

  /** Where a task is with respect to the breaker. A waiter that was granted a permit has not yet
      resumed; a task inside remembers the semaphore it will release. */
  datatype Phase = Outside | Waiting(g: nat) | Granted(g: nat) | Inside(permit: Option<nat>)

  /** Bookkeeping since the last reset that the breaker itself does not do. `drift[g]` counts the
      resumed waiters that remembered generation `g` without holding a permit of it, minus those that
      held one and remembered something else. */
  datatype Ledger = Ledger(attempts: nat, admitted: nat, failedExits: nat, drift: seq<int>)

  datatype Sys = Sys(b: Breaker, tasks: seq<Phase>, clock: real, l: Ledger)

  datatype Action =
    | Entering(t: nat, t1: real, t2: real, queued: bool)
    | Granting(t: nat)
    | Resuming(t: nat)
    | TimingOut(t: nat)
    | Exiting(t: nat, failed: bool, t1: real, t2: real, t3: real)
    | Measuring(latencyMs: real, t1: real, t2: real, t3: real)
    | Resetting(t1: real)

  // ---------------------------------------------------------------- the transition system

  predicate IsPending(p: Phase) { p.Waiting? || p.Granted? }

  predicate IsInside(p: Phase) { p.Inside? }

  predicate PhaseOk(p: Phase, generations: nat) {
    match p
    case Outside => true
    case Waiting(g) => g < generations
    case Granted(g) => g < generations
    case Inside(permit) => permit.Some? ==> permit.value < generations
  }

  predicate WellFormed(s: Sys) {
    && ValidCurrent(s.b)
    && |s.l.drift| == |s.b.permits|
    && forall i | 0 <= i < |s.tasks| :: PhaseOk(s.tasks[i], |s.b.permits|)
  }

  predicate Enabled(s: Sys, a: Action) {
    WellFormed(s) &&
    match a
    case Entering(t, t1, t2, _) => t < |s.tasks| && s.tasks[t].Outside? && s.clock <= t1 <= t2
    case Granting(t) => t < |s.tasks| && s.tasks[t].Waiting? && s.b.permits[s.tasks[t].g] > 0
    case Resuming(t) => t < |s.tasks| && s.tasks[t].Granted?
    case TimingOut(t) => t < |s.tasks| && IsPending(s.tasks[t])
    case Exiting(t, _, t1, t2, t3) => t < |s.tasks| && s.tasks[t].Inside? && s.clock <= t1 <= t2 <= t3
    case Measuring(_, t1, t2, t3) => s.clock <= t1 <= t2 <= t3
    case Resetting(t1) => s.clock <= t1
  }

  function EntryPhase(e: Entry): Phase {
    match e
    case Admitted(permit) => Inside(permit)
    case Refused => Outside
    case Waits(g) => Waiting(g)
  }

  /** A resumed waiter of generation `g` leaves its permit unreturnable and may claim another one. */
  function Relabel(drift: seq<int>, g: nat, permit: Option<nat>): seq<int>
    requires g < |drift| && (permit.Some? ==> permit.value < |drift|)
  {
    var lost := drift[g := drift[g] - 1];
    if permit.None? then lost else lost[permit.value := lost[permit.value] + 1]
  }

  function StepEnter(s: Sys, a: Action): Sys
    requires a.Entering? && Enabled(s, a)
  {
    var (b, e) := Enter(s.b, a.t1, a.t2, a.queued);
    Sys(b, s.tasks[a.t := EntryPhase(e)], a.t2,
        s.l.(attempts := s.l.attempts + 1,
             admitted := s.l.admitted + if e.Admitted? then 1 else 0,
             drift := if |b.permits| > |s.l.drift| then s.l.drift + [0] else s.l.drift))
  }

  function StepWaiter(s: Sys, a: Action): Sys
    requires (a.Granting? || a.Resuming? || a.TimingOut?) && Enabled(s, a)
  {
    var g := s.tasks[a.t].g;
    match a
    case Granting(t) => s.(b := Take(s.b, g), tasks := s.tasks[t := Granted(g)])
    case Resuming(t) =>
      s.(tasks := s.tasks[t := Inside(s.b.current)],
         l := s.l.(admitted := s.l.admitted + 1, drift := Relabel(s.l.drift, g, s.b.current)))
    case TimingOut(t) =>
      s.(b := Refuse(Give(s.b, if s.tasks[t].Granted? then Some(g) else None)), tasks := s.tasks[t := Outside])
  }

  function StepExit(s: Sys, a: Action): Sys
    requires a.Exiting? && Enabled(s, a)
  {
    var b := Exit(s.b, s.tasks[a.t].permit, a.failed, a.t1, a.t2, a.t3);
    Sys(b, s.tasks[a.t := Outside], a.t3,
        s.l.(failedExits := s.l.failedExits + if a.failed then 1 else 0))
  }

  function StepOther(s: Sys, a: Action): Sys
    requires (a.Measuring? || a.Resetting?) && Enabled(s, a)
  {
    match a
    case Measuring(ms, t1, t2, t3) => s.(b := RecordLatency(s.b, ms, t1, t2, t3), clock := t3)
    case Resetting(t1) =>
      s.(b := Reset(s.b, t1), clock := t1,
         l := s.l.(attempts := Count(s.tasks, IsPending) + Count(s.tasks, IsInside),
                   admitted := Count(s.tasks, IsInside), failedExits := 0))
  }

  function Step(s: Sys, a: Action): Sys
    requires Enabled(s, a)
  {
    match a
    case Entering(_, _, _, _) => StepEnter(s, a)
    case Granting(_) => StepWaiter(s, a)
    case Resuming(_) => StepWaiter(s, a)
    case TimingOut(_) => StepWaiter(s, a)
    case Exiting(_, _, _, _, _) => StepExit(s, a)
    case Measuring(_, _, _, _) => StepOther(s, a)
    case Resetting(_) => StepOther(s, a)
  }

  function Start(cfg: Config, tasks: nat, t0: real): Sys {
    Sys(Fresh(cfg, t0), seq(tasks, _ => Outside), t0, Ledger(0, 0, 0, []))
  }

  ghost predicate IsRun(states: seq<Sys>, actions: seq<Action>) {
    && |states| == |actions| + 1
    && forall i | 0 <= i < |actions| :: Enabled(states[i], actions[i]) && states[i + 1] == Step(states[i], actions[i])
  }

  // ---------------------------------------------------------------- the invariant

  function Holders(tasks: seq<Phase>, g: nat): nat {
    multiset(tasks)[Granted(g)] + multiset(tasks)[Inside(Some(g))]
  }

  /** attempts = admitted + rejected + waiting; admitted = inside + finished; finished = succeeded +
      failed. */
  predicate Accounted(s: Sys) {
    && s.l.attempts == s.l.admitted + s.b.rejected + Count(s.tasks, IsPending)
    && s.l.admitted == Count(s.tasks, IsInside) + s.b.requests
    && s.b.requests == s.b.successes + s.l.failedExits
  }

  /** Free permits and holders of generation `g`, up to the mislabelled resumptions. */
  predicate LedgerHolds(s: Sys, g: nat)
    requires g < |s.b.permits| && g < |s.l.drift|
  {
    s.b.permits[g] + Holders(s.tasks, g) == s.b.cfg.probeCount + s.l.drift[g]
  }

  predicate PermitLedger(s: Sys)
    requires WellFormed(s)
  {
    forall g | 0 <= g < |s.b.permits| :: LedgerHolds(s, g)
  }

  predicate Timed(s: Sys) {
    && s.b.since <= s.clock
    && Sorted(s.b.history)
    && forall i | 0 <= i < |s.b.history| :: s.b.history[i].at <= s.clock
  }

  predicate HalfOpenOk(b: Breaker) {
    b.mode.HalfOpen? ==> b.current.Some? && b.probeSuccesses < b.cfg.halfOpenMaxCalls
  }

  predicate Inv(s: Sys) {
    && WellFormed(s)
    && s.b.cfg.halfOpenMaxCalls >= 1
    && Accounted(s)
    && PermitLedger(s)
    && Timed(s)
    && HalfOpenOk(s.b)
  }

  lemma StartInv(cfg: Config, tasks: nat, t0: real)
    requires cfg.halfOpenMaxCalls >= 1
    ensures Inv(Start(cfg, tasks, t0))
  {
    var s := Start(cfg, tasks, t0);
    CountZero(s.tasks, IsPending);
    CountZero(s.tasks, IsInside);
  }

  lemma EnterKeepsInv(s: Sys, a: Action)
    requires Inv(s) && a.Entering? && Enabled(s, a)
    ensures Inv(StepEnter(s, a))
  {
    var (b, e) := Enter(s.b, a.t1, a.t2, a.queued);
    CountUpdate(s.tasks, a.t, EntryPhase(e), IsPending);
    CountUpdate(s.tasks, a.t, EntryPhase(e), IsInside);
    EnterKeepsPermits(s, a);
  }

  lemma EnterKeepsPermits(s: Sys, a: Action)
    requires Inv(s) && a.Entering? && Enabled(s, a)
    ensures WellFormed(StepEnter(s, a)) && PermitLedger(StepEnter(s, a))
  {
    var s' := StepEnter(s, a);
    forall g | 0 <= g < |s'.b.permits|
      ensures LedgerHolds(s', g)
    {
      if g < |s.b.permits| {
        assert LedgerHolds(s, g);
      } else {
        NoHolders(s, g);
      }
    }
  }

  lemma NoHolders(s: Sys, g: nat)
    requires WellFormed(s) && g >= |s.b.permits|
    ensures Holders(s.tasks, g) == 0
  {
    assert !PhaseOk(Granted(g), |s.b.permits|) && !PhaseOk(Inside(Some(g)), |s.b.permits|);
    assert Granted(g) !in s.tasks && Inside(Some(g)) !in s.tasks;
  }

  lemma WaiterKeepsInv(s: Sys, a: Action)
    requires Inv(s) && (a.Granting? || a.Resuming? || a.TimingOut?) && Enabled(s, a)
    ensures Inv(StepWaiter(s, a))
  {
    var s' := StepWaiter(s, a);
    CountUpdate(s.tasks, a.t, s'.tasks[a.t], IsPending);
    CountUpdate(s.tasks, a.t, s'.tasks[a.t], IsInside);
    forall g | 0 <= g < |s'.b.permits|
      ensures LedgerHolds(s', g)
    {
      assert LedgerHolds(s, g);
    }
  }

  lemma ExitKeepsAccounts(s: Sys, a: Action)
    requires Inv(s) && a.Exiting? && Enabled(s, a)
    ensures Accounted(StepExit(s, a)) && HalfOpenOk(StepExit(s, a).b)
  {
    CountUpdate(s.tasks, a.t, Outside, IsPending);
    CountUpdate(s.tasks, a.t, Outside, IsInside);
  }

  lemma ExitKeepsPermits(s: Sys, a: Action)
    requires Inv(s) && a.Exiting? && Enabled(s, a)
    ensures WellFormed(StepExit(s, a)) && PermitLedger(StepExit(s, a))
  {
    var s' := StepExit(s, a);
    forall g | 0 <= g < |s'.b.permits|
      ensures LedgerHolds(s', g)
    {
      assert LedgerHolds(s, g);
    }
  }

  lemma ExitKeepsTimes(s: Sys, a: Action)
    requires Inv(s) && a.Exiting? && Enabled(s, a)
    ensures Timed(StepExit(s, a))
  {
  }

  lemma ExitKeepsInv(s: Sys, a: Action)
    requires Inv(s) && a.Exiting? && Enabled(s, a)
    ensures Inv(StepExit(s, a))
  {
    ExitKeepsAccounts(s, a);
    ExitKeepsPermits(s, a);
    ExitKeepsTimes(s, a);
  }

  lemma OtherKeepsInv(s: Sys, a: Action)
    requires Inv(s) && (a.Measuring? || a.Resetting?) && Enabled(s, a)
    ensures Inv(StepOther(s, a))
  {
    var s' := StepOther(s, a);
    forall g | 0 <= g < |s'.b.permits|
      ensures LedgerHolds(s', g)
    {
      assert LedgerHolds(s, g);
    }
  }

  lemma StepKeepsInv(s: Sys, a: Action)
    requires Inv(s) && Enabled(s, a)
    ensures Inv(Step(s, a))
  {
    match a
    case Entering(_, _, _, _) => EnterKeepsInv(s, a);
    case Granting(_) => WaiterKeepsInv(s, a);
    case Resuming(_) => WaiterKeepsInv(s, a);
    case TimingOut(_) => WaiterKeepsInv(s, a);
    case Exiting(_, _, _, _, _) => ExitKeepsInv(s, a);
    case Measuring(_, _, _, _) => OtherKeepsInv(s, a);
    case Resetting(_) => OtherKeepsInv(s, a);
  }

  /** Every state of every run is accounted for, keeps the permit ledger, and is never half-open
      without a semaphore or with enough successes to close. */
  lemma {:induction false} RunKeepsInv(states: seq<Sys>, actions: seq<Action>, j: nat)
    requires IsRun(states, actions) && Inv(states[0]) && j < |states|
    ensures Inv(states[j]) && states[j].b.cfg == states[0].b.cfg
  {
    hide Inv, Step, Enabled;
    if j > 0 {
      RunKeepsInv(states, actions, j - 1);
      StepKeepsInv(states[j - 1], actions[j - 1]);
      assert states[j] == Step(states[j - 1], actions[j - 1]);
      StepKeepsConfig(states[j - 1], actions[j - 1]);
    }
  }

  lemma StepKeepsConfig(s: Sys, a: Action)
    requires Enabled(s, a)
    ensures Step(s, a).b.cfg == s.b.cfg && |Step(s, a).tasks| == |s.tasks|
    ensures s.clock <= Step(s, a).clock
  {
  }
}
