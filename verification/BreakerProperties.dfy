/** What every run of tasks over one circuit breaker guarantees. */
module BreakerProperties {
  import opened Common
  import opened CircuitBreaking
  import opened BreakerSystem

  // ---------------------------------------------------------------- probe permits

  /** Every half-open generation has all its permits, free or held. */
  predicate Conserved(s: Sys) {
    forall g | 0 <= g < |s.b.permits| :: s.b.permits[g] + Holders(s.tasks, g) == s.b.cfg.probeCount
  }

  /** A resumed waiter finds the breaker still referring to the semaphore it was granted. */
  predicate Timely(s: Sys, a: Action)
    requires Enabled(s, a)
  {
    a.Resuming? ==> s.b.current == Some(s.tasks[a.t].g)
  }

  predicate NoDrift(s: Sys) {
    forall g | 0 <= g < |s.l.drift| :: s.l.drift[g] == 0
  }

  lemma ConservedIsNoDrift(s: Sys)
    requires Inv(s)
    ensures Conserved(s) <==> NoDrift(s)
  {
    forall g | 0 <= g < |s.b.permits|
      ensures s.b.permits[g] + Holders(s.tasks, g) == s.b.cfg.probeCount <==> s.l.drift[g] == 0
    {
      assert LedgerHolds(s, g);
    }
  }

  lemma StepDrift(s: Sys, a: Action)
    requires Inv(s) && Enabled(s, a) && NoDrift(s)
    ensures NoDrift(Step(s, a)) <==> Timely(s, a)
  {
    if a.Resuming? {
      var g := s.tasks[a.t].g;
      assert s.l.drift[g] == 0;
      if s.b.current != Some(g) {
        assert Step(s, a).l.drift[g] == -1;
      }
    }
  }

  /** One step loses or invents a permit exactly when a waiter resumes after its generation ended. */
  lemma StepConserves(s: Sys, a: Action)
    requires Inv(s) && Enabled(s, a) && Conserved(s)
    ensures Inv(Step(s, a))
    ensures Conserved(Step(s, a)) <==> Timely(s, a)
  {
    StepKeepsInv(s, a);
    ConservedIsNoDrift(s);
    StepDrift(s, a);
    ConservedIsNoDrift(Step(s, a));
  }

  lemma {:induction false} TimelyPrefixConserves(states: seq<Sys>, actions: seq<Action>, j: nat)
    requires IsRun(states, actions) && Inv(states[0]) && Conserved(states[0]) && j < |states|
    requires forall k | 0 <= k < j :: Timely(states[k], actions[k])
    ensures Inv(states[j]) && Conserved(states[j])
  {
    if j > 0 {
      TimelyPrefixConserves(states, actions, j - 1);
      StepConserves(states[j - 1], actions[j - 1]);
      assert states[j] == Step(states[j - 1], actions[j - 1]);
    }
  }

  /** Along a whole run every generation keeps all its permits if and only if every resumed waiter
      was in time. */
  lemma RunConservesExactlyWhenTimely(states: seq<Sys>, actions: seq<Action>)
    requires IsRun(states, actions) && Inv(states[0]) && Conserved(states[0])
    ensures forall j | 0 <= j < |states| :: Inv(states[j])
    ensures (forall j | 0 <= j < |states| :: Conserved(states[j]))
            <==> (forall k | 0 <= k < |actions| :: Timely(states[k], actions[k]))
  {
    forall j | 0 <= j < |states|
      ensures Inv(states[j])
    {
      RunKeepsInv(states, actions, j);
    }
    if forall k | 0 <= k < |actions| :: Timely(states[k], actions[k]) {
      forall j | 0 <= j < |states|
        ensures Conserved(states[j])
      {
        TimelyPrefixConserves(states, actions, j);
      }
    } else {
      var k :| 0 <= k < |actions| && !Timely(states[k], actions[k]);
      if Conserved(states[k]) {
        StepConserves(states[k], actions[k]);
        assert states[k + 1] == Step(states[k], actions[k]);
      }
    }
  }

  /** With nobody late, no more than `probeCount` tasks ever hold permits of one generation. */
  lemma ProbesBounded(states: seq<Sys>, actions: seq<Action>, j: nat, g: nat)
    requires IsRun(states, actions) && Inv(states[0]) && Conserved(states[0]) && j < |states|
    requires forall k | 0 <= k < j :: Timely(states[k], actions[k])
    requires g < |states[j].b.permits|
    ensures Holders(states[j].tasks, g) <= states[0].b.cfg.probeCount
  {
    TimelyPrefixConserves(states, actions, j);
    RunKeepsInv(states, actions, j);
  }

  // ---------------------------------------------------------------- a late waiter

  const LATE_CONFIG := Config(1, 1.0, 3.0, 1, 1.0, 1, 100.0, 30.0)

  /** Task 0 fails as a probe, its permit goes to the waiting task 1, and task 2 starts the next
      generation before task 1 resumes. */
  const LATE_ACTIONS := [
    Entering(0, 0.0, 0.0, false), Exiting(0, true, 0.0, 0.0, 0.0),
    Entering(0, 1.0, 1.0, false), Entering(1, 1.0, 1.0, false), Exiting(0, true, 1.0, 1.0, 1.0),
    Granting(1), Entering(2, 2.0, 2.0, false), Resuming(1)]

  function LateBreaker(mode: Mode, n: nat, since: real, current: Option<nat>, permits: seq<nat>): Breaker {
    Breaker(LATE_CONFIG, mode, n, 0, n, 0, if n == 0 then None else Some(n as real - 1.0), since, 0, current, permits,
            [Event(0.0, true), Event(1.0, true)][..if n <= 2 then n else 2])
  }

  /** The states of that run. */
  const LATE_STATES := [
    Sys(LateBreaker(Closed, 0, 0.0, None, []), [Outside, Outside, Outside], 0.0, Ledger(0, 0, 0, [])),
    Sys(LateBreaker(Closed, 0, 0.0, None, []), [Inside(None), Outside, Outside], 0.0, Ledger(1, 1, 0, [])),
    Sys(LateBreaker(Open, 1, 0.0, None, []), [Outside, Outside, Outside], 0.0, Ledger(1, 1, 1, [])),
    Sys(LateBreaker(HalfOpen, 1, 1.0, Some(0), [0]), [Inside(Some(0)), Outside, Outside], 1.0, Ledger(2, 2, 1, [0])),
    Sys(LateBreaker(HalfOpen, 1, 1.0, Some(0), [0]), [Inside(Some(0)), Waiting(0), Outside], 1.0, Ledger(3, 2, 1, [0])),
    Sys(LateBreaker(Open, 2, 1.0, Some(0), [1]), [Outside, Waiting(0), Outside], 1.0, Ledger(3, 2, 2, [0])),
    Sys(LateBreaker(Open, 2, 1.0, Some(0), [0]), [Outside, Granted(0), Outside], 1.0, Ledger(3, 2, 2, [0])),
    Sys(LateBreaker(HalfOpen, 2, 2.0, Some(1), [0, 0]), [Outside, Granted(0), Inside(Some(1))], 2.0,
        Ledger(4, 3, 2, [0, 0])),
    Sys(LateBreaker(HalfOpen, 2, 2.0, Some(1), [0, 0]), [Outside, Inside(Some(1)), Inside(Some(1))], 2.0,
        Ledger(4, 4, 2, [-1, 1]))]

  lemma LateStepOpening(k: nat)
    requires k < 3
    ensures Enabled(LATE_STATES[k], LATE_ACTIONS[k])
    ensures LATE_STATES[k + 1] == Step(LATE_STATES[k], LATE_ACTIONS[k])
  {
    assert InWindow([Event(0.0, true)], -30.0) == [Event(0.0, true)];
    assert Count([Event(0.0, true)], IsFailure) == 1;
  }

  lemma LateStepProbing(k: nat)
    requires 3 <= k < 6
    ensures Enabled(LATE_STATES[k], LATE_ACTIONS[k])
    ensures LATE_STATES[k + 1] == Step(LATE_STATES[k], LATE_ACTIONS[k])
  {
  }

  lemma LateStepResuming(k: nat)
    requires 6 <= k < 8
    ensures Enabled(LATE_STATES[k], LATE_ACTIONS[k])
    ensures LATE_STATES[k + 1] == Step(LATE_STATES[k], LATE_ACTIONS[k])
  {
  }

  /** The bound on concurrent probes fails: with one permit per generation, two probes of the same
      generation run at once. */
  lemma LateWaiterBreaksProbeBound()
    ensures IsRun(LATE_STATES, LATE_ACTIONS) && LATE_STATES[0] == Start(LATE_CONFIG, 3, 0.0)
    ensures Conserved(LATE_STATES[0]) && !Conserved(LATE_STATES[8])
    ensures LATE_CONFIG.probeCount == 1 && Holders(LATE_STATES[8].tasks, 1) == 2
  {
    forall k | 0 <= k < 8
      ensures Enabled(LATE_STATES[k], LATE_ACTIONS[k])
      ensures LATE_STATES[k + 1] == Step(LATE_STATES[k], LATE_ACTIONS[k])
    {
      if k < 3 {
        LateStepOpening(k);
      } else if k < 6 {
        LateStepProbing(k);
      } else {
        LateStepResuming(k);
      }
    }
    assert LATE_STATES[8].b.permits[1] + Holders(LATE_STATES[8].tasks, 1) == 2;
  }
}
