/** The class follows the transition system: whatever is proved of every run holds of the object. */
module BreakerReplay {
  import opened Common
  import opened CircuitBreaking
  import opened BreakerSystem

  /** The object is in the state `s`, and the context variable of each task agrees with its phase. */
  ghost predicate Matches(cb: CircuitBreaker, s: Sys)
    reads cb
  {
    && cb.Valid() && cb.Abs() == s.b && cb.clock <= s.clock
    && Labels(cb.acquired, s.tasks)
  }

  ghost predicate Labels(acquired: map<nat, nat>, tasks: seq<Phase>) {
    && (forall t | t in acquired :: t < |tasks| && tasks[t] == Inside(Some(acquired[t])))
    && (forall t: nat | t < |tasks| && tasks[t].Inside? && tasks[t].permit.Some? :: t in acquired)
  }

  lemma LabelsUpdate(acquired: map<nat, nat>, tasks: seq<Phase>, t: nat, p: Phase)
    requires Labels(acquired, tasks) && t < |tasks|
    ensures Labels(if p.Inside? && p.permit.Some? then acquired[t := p.permit.value] else acquired - {t}, tasks[t := p])
  {
  }

  lemma LabelAbsent(acquired: map<nat, nat>, tasks: seq<Phase>, t: nat)
    requires Labels(acquired, tasks) && t < |tasks| && !tasks[t].Inside?
    ensures t !in acquired && acquired - {t} == acquired
  {
  }

  lemma LabelOf(acquired: map<nat, nat>, tasks: seq<Phase>, t: nat)
    requires Labels(acquired, tasks) && t < |tasks| && tasks[t].Inside?
    ensures tasks[t].permit == if t in acquired then Some(acquired[t]) else None
  {
  }

  method DoEnter(cb: CircuitBreaker, ghost s: Sys, a: Action)
    requires Matches(cb, s) && a.Entering? && Enabled(s, a)
    modifies cb
    ensures Matches(cb, StepEnter(s, a))
  {
    LabelAbsent(cb.acquired, s.tasks, a.t);
    ghost var p := EntryPhase(Enter(s.b, a.t1, a.t2, a.queued).1);
    LabelsUpdate(cb.acquired, s.tasks, a.t, p);
    hide Labels, Enter;
    var entry := cb.TryEnter(a.t, a.t1, a.t2, a.queued);
  }

  method DoExit(cb: CircuitBreaker, ghost s: Sys, a: Action)
    requires Matches(cb, s) && a.Exiting? && Enabled(s, a)
    modifies cb
    ensures Matches(cb, StepExit(s, a))
  {
    LabelOf(cb.acquired, s.tasks, a.t);
    LabelsUpdate(cb.acquired, s.tasks, a.t, Outside);
    hide Labels, Exit;
    cb.Leave(a.t, a.failed, a.t1, a.t2, a.t3);
  }

  method DoWait(cb: CircuitBreaker, ghost s: Sys, a: Action, phase: Phase)
    requires Matches(cb, s) && (a.Granting? || a.Resuming? || a.TimingOut?) && Enabled(s, a) && phase == s.tasks[a.t]
    modifies cb
    ensures Matches(cb, StepWaiter(s, a))
  {
    LabelAbsent(cb.acquired, s.tasks, a.t);
    LabelsUpdate(cb.acquired, s.tasks, a.t, StepWaiter(s, a).tasks[a.t]);
    assert PhaseOk(phase, |s.b.permits|);
    hide Labels;
    match a
    case Granting(_) => cb.GrantToWaiter(phase.g);
    case Resuming(t) => cb.ResumeWaiter(t);
    case TimingOut(_) =>
      if phase.Granted? {
        cb.TakeBackFromWaiter(phase.g);
      }
      cb.RefuseCaller();
  }

  /** Performs one step of a run on the object; `phase` is where the acting waiter is. */
  method Perform(cb: CircuitBreaker, ghost s: Sys, a: Action, phase: Phase)
    requires Matches(cb, s) && Enabled(s, a)
    requires a.Granting? || a.Resuming? || a.TimingOut? ==> phase == s.tasks[a.t]
    modifies cb
    ensures Matches(cb, Step(s, a))
  {
    hide Labels, Enter, Exit;
    match a
    case Entering(_, _, _, _) => DoEnter(cb, s, a);
    case Exiting(_, _, _, _, _) => DoExit(cb, s, a);
    case Granting(_) => DoWait(cb, s, a, phase);
    case Resuming(_) => DoWait(cb, s, a, phase);
    case TimingOut(_) => DoWait(cb, s, a, phase);
    case Measuring(ms, t1, t2, t3) => cb.NoteLatency(ms, t1, t2, t3);
    case Resetting(t1) => cb.ResetNow(t1);
  }

  /** A fresh object can perform every run of any number of tasks, and ends in the run's last state. */
  method Replay(cfg: Config, n: nat, t0: real, ghost states: seq<Sys>, actions: seq<Action>, phases: seq<Phase>)
    returns (cb: CircuitBreaker)
    requires IsRun(states, actions) && states[0] == Start(cfg, n, t0) && |phases| == |actions|
    requires forall k | 0 <= k < |actions| && (actions[k].Granting? || actions[k].Resuming? || actions[k].TimingOut?) ::
               phases[k] == states[k].tasks[actions[k].t]
    ensures fresh(cb) && Matches(cb, states[|actions|])
  {
    cb := new CircuitBreaker(cfg, t0);
    hide Step;
    var k := 0;
    while k < |actions|
      modifies cb
      invariant 0 <= k <= |actions|
      invariant Matches(cb, states[k])
    {
      Perform(cb, states[k], actions[k], phases[k]);
      k := k + 1;
    }
  }
}
