/** How long the circuit stays open and what its timestamps mean, told from the steps of a run alone. */
module BreakerDwell {
  import opened Common
  import opened CircuitBreaking
  import opened BreakerSystem
  import opened BreakerTraces

  /** Step `i` opens the circuit, or is a failing exit while it is open whose recorded window trips. */
  predicate Arms(states: seq<Sys>, actions: seq<Action>, i: nat)
    requires i < |actions| && |states| == |actions| + 1
  {
    if !states[i].b.mode.Open? then states[i + 1].b.mode.Open?
    else ReArms(states[i], actions[i], Recorded(states, actions, i + 1))
  }

  predicate ReArms(s: Sys, a: Action, recorded: seq<Event>) {
    Fails(a) && Trips(s.b.cfg, InWindow(recorded, a.t2 - s.b.cfg.windowDuration))
  }

  lemma ArmStamps(s: Sys, a: Action)
    requires Enabled(s, a) && !a.Resetting?
    requires if s.b.mode.Open? then ReArms(s, a, Step(s, a).b.history) else Step(s, a).b.mode.Open?
    ensures (a.Exiting? || a.Measuring?) && Step(s, a).b.mode.Open? && a.t1 <= Step(s, a).b.since <= a.t3
  {
    hide InWindow, Trips;
  }

  lemma OtherwiseKeeps(s: Sys, a: Action)
    requires Enabled(s, a) && !a.Resetting? && s.b.mode.Open? && !ReArms(s, a, Step(s, a).b.history)
    ensures Step(s, a).b.since == s.b.since || !Step(s, a).b.mode.Open?
  {
    hide InWindow, Trips;
  }

  lemma ArmedAt(cfg: Config, n: nat, t0: real, states: seq<Sys>, actions: seq<Action>, i: nat)
    requires IsRun(states, actions) && states[0] == Start(cfg, n, t0) && i < |actions|
    requires Arms(states, actions, i) && !actions[i].Resetting?
    ensures actions[i].Exiting? || actions[i].Measuring?
    ensures states[i + 1].b.mode.Open? && actions[i].t1 <= states[i + 1].b.since <= actions[i].t3
  {
    hide Step, Enabled, Recorded;
    HistoryIsRecorded(states, actions, i + 1);
    assert states[i + 1] == Step(states[i], actions[i]);
    ArmStamps(states[i], actions[i]);
  }

  /** From the step that opened the circuit, or armed it again, it is open for the configured duration. */
  lemma OpenForTheWholeDwell(cfg: Config, n: nat, t0: real, states: seq<Sys>, actions: seq<Action>, i: nat, j: nat)
    requires IsRun(states, actions) && states[0] == Start(cfg, n, t0) && cfg.halfOpenMaxCalls >= 1
    requires i < j < |states| && Arms(states, actions, i)
    requires forall k | i <= k < j :: !actions[k].Resetting?
    ensures actions[i].Exiting? || actions[i].Measuring?
    ensures states[j].clock < actions[i].t1 + cfg.openDuration ==> states[j].b.mode.Open?
  {
    hide Step, Enabled, Arms, Start;
    ArmedAt(cfg, n, t0, states, actions, i);
    if states[j].clock < actions[i].t1 + cfg.openDuration {
      StartInv(cfg, n, t0);
      StartConfig(cfg, n, t0);
      StaysOpen(states, actions, i + 1, j);
    }
  }

  lemma StartConfig(cfg: Config, n: nat, t0: real)
    ensures Start(cfg, n, t0).b.cfg == cfg && Start(cfg, n, t0).b.history == []
  {
  }

  /** While no step arms the circuit, an open one has been open all along, unstamped. */
  lemma {:induction false} UnarmedSince(states: seq<Sys>, actions: seq<Action>, i: nat, j: nat)
    requires IsRun(states, actions) && states[0].b.history == [] && i <= j < |states| && states[j].b.mode.Open?
    requires forall k | i <= k < j :: !actions[k].Resetting? && !Arms(states, actions, k)
    ensures states[i].b.mode.Open? && states[j].b.since == states[i].b.since
  {
    hide Step, Enabled, Recorded, ReArms;
    if i < j {
      HistoryIsRecorded(states, actions, j);
      assert states[j] == Step(states[j - 1], actions[j - 1]);
      OtherwiseKeeps(states[j - 1], actions[j - 1]);
      UnarmedSince(states, actions, i, j - 1);
    }
  }

  lemma DueEntry(s: Sys, a: Action)
    requires Enabled(s, a) && a.Entering? && s.b.mode.Open? && a.t1 >= s.b.since + s.b.cfg.openDuration
    ensures Step(s, a).b.mode.HalfOpen? && Step(s, a).b.rejected == s.b.rejected
  {
  }

  /** The first caller that comes a full duration after the last such step turns it half-open. */
  lemma HalfOpenOnceDue(cfg: Config, n: nat, t0: real, states: seq<Sys>, actions: seq<Action>, i: nat, j: nat)
    requires IsRun(states, actions) && states[0] == Start(cfg, n, t0)
    requires i < j < |actions| && Arms(states, actions, i) && states[j].b.mode.Open?
    requires forall k | i < k < j :: !Arms(states, actions, k)
    requires forall k | i <= k < j :: !actions[k].Resetting?
    ensures actions[i].Exiting? || actions[i].Measuring?
    ensures actions[j].Entering? && actions[j].t1 >= actions[i].t3 + cfg.openDuration ==>
              states[j + 1].b.mode.HalfOpen? && states[j + 1].b.rejected == states[j].b.rejected
  {
    hide Step, Enabled, Arms, Start;
    ArmedAt(cfg, n, t0, states, actions, i);
    StartConfig(cfg, n, t0);
    UnarmedSince(states, actions, i + 1, j);
    ConfigStays(states, actions, j);
    if actions[j].Entering? && actions[j].t1 >= actions[i].t3 + cfg.openDuration {
      DueEntry(states[j], actions[j]);
      assert states[j + 1] == Step(states[j], actions[j]);
    }
  }

  /** A closed circuit lets every caller in without a permit; a half-open one exactly if its semaphore has a
      free permit and nobody is ahead, and otherwise makes the caller wait on that semaphore. */
  lemma EntersExactly(s: Sys, a: Action)
    requires Inv(s) && a.Entering? && Enabled(s, a)
    ensures s.b.mode.Closed? ==> Step(s, a).tasks[a.t] == Inside(None) && Step(s, a).b == s.b
    ensures s.b.mode.HalfOpen? ==>
              s.b.current.Some?
              && var g := s.b.current.value;
                 var free := s.b.permits[g] > 0 && !a.queued;
                 Step(s, a).tasks[a.t] == (if free then Inside(Some(g)) else Waiting(g))
                 && Step(s, a).b == if free then s.b.(permits := s.b.permits[g := s.b.permits[g] - 1]) else s.b
  {
  }

  // ---------------------------------------------------------------- the reported timestamps

  /** Step `i` changes the state, arms the circuit or resets the breaker. */
  predicate Changes(states: seq<Sys>, actions: seq<Action>, i: nat)
    requires i < |actions| && |states| == |actions| + 1
  {
    states[i + 1].b.mode != states[i].b.mode || Arms(states, actions, i) || actions[i].Resetting?
  }

  lemma ChangeStamps(s: Sys, a: Action)
    requires Enabled(s, a)
    ensures Step(s, a).b.mode != s.b.mode || a.Resetting? ==> s.clock <= Step(s, a).b.since <= Step(s, a).clock
    ensures Step(s, a).b.mode == s.b.mode && !s.b.mode.Open? && !a.Resetting? ==> Step(s, a).b.since == s.b.since
    ensures (a.Exiting? || a.Measuring?) ==> s.clock <= a.t1 && a.t3 == Step(s, a).clock
  {
    hide InWindow, Trips;
  }

  /** The reported time of the last change lies within the step that last changed the state, armed the
      circuit or reset the breaker, or is the time of creation. */
  lemma {:induction false} LastChangeIsStamped(cfg: Config, n: nat, t0: real,
                                               states: seq<Sys>, actions: seq<Action>, j: nat)
    returns (i: nat)
    requires IsRun(states, actions) && states[0] == Start(cfg, n, t0) && j < |states|
    ensures i <= j && forall k | i <= k < j :: !Changes(states, actions, k)
    ensures if i == 0 then states[j].b.since == t0
            else Changes(states, actions, i - 1) && states[i - 1].clock <= states[j].b.since <= states[i].clock
  {
    hide Step, Enabled, Arms, Recorded;
    i := j;
    if j > 0 {
      var s, a := states[j - 1], actions[j - 1];
      assert states[j] == Step(s, a);
      ChangeStamps(s, a);
      if Changes(states, actions, j - 1) {
        if !a.Resetting? && Arms(states, actions, j - 1) {
          ArmedAt(cfg, n, t0, states, actions, j - 1);
        }
      } else {
        Unstamped(cfg, n, t0, states, actions, j - 1);
        i := LastChangeIsStamped(cfg, n, t0, states, actions, j - 1);
      }
    }
  }

  lemma Unstamped(cfg: Config, n: nat, t0: real, states: seq<Sys>, actions: seq<Action>, j: nat)
    requires IsRun(states, actions) && states[0] == Start(cfg, n, t0) && j < |actions| && !Changes(states, actions, j)
    ensures states[j + 1].b.since == states[j].b.since
  {
    hide Step, Enabled, Recorded, ReArms;
    assert states[j + 1] == Step(states[j], actions[j]);
    ChangeStamps(states[j], actions[j]);
    if states[j].b.mode.Open? {
      HistoryIsRecorded(states, actions, j + 1);
      OtherwiseKeeps(states[j], actions[j]);
    }
  }

  /** When the last of the recorded failures happened. */
  function LastFailed(h: seq<Event>): Option<real> {
    if h == [] then None
    else if h[|h| - 1].failed then Some(h[|h| - 1].at) else LastFailed(h[..|h| - 1])
  }

  lemma LastFailedSnoc(h: seq<Event>, e: Event)
    ensures LastFailed(h + [e]) == if e.failed then Some(e.at) else LastFailed(h)
  {
    assert (h + [e])[..|h|] == h;
  }

  lemma FailureField(s: Sys, a: Action)
    requires Enabled(s, a)
    ensures Step(s, a).b.lastFailure ==
            if a.Resetting? then None else if RecordsFailure(s, a) then Some(a.t1) else s.b.lastFailure
  {
    hide InWindow, Trips;
  }

  lemma FailureStamp(s: Sys, a: Action)
    requires Enabled(s, a) && s.b.lastFailure == LastFailed(s.b.history)
    ensures Step(s, a).b.lastFailure == LastFailed(Step(s, a).b.history)
  {
    hide Step, Enabled, RecordsFailure;
    HistoryStep(s, a);
    FailureField(s, a);
    if NewEvents(s, a) != [] {
      LastFailedSnoc(s.b.history, NewEvents(s, a)[0]);
    }
    assert s.b.history + [] == s.b.history;
  }

  /** The reported time of the last failure is that of the last failure recorded since the last reset. */
  lemma {:induction false} LastFailureIsReported(cfg: Config, n: nat, t0: real,
                                                 states: seq<Sys>, actions: seq<Action>, j: nat)
    requires IsRun(states, actions) && states[0] == Start(cfg, n, t0) && j < |states|
    ensures states[j].b.lastFailure == LastFailed(Recorded(states, actions, j))
  {
    hide Step, Enabled, Recorded;
    HistoryIsRecorded(states, actions, j);
    if j > 0 {
      HistoryIsRecorded(states, actions, j - 1);
      LastFailureIsReported(cfg, n, t0, states, actions, j - 1);
      FailureStamp(states[j - 1], actions[j - 1]);
      assert states[j] == Step(states[j - 1], actions[j - 1]);
    }
  }

  /** A reset leaves a breaker that is as new, but for the permits of the semaphores still in use. */
  lemma ResetIsFresh(s: Sys, t1: real)
    requires Enabled(s, Resetting(t1))
    ensures var t := Step(s, Resetting(t1));
            t.b == Start(s.b.cfg, 0, t1).b.(permits := s.b.permits) && t.tasks == s.tasks
  {
  }
}
