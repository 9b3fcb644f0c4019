/** The semaphore limiter, whose limit can be changed while tasks hold permits. */
module Limiting {
  import opened Common

  /** What `get_metrics` reports. */
  datatype Metrics = Metrics(
    currentActive: int,
    peakActive: int,
    totalAcquisitions: nat,
    maxConcurrent: nat,
    timeoutCount: nat)

  /** `permits` are the free permits of every semaphore created so far; the last is the current one. */
  datatype Limiter = Limiter(m: Metrics, permits: seq<nat>)

  function Fresh(maxConcurrent: nat): Limiter {
    Limiter(Metrics(0, 0, 0, maxConcurrent, 0), [maxConcurrent])
  }

  function Take(l: Limiter, g: nat): Limiter
    requires g < |l.permits| && l.permits[g] > 0
  {
    l.(permits := l.permits[g := l.permits[g] - 1])
  }

  function Give(l: Limiter, g: nat): Limiter
    requires g < |l.permits|
  {
    l.(permits := l.permits[g := l.permits[g] + 1])
  }

  function Max(a: int, b: int): int { if a < b then b else a }

  /** A task that holds a permit becomes active. */
  function Activate(l: Limiter): Limiter {
    l.(m := l.m.(currentActive := l.m.currentActive + 1, totalAcquisitions := l.m.totalAcquisitions + 1,
                 peakActive := Max(l.m.peakActive, l.m.currentActive + 1)))
  }

  function Expire(l: Limiter): Limiter { l.(m := l.m.(timeoutCount := l.m.timeoutCount + 1)) }

  /** Leaving returns the permit to the semaphore that is current now. */
  function Leave(l: Limiter): Limiter
    requires l.permits != []
  {
    Give(l.(m := l.m.(currentActive := l.m.currentActive - 1)), |l.permits| - 1)
  }

  /** A limit below one is an error and changes nothing. */
  function Resize(l: Limiter, n: int): Limiter {
    if n < 1 then l else l.(m := l.m.(maxConcurrent := n), permits := l.permits + [n])
  }

  class SemaphoreLimiter {
    var metrics: Metrics
    var permits: seq<nat>

    ghost function Abs(): Limiter
      reads this
    {
      Limiter(metrics, permits)
    }

    constructor (maxConcurrent: nat)
      requires maxConcurrent >= 1
      ensures Abs() == Fresh(maxConcurrent)
    {
      metrics := Metrics(0, 0, 0, maxConcurrent, 0);
      permits := [maxConcurrent];
    }

    /** Entering without having to wait; `queued` says whether others wait on the semaphore. */
    method TryEnter(queued: bool) returns (entered: bool)
      requires permits != []
      modifies this
      ensures entered == (old(permits)[|old(permits)| - 1] > 0 && !queued)
      ensures Abs() == if entered then Activate(Take(old(Abs()), |old(permits)| - 1)) else old(Abs())
    {
      var g := |permits| - 1;
      entered := permits[g] > 0 && !queued;
      if entered {
        permits := permits[g := permits[g] - 1];
        NoteEntered();
      }
    }

    method NoteEntered()
      modifies this`metrics
      ensures Abs() == Activate(old(Abs()))
    {
      var active := metrics.currentActive + 1;
      metrics := metrics.(currentActive := active, totalAcquisitions := metrics.totalAcquisitions + 1);
      if active > metrics.peakActive {
        metrics := metrics.(peakActive := active);
      }
    }

    method NoteTimeout()
      modifies this`metrics
      ensures Abs() == Expire(old(Abs()))
    {
      metrics := metrics.(timeoutCount := metrics.timeoutCount + 1);
    }

    method Exit()
      requires permits != []
      modifies this
      ensures Abs() == Leave(old(Abs()))
    {
      metrics := metrics.(currentActive := metrics.currentActive - 1);
      var g := |permits| - 1;
      permits := permits[g := permits[g] + 1];
    }

    /** What asyncio does to a semaphore on behalf of its waiters: a permit goes to one of them, or
        comes back from one whose timeout fired before it resumed. */
    method GrantToWaiter(g: nat)
      requires g < |permits| && permits[g] > 0
      modifies this`permits
      ensures Abs() == Take(old(Abs()), g)
    {
      permits := permits[g := permits[g] - 1];
    }

    method TakeBackFromWaiter(g: nat)
      requires g < |permits|
      modifies this`permits
      ensures Abs() == Give(old(Abs()), g)
    {
      permits := permits[g := permits[g] + 1];
    }

    method SetMaxConcurrent(newLimit: int) returns (ok: bool)
      modifies this
      ensures ok == (newLimit >= 1)
      ensures Abs() == Resize(old(Abs()), newLimit)
    {
      if newLimit < 1 {
        return false;
      }
      metrics := metrics.(maxConcurrent := newLimit);
      permits := permits + [newLimit];
      return true;
    }
  }

  // ---------------------------------------------------------------- the tasks

  /** A waiting task waits on the semaphore that was current when it came. */
  datatype Phase = Outside | Waiting(g: nat) | Granted(g: nat) | Inside

  /** `limits` is the sum of every limit that was ever set. */
  datatype Sys = Sys(l: Limiter, tasks: seq<Phase>, limits: nat)

  datatype Action =
    | Entering(t: nat, queued: bool)
    | Granting(t: nat)
    | Resuming(t: nat)
    | TimingOut(t: nat)
    | Exiting(t: nat)
    | Resizing(n: int)

  predicate Holds(p: Phase) { p.Granted? || p.Inside? }

  predicate IsInside(p: Phase) { p.Inside? }

  predicate PhaseOk(p: Phase, semaphores: nat) { p.Waiting? || p.Granted? ==> p.g < semaphores }

  predicate WellFormed(s: Sys) {
    s.l.permits != [] && forall t | 0 <= t < |s.tasks| :: PhaseOk(s.tasks[t], |s.l.permits|)
  }

  predicate Enabled(s: Sys, a: Action) {
    WellFormed(s) &&
    match a
    case Entering(t, _) => t < |s.tasks| && s.tasks[t].Outside?
    case Granting(t) => t < |s.tasks| && s.tasks[t].Waiting? && s.l.permits[s.tasks[t].g] > 0
    case Resuming(t) => t < |s.tasks| && s.tasks[t].Granted?
    case TimingOut(t) => t < |s.tasks| && (s.tasks[t].Waiting? || s.tasks[t].Granted?)
    case Exiting(t) => t < |s.tasks| && s.tasks[t].Inside?
    case Resizing(_) => true
  }

  function StepEnter(s: Sys, t: nat, queued: bool): Sys
    requires Enabled(s, Entering(t, queued))
  {
    var g := |s.l.permits| - 1;
    if s.l.permits[g] > 0 && !queued
    then s.(l := Activate(Take(s.l, g)), tasks := s.tasks[t := Inside])
    else s.(tasks := s.tasks[t := Waiting(g)])
  }

  function Step(s: Sys, a: Action): Sys
    requires Enabled(s, a)
  {
    match a
    case Entering(t, queued) => StepEnter(s, t, queued)
    case Granting(t) => s.(l := Take(s.l, s.tasks[t].g), tasks := s.tasks[t := Granted(s.tasks[t].g)])
    case Resuming(t) => s.(l := Activate(s.l), tasks := s.tasks[t := Inside])
    case TimingOut(t) =>
      s.(l := Expire(if s.tasks[t].Granted? then Give(s.l, s.tasks[t].g) else s.l), tasks := s.tasks[t := Outside])
    case Exiting(t) => s.(l := Leave(s.l), tasks := s.tasks[t := Outside])
    case Resizing(n) => s.(l := Resize(s.l, n), limits := s.limits + if n < 1 then 0 else n)
  }

  function Begin(maxConcurrent: nat, n: nat): Sys {
    Sys(Fresh(maxConcurrent), seq(n, _ => Outside), maxConcurrent)
  }

  ghost predicate IsRun(states: seq<Sys>, actions: seq<Action>) {
    && |states| == |actions| + 1
    && forall i | 0 <= i < |actions| :: Enabled(states[i], actions[i]) && states[i + 1] == Step(states[i], actions[i])
  }

  // ---------------------------------------------------------------- the object follows the system

  /** Performs one step of a run on the object; `phase` is where the acting task is. */
  method Perform(sl: SemaphoreLimiter, ghost s: Sys, a: Action, phase: Phase)
    requires sl.Abs() == s.l && Enabled(s, a)
    requires a.Granting? || a.TimingOut? ==> phase == s.tasks[a.t]
    modifies sl
    ensures sl.Abs() == Step(s, a).l
  {
    if a.Granting? || a.TimingOut? {
      assert PhaseOk(phase, |s.l.permits|);
    }
    match a
    case Entering(_, queued) => var entered := sl.TryEnter(queued);
    case Granting(_) => sl.GrantToWaiter(phase.g);
    case Resuming(_) => sl.NoteEntered();
    case TimingOut(_) =>
      if phase.Granted? {
        sl.TakeBackFromWaiter(phase.g);
      }
      sl.NoteTimeout();
    case Exiting(_) => sl.Exit();
    case Resizing(n) => var ok := sl.SetMaxConcurrent(n);
  }

  /** A fresh object can perform every run of any number of tasks, and ends in the run's last state. */
  method Replay(maxConcurrent: nat, n: nat, ghost states: seq<Sys>, actions: seq<Action>, phases: seq<Phase>)
    returns (sl: SemaphoreLimiter)
    requires maxConcurrent >= 1
    requires IsRun(states, actions) && states[0] == Begin(maxConcurrent, n) && |phases| == |actions|
    requires forall k | 0 <= k < |actions| && (actions[k].Granting? || actions[k].TimingOut?) ::
               phases[k] == states[k].tasks[actions[k].t]
    ensures fresh(sl) && sl.Abs() == states[|actions|].l
  {
    sl := new SemaphoreLimiter(maxConcurrent);
    hide Step;
    var k := 0;
    while k < |actions|
      modifies sl
      invariant 0 <= k <= |actions|
      invariant sl.Abs() == states[k].l
    {
      Perform(sl, states[k], actions[k], phases[k]);
      k := k + 1;
    }
  }

  // ---------------------------------------------------------------- conservation

  function Sum(ns: seq<nat>): nat {
    if ns == [] then 0 else ns[0] + Sum(ns[1..])
  }

  lemma {:induction false} SumUpdate(ns: seq<nat>, i: nat, n: nat)
    requires i < |ns|
    ensures Sum(ns[i := n]) + ns[i] == Sum(ns) + n
  {
    if i == 0 {
      assert ns[i := n][1..] == ns[1..];
    } else {
      SumUpdate(ns[1..], i - 1, n);
      assert ns[i := n][1..] == ns[1..][i - 1 := n];
    }
  }

  lemma {:induction false} SumSnoc(ns: seq<nat>, n: nat)
    ensures Sum(ns + [n]) == Sum(ns) + n
  {
    if ns == [] {
      assert ns + [n] == [n];
    } else {
      SumSnoc(ns[1..], n);
      assert (ns + [n])[1..] == ns[1..] + [n];
    }
  }

  /** All free permits of all semaphores and all holders together are all limits ever set. */
  predicate Conserved(s: Sys) {
    Sum(s.l.permits) + Count(s.tasks, Holds) == s.limits
  }

  predicate Inv(s: Sys) {
    && WellFormed(s)
    && Conserved(s)
    && s.l.m.currentActive == Count(s.tasks, IsInside)
    && s.l.m.currentActive <= s.l.m.peakActive
    && (|s.l.permits| == 1 ==> s.limits == s.l.m.maxConcurrent && s.l.m.peakActive <= s.l.m.maxConcurrent)
  }

  lemma BeginInv(maxConcurrent: nat, n: nat)
    ensures Inv(Begin(maxConcurrent, n))
  {
    var s := Begin(maxConcurrent, n);
    CountZero(s.tasks, Holds);
    CountZero(s.tasks, IsInside);
    assert Sum([maxConcurrent]) == maxConcurrent;
  }

  lemma {:induction false} InsideHolds(tasks: seq<Phase>)
    ensures Count(tasks, IsInside) <= Count(tasks, Holds)
  {
    if tasks != [] {
      InsideHolds(tasks[1..]);
    }
  }

  lemma StepConserves(s: Sys, a: Action)
    requires WellFormed(s) && Conserved(s) && Enabled(s, a)
    ensures Conserved(Step(s, a))
  {
    var s' := Step(s, a);
    if a.Resizing? {
      if a.n >= 1 {
        SumSnoc(s.l.permits, a.n);
      }
    } else {
      CountUpdate(s.tasks, a.t, s'.tasks[a.t], Holds);
      var g := if a.Granting? || a.TimingOut? then s.tasks[a.t].g else |s.l.permits| - 1;
      SumUpdate(s.l.permits, g, s'.l.permits[g]);
    }
  }

  lemma StepKeepsInv(s: Sys, a: Action)
    requires Inv(s) && Enabled(s, a)
    ensures Inv(Step(s, a))
  {
    var s' := Step(s, a);
    StepConserves(s, a);
    if !a.Resizing? {
      CountUpdate(s.tasks, a.t, s'.tasks[a.t], IsInside);
    }
    InsideHolds(s'.tasks);
  }

  /** Over every interleaving and every sequence of limit changes no permit is created or destroyed;
      the active count is the number of tasks inside, and without a change of limit neither it nor the
      peak ever exceeds the limit. */
  lemma {:induction false} RunConserves(states: seq<Sys>, actions: seq<Action>, j: nat)
    requires IsRun(states, actions) && Inv(states[0]) && j < |states|
    ensures Inv(states[j])
  {
    hide Inv, Step, Enabled;
    if j > 0 {
      RunConserves(states, actions, j - 1);
      StepKeepsInv(states[j - 1], actions[j - 1]);
      assert states[j] == Step(states[j - 1], actions[j - 1]);
    }
  }

  lemma LimitHoldsWithoutResize(states: seq<Sys>, actions: seq<Action>, j: nat, maxConcurrent: nat, n: nat)
    requires IsRun(states, actions) && states[0] == Begin(maxConcurrent, n) && j < |states|
    requires forall k | 0 <= k < j :: !actions[k].Resizing?
    ensures var s := states[j];
            |s.l.permits| == 1 && s.l.permits[0] + Count(s.tasks, Holds) == maxConcurrent
            && Count(s.tasks, IsInside) == s.l.m.currentActive <= s.l.m.peakActive <= maxConcurrent
  {
    BeginInv(maxConcurrent, n);
    RunConserves(states, actions, j);
    OneSemaphore(states, actions, j);
    assert Sum(states[j].l.permits) == states[j].l.permits[0];
  }

  lemma {:induction false} OneSemaphore(states: seq<Sys>, actions: seq<Action>, j: nat)
    requires IsRun(states, actions) && j < |states|
    requires forall k | 0 <= k < j :: !actions[k].Resizing?
    ensures |states[j].l.permits| == |states[0].l.permits|
    ensures states[j].l.m.maxConcurrent == states[0].l.m.maxConcurrent
  {
    if j > 0 {
      OneSemaphore(states, actions, j - 1);
      assert states[j] == Step(states[j - 1], actions[j - 1]);
    }
  }

  /** A task comes in exactly if the current semaphore has a free permit and nobody is ahead, and otherwise
      waits on that semaphore; whoever leaves gives a permit to the semaphore current then. */
  lemma EntersExactly(s: Sys, t: nat, queued: bool)
    requires Enabled(s, Entering(t, queued))
    ensures var g, r := |s.l.permits| - 1, Step(s, Entering(t, queued));
            var free := s.l.permits[g] > 0 && !queued;
            r.tasks == s.tasks[t := if free then Inside else Waiting(g)]
            && r.l.permits == if free then s.l.permits[g := s.l.permits[g] - 1] else s.l.permits
  {
  }

  // ---------------------------------------------------------------- the reported figures

  /** The step lets a task in. */
  predicate LetsIn(s: Sys, a: Action)
    requires Enabled(s, a)
  {
    (a.Entering? || a.Resuming?) && a.t < |Step(s, a).tasks| && Step(s, a).tasks[a.t].Inside?
  }

  datatype Figures = Figures(entered: nat, timeouts: nat, limit: nat, most: nat)

  /** What the steps before state `j` amount to: tasks let in, timeouts, the limit last set, and the most
      tasks inside at once. */
  function FiguresOf(maxConcurrent: nat, states: seq<Sys>, actions: seq<Action>, j: nat): Figures
    requires j <= |actions| && |states| == |actions| + 1
    requires forall k | 0 <= k < j :: Enabled(states[k], actions[k])
  {
    if j == 0 then Figures(0, 0, maxConcurrent, 0)
    else
      var f, s, a := FiguresOf(maxConcurrent, states, actions, j - 1), states[j - 1], actions[j - 1];
      var inside := Count(states[j].tasks, IsInside);
      Figures(f.entered + (if LetsIn(s, a) then 1 else 0), f.timeouts + (if a.TimingOut? then 1 else 0),
              if a.Resizing? && a.n >= 1 then a.n else f.limit, if inside > f.most then inside else f.most)
  }

  lemma FigureStep(s: Sys, a: Action)
    requires Inv(s) && Enabled(s, a)
    ensures var m, t := s.l.m, Step(s, a);
            var inside := Count(t.tasks, IsInside);
            t.l.m == Metrics(inside, if inside > m.peakActive then inside else m.peakActive,
                             m.totalAcquisitions + (if LetsIn(s, a) then 1 else 0),
                             if a.Resizing? && a.n >= 1 then a.n else m.maxConcurrent,
                             m.timeoutCount + if a.TimingOut? then 1 else 0)
  {
    if !a.Resizing? {
      CountUpdate(s.tasks, a.t, Step(s, a).tasks[a.t], IsInside);
    }
  }

  /** The reported figures, over every run with changes of the limit: who is inside now, the most that ever
      were at once, everyone let in, the limit last set and the timeouts. */
  lemma {:induction false} FiguresAreExact(maxConcurrent: nat, n: nat, states: seq<Sys>, actions: seq<Action>, j: nat)
    requires IsRun(states, actions) && states[0] == Begin(maxConcurrent, n) && j < |states|
    ensures var f, m := FiguresOf(maxConcurrent, states, actions, j), states[j].l.m;
            m == Metrics(Count(states[j].tasks, IsInside), f.most, f.entered, f.limit, f.timeouts)
  {
    hide Step, Enabled, LetsIn, Count, Inv;
    BeginInv(maxConcurrent, n);
    if j == 0 {
      CountZero(states[0].tasks, IsInside);
    } else {
      FiguresAreExact(maxConcurrent, n, states, actions, j - 1);
      RunConserves(states, actions, j - 1);
      FigureStep(states[j - 1], actions[j - 1]);
      assert states[j] == Step(states[j - 1], actions[j - 1]);
    }
  }

  // ---------------------------------------------------------------- after a change of limit

  /** What the current semaphore and the holders account for together. */
  function InPlay(s: Sys): nat
    requires s.l.permits != []
  {
    s.l.permits[|s.l.permits| - 1] + Count(s.tasks, Holds)
  }

  /** A step that involves a permit of a semaphore that is no longer current. */
  predicate TouchesOld(s: Sys, a: Action)
    requires Enabled(s, a)
  {
    (a.Granting? || (a.TimingOut? && s.tasks[a.t].Granted?)) && s.tasks[a.t].g != |s.l.permits| - 1
  }

  /** Between changes of limit the permits in play stay the same exactly as long as nobody is granted
      a permit of an old semaphore or gives one back. */
  lemma InPlayChangesExactlyWithOldPermits(s: Sys, a: Action)
    requires Enabled(s, a) && !a.Resizing?
    ensures Step(s, a).l.permits != []
    ensures InPlay(Step(s, a)) == InPlay(s) <==> !TouchesOld(s, a)
  {
    CountUpdate(s.tasks, a.t, Step(s, a).tasks[a.t], Holds);
  }

  /** What one step does to the permits in play: one more when an old semaphore grants a permit, one
      less when such a permit is given back. */
  function OldPermits(s: Sys, a: Action): int
    requires Enabled(s, a)
  {
    if !TouchesOld(s, a) then 0 else if a.Granting? then 1 else -1
  }

  lemma InPlayStep(s: Sys, a: Action)
    requires Enabled(s, a) && !a.Resizing?
    ensures WellFormed(Step(s, a)) && |Step(s, a).l.permits| == |s.l.permits|
    ensures InPlay(Step(s, a)) == InPlay(s) + OldPermits(s, a)
  {
    CountUpdate(s.tasks, a.t, Step(s, a).tasks[a.t], Holds);
  }

  /** The permits of old semaphores that came into play during the steps `i .. j - 1`, net. */
  function OldNet(states: seq<Sys>, actions: seq<Action>, i: nat, j: nat): int
    requires i <= j <= |actions| <= |states|
    requires forall k | i <= k < j :: Enabled(states[k], actions[k])
  {
    if i == j then 0 else OldNet(states, actions, i, j - 1) + OldPermits(states[j - 1], actions[j - 1])
  }

  lemma {:induction false} InPlayOverRun(states: seq<Sys>, actions: seq<Action>, i: nat, j: nat)
    requires IsRun(states, actions) && i <= j < |states| && WellFormed(states[i])
    requires forall k | i <= k < j :: !actions[k].Resizing?
    ensures WellFormed(states[j]) && |states[j].l.permits| == |states[i].l.permits|
    ensures InPlay(states[j]) == InPlay(states[i]) + OldNet(states, actions, i, j)
  {
    hide InPlay, Step, OldPermits, Enabled, WellFormed;
    if i < j {
      InPlayOverRun(states, actions, i, j - 1);
      assert states[j] == Step(states[j - 1], actions[j - 1]);
      InPlayStep(states[j - 1], actions[j - 1]);
    }
  }

  // who is still concerned with an old semaphore

  function WaitsOld(current: int): Phase -> bool { (p: Phase) => p.Waiting? && p.g < current }

  function GrantedOld(current: int): Phase -> bool { (p: Phase) => p.Granted? && p.g < current }

  function OldWaiting(s: Sys, current: int): nat { Count(s.tasks, WaitsOld(current)) }

  function OldGranted(s: Sys, current: int): nat { Count(s.tasks, GrantedOld(current)) }

  lemma OldStep(s: Sys, a: Action)
    requires Enabled(s, a) && !a.Resizing?
    ensures var c, t := |s.l.permits| - 1, Step(s, a);
            OldPermits(s, a) + OldWaiting(t, c) <= OldWaiting(s, c)
            && OldPermits(s, a) + OldGranted(s, c) >= OldGranted(t, c)
  {
    var c := |s.l.permits| - 1;
    assert PhaseOk(s.tasks[a.t], |s.l.permits|);
    CountUpdate(s.tasks, a.t, Step(s, a).tasks[a.t], WaitsOld(c));
    CountUpdate(s.tasks, a.t, Step(s, a).tasks[a.t], GrantedOld(c));
  }

  /** Only those who waited on an old semaphore at the start can add permits, and only those who were
      granted one but had not resumed can take some away. */
  lemma {:induction false} OldNetBounded(states: seq<Sys>, actions: seq<Action>, i: nat, j: nat)
    requires IsRun(states, actions) && i <= j < |states| && WellFormed(states[i])
    requires forall k | i <= k < j :: !actions[k].Resizing?
    ensures var c := |states[i].l.permits| - 1;
            OldNet(states, actions, i, j) + OldWaiting(states[j], c) <= OldWaiting(states[i], c)
            && OldNet(states, actions, i, j) + OldGranted(states[i], c) >= OldGranted(states[j], c)
  {
    hide Step, OldPermits, OldWaiting, OldGranted, Enabled, WellFormed;
    if i < j {
      OldNetBounded(states, actions, i, j - 1);
      InPlayOverRun(states, actions, i, j - 1);
      OldStep(states[j - 1], actions[j - 1]);
      assert states[j] == Step(states[j - 1], actions[j - 1]);
    }
  }

  /** After a change of the limit to `n` while `h` tasks hold permits, `n + h` permits are in play, up to
      the net of the old permits granted to and given back by those who were waiting at the change;
      once everybody has left, the semaphore admits that many. */
  lemma ResizeAddsHolders(states: seq<Sys>, actions: seq<Action>, i: nat, j: nat, n: nat)
    requires IsRun(states, actions) && i < j < |states| && n >= 1 && actions[i] == Resizing(n)
    requires forall k | i < k < j :: !actions[k].Resizing?
    ensures WellFormed(states[j])
    ensures var h, net := Count(states[i].tasks, Holds), OldNet(states, actions, i + 1, j);
            InPlay(states[j]) == n + h + net
            && 0 - Count(states[i].tasks, IsGranted) <= net <= Count(states[i].tasks, IsWaiting)
            && ((forall t | 0 <= t < |states[j].tasks| :: states[j].tasks[t].Outside?) ==>
                  states[j].l.permits[|states[j].l.permits| - 1] == n + h + net)
  {
    ResizeStep(states[i], n);
    InPlayOverRun(states, actions, i + 1, j);
    OldNetBounded(states, actions, i + 1, j);
    hide OldNet, OldWaiting, OldGranted, Step;
    if forall t | 0 <= t < |states[j].tasks| :: states[j].tasks[t].Outside? {
      CountZero(states[j].tasks, Holds);
    }
  }

  predicate IsWaiting(p: Phase) { p.Waiting? }

  predicate IsGranted(p: Phase) { p.Granted? }

  /** Once the semaphore is replaced, everyone waiting waits on an old one. */
  lemma ResizeStep(s: Sys, n: nat)
    requires Enabled(s, Resizing(n)) && n >= 1
    ensures var t := Step(s, Resizing(n));
            WellFormed(t) && InPlay(t) == n + Count(s.tasks, Holds)
            && OldWaiting(t, |t.l.permits| - 1) == Count(s.tasks, IsWaiting)
            && OldGranted(t, |t.l.permits| - 1) == Count(s.tasks, IsGranted)
  {
    CountSame(s.tasks, WaitsOld(|s.l.permits|), IsWaiting);
    CountSame(s.tasks, GrantedOld(|s.l.permits|), IsGranted);
  }

  lemma {:induction false} CountSame(tasks: seq<Phase>, p: Phase -> bool, q: Phase -> bool)
    requires forall t | 0 <= t < |tasks| :: p(tasks[t]) == q(tasks[t])
    ensures Count(tasks, p) == Count(tasks, q)
  {
    if tasks != [] {
      CountSame(tasks[1..], p, q);
    }
  }

  /** When nobody waits at the change, `n + h` permits stay in play for good. */
  lemma ResizeWithoutWaiters(states: seq<Sys>, actions: seq<Action>, i: nat, j: nat, n: nat)
    requires IsRun(states, actions) && i < j < |states| && n >= 1 && actions[i] == Resizing(n)
    requires forall k | i < k < j :: !actions[k].Resizing?
    requires forall t | 0 <= t < |states[i].tasks| :: states[i].tasks[t].Outside? || states[i].tasks[t].Inside?
    ensures WellFormed(states[j]) && InPlay(states[j]) == n + Count(states[i].tasks, IsInside)
  {
    ResizeAddsHolders(states, actions, i, j, n);
    CountZero(states[i].tasks, IsWaiting);
    CountZero(states[i].tasks, IsGranted);
    CountSame(states[i].tasks, Holds, IsInside);
  }

  // ---------------------------------------------------------------- exactly when the new limit is kept

  /** Some continuation without another change has more than `n` tasks inside. */
  ghost predicate CanExceed(s: Sys, n: nat) {
    exists states: seq<Sys>, actions: seq<Action> :: Exceeds(s, n, states, actions)
  }

  ghost predicate Exceeds(s: Sys, n: nat, states: seq<Sys>, actions: seq<Action>) {
    && IsRun(states, actions) && states[0] == s
    && (forall k | 0 <= k < |actions| :: !actions[k].Resizing?)
    && Count(states[|actions|].tasks, IsInside) > n
  }

  lemma ExceedsLater(s: Sys, n: nat, a: Action)
    requires Enabled(s, a) && !a.Resizing? && CanExceed(Step(s, a), n)
    ensures CanExceed(s, n)
  {
    hide Enabled, Step;
    var states: seq<Sys>, actions: seq<Action> :| Exceeds(Step(s, a), n, states, actions);
    var longer, from := [a] + actions, [s] + states;
    forall k | 0 <= k < |longer|
      ensures Enabled(from[k], longer[k]) && from[k + 1] == Step(from[k], longer[k])
    {
    }
    assert Exceeds(s, n, from, longer);
  }

  predicate IsPending(p: Phase) { p.Waiting? || p.Granted? }

  function Free(s: Sys): nat
    requires s.l.permits != []
  {
    s.l.permits[|s.l.permits| - 1]
  }

  /** Those just granted resume, those waiting give up, and then the others enter one by one. */
  function Crowd(s: Sys, t: nat): Action
    requires t < |s.tasks|
  {
    if s.tasks[t].Granted? then Resuming(t) else if s.tasks[t].Waiting? then TimingOut(t) else Entering(t, false)
  }

  lemma CrowdStep(s: Sys, t: nat)
    requires WellFormed(s) && t < |s.tasks| && !s.tasks[t].Inside? && (s.tasks[t].Outside? ==> Free(s) > 0)
    ensures Enabled(s, Crowd(s, t))
    ensures var r := Step(s, Crowd(s, t));
            WellFormed(r) && |r.tasks| == |s.tasks|
            && Free(r) + Count(r.tasks, IsInside) >= Free(s) + Count(s.tasks, IsInside)
            && Count(r.tasks, IsPending) + (if IsPending(s.tasks[t]) then 1 else 0) == Count(s.tasks, IsPending)
            && (s.tasks[t].Outside? ==> Count(r.tasks, IsInside) == Count(s.tasks, IsInside) + 1)
  {
    var r := Step(s, Crowd(s, t));
    CountUpdate(s.tasks, t, r.tasks[t], IsInside);
    CountUpdate(s.tasks, t, r.tasks[t], IsPending);
  }

  /** With more free permits and tasks inside than `n`, and enough tasks, the limit is exceeded. */
  lemma {:induction false} CrowdsOver(s: Sys, n: nat)
    requires WellFormed(s) && |s.tasks| > n && Free(s) + Count(s.tasks, IsInside) > n
    ensures CanExceed(s, n)
    decreases Count(s.tasks, IsPending), n - Count(s.tasks, IsInside)
  {
    hide Enabled, Step, CanExceed;
    CountBound(s.tasks, IsInside);
    if Count(s.tasks, IsInside) > n {
      AlreadyOver(s, n);
    } else {
      var t: nat := NextToMove(s);
      CrowdStep(s, t);
      CrowdsOver(Step(s, Crowd(s, t)), n);
      hide Free;
      ExceedsLater(s, n, Crowd(s, t));
    }
  }

  lemma AlreadyOver(s: Sys, n: nat)
    requires Count(s.tasks, IsInside) > n
    ensures CanExceed(s, n)
  {
    assert Exceeds(s, n, [s], []);
  }

  /** A task that is waiting or was granted a permit, or else one that is outside. */
  lemma NextToMove(s: Sys) returns (t: nat)
    requires Count(s.tasks, IsInside) < |s.tasks|
    ensures t < |s.tasks| && !s.tasks[t].Inside?
    ensures s.tasks[t].Outside? ==> Count(s.tasks, IsPending) == 0
  {
    CountBound(s.tasks, IsInside);
    CountBound(s.tasks, IsPending);
    if p: nat :| p < |s.tasks| && IsPending(s.tasks[p]) {
      t := p;
    } else {
      t :| t < |s.tasks| && !IsInside(s.tasks[t]);
    }
  }

  /** Nobody holds a permit of an old semaphore or can be granted one. */
  predicate Sealed(s: Sys) {
    forall t | 0 <= t < |s.tasks| :: PhaseSealed(s.tasks[t], s.l.permits)
  }

  predicate PhaseSealed(p: Phase, permits: seq<nat>) {
    IsPending(p) && p.g < |permits| - 1 ==> p.Waiting? && permits[p.g] == 0
  }

  lemma SealedStep(s: Sys, a: Action)
    requires Enabled(s, a) && !a.Resizing? && Sealed(s)
    ensures WellFormed(Step(s, a)) && Sealed(Step(s, a)) && InPlay(Step(s, a)) == InPlay(s)
  {
    var r := Step(s, a);
    assert PhaseSealed(s.tasks[a.t], s.l.permits) && PhaseOk(s.tasks[a.t], |s.l.permits|);
    forall t | 0 <= t < |r.tasks|
      ensures PhaseSealed(r.tasks[t], r.l.permits)
    {
      assert PhaseSealed(s.tasks[t], s.l.permits);
    }
    InPlayStep(s, a);
  }

  lemma {:induction false} SealedRun(states: seq<Sys>, actions: seq<Action>, j: nat)
    requires IsRun(states, actions) && j < |states| && WellFormed(states[0]) && Sealed(states[0])
    requires forall k | 0 <= k < |actions| :: !actions[k].Resizing?
    ensures WellFormed(states[j]) && Sealed(states[j]) && InPlay(states[j]) == InPlay(states[0])
  {
    hide Sealed, InPlay, Enabled, Step;
    if j > 0 {
      SealedRun(states, actions, j - 1);
      SealedStep(states[j - 1], actions[j - 1]);
      assert states[j] == Step(states[j - 1], actions[j - 1]);
    }
  }

  lemma {:induction false} TasksStay(states: seq<Sys>, actions: seq<Action>, j: nat)
    requires IsRun(states, actions) && j < |states|
    ensures |states[j].tasks| == |states[0].tasks|
  {
    if j > 0 {
      TasksStay(states, actions, j - 1);
      assert states[j] == Step(states[j - 1], actions[j - 1]);
    }
  }

  /** Whether a task holds a permit or can be granted one at the moment. */
  predicate MayHold(s: Sys, t: nat)
    requires WellFormed(s) && t < |s.tasks|
  {
    assert PhaseOk(s.tasks[t], |s.l.permits|);
    Holds(s.tasks[t]) || (s.tasks[t].Waiting? && s.l.permits[s.tasks[t].g] > 0)
  }

  /** After a change of the limit to `n` more than `n` tasks can come to be inside if and only if there
      are more than `n` tasks and, at the change, one of them holds a permit or could be granted one. */
  lemma NewLimitIsExceededExactly(s: Sys, n: nat)
    requires Enabled(s, Resizing(n)) && n >= 1
    ensures CanExceed(Step(s, Resizing(n)), n) <==>
              |s.tasks| > n && exists t: nat :: t < |s.tasks| && MayHold(s, t)
  {
    var r := Step(s, Resizing(n));
    if |s.tasks| > n && exists t: nat :: t < |s.tasks| && MayHold(s, t) {
      var t: nat :| t < |s.tasks| && MayHold(s, t);
      HolderLeadsOver(s, n, t);
    } else if CanExceed(r, n) {
      var states: seq<Sys>, actions: seq<Action> :| Exceeds(r, n, states, actions);
      var last := states[|actions|];
      SealedAtChange(s, n);
      hide MayHold;
      CountBound(last.tasks, IsInside);
      TasksStay(states, actions, |actions|);
      if |s.tasks| > n {
        SealedRun(states, actions, |actions|);
        InsideInPlay(last);
      }
    }
  }

  lemma InsideInPlay(s: Sys)
    requires WellFormed(s)
    ensures Count(s.tasks, IsInside) <= InPlay(s)
  {
    InsideHolds(s.tasks);
  }

  lemma SealedAtChange(s: Sys, n: nat)
    requires Enabled(s, Resizing(n)) && n >= 1
    ensures var r := Step(s, Resizing(n));
            WellFormed(r) && |r.tasks| == |s.tasks|
            && ((forall t: nat | t < |s.tasks| :: !MayHold(s, t)) ==> Sealed(r) && InPlay(r) == n)
  {
    var r := Step(s, Resizing(n));
    forall t | 0 <= t < |r.tasks|
      ensures PhaseOk(r.tasks[t], |r.l.permits|)
    {
      assert PhaseOk(s.tasks[t], |s.l.permits|);
    }
    if forall t: nat | t < |s.tasks| :: !MayHold(s, t) {
      forall t | 0 <= t < |s.tasks|
        ensures !Holds(s.tasks[t]) && PhaseSealed(r.tasks[t], r.l.permits)
      {
        assert !MayHold(s, t) && PhaseOk(s.tasks[t], |s.l.permits|);
      }
      CountZero(s.tasks, Holds);
    }
  }

  lemma HolderLeadsOver(s: Sys, n: nat, t: nat)
    requires Enabled(s, Resizing(n)) && n >= 1 && |s.tasks| > n && t < |s.tasks| && MayHold(s, t)
    ensures CanExceed(Step(s, Resizing(n)), n)
  {
    var r := Step(s, Resizing(n));
    assert WellFormed(r) && Free(r) == n by { SealedAtChange(s, n); }
    if s.tasks[t].Waiting? {
      var g := Step(r, Granting(t));
      assert Free(g) == n && g.tasks[t].Granted?;
      GrantedLeadsOver(g, n, t);
      ExceedsLater(r, n, Granting(t));
    } else if s.tasks[t].Granted? {
      GrantedLeadsOver(r, n, t);
    } else {
      CountBound(r.tasks, IsInside);
      CrowdsOver(r, n);
    }
  }

  lemma GrantedLeadsOver(s: Sys, n: nat, t: nat)
    requires WellFormed(s) && Free(s) == n && |s.tasks| > n && t < |s.tasks| && s.tasks[t].Granted?
    ensures CanExceed(s, n)
  {
    var i := Step(s, Resuming(t));
    CountBound(i.tasks, IsInside);
    assert IsInside(i.tasks[t]);
    CrowdsOver(i, n);
    ExceedsLater(s, n, Resuming(t));
  }

  const GROWING_ACTIONS := [Entering(0, false), Resizing(1), Entering(1, false), Exiting(0), Exiting(1)]

  function GrowingState(active: int, peak: int, total: nat, permits: seq<nat>, a: Phase, b: Phase, limits: nat): Sys {
    Sys(Limiter(Metrics(active, peak, total, 1, 0), permits), [a, b], limits)
  }

  const GROWING_STATES := [
    GrowingState(0, 0, 0, [1], Outside, Outside, 1),
    GrowingState(1, 1, 1, [0], Inside, Outside, 1),
    GrowingState(1, 1, 1, [0, 1], Inside, Outside, 2),
    GrowingState(2, 2, 2, [0, 0], Inside, Inside, 2),
    GrowingState(1, 2, 2, [0, 1], Outside, Inside, 2),
    GrowingState(0, 2, 2, [0, 2], Outside, Outside, 2)]

  /** With a limit of one, set again to one while it is used, two tasks are inside at once, and the
      semaphore of the idle limiter then admits two. */
  lemma SameLimitAgainAdmitsTwo()
    ensures IsRun(GROWING_STATES, GROWING_ACTIONS) && GROWING_STATES[0] == Begin(1, 2)
    ensures var s := GROWING_STATES[3];
            Count(s.tasks, IsInside) == 2 && s.l.m.currentActive == 2 && s.l.m.maxConcurrent == 1
    ensures GROWING_STATES[5].l.permits == [0, 2] && GROWING_STATES[5].tasks == [Outside, Outside]
  {
    forall k | 0 <= k < 5
      ensures Enabled(GROWING_STATES[k], GROWING_ACTIONS[k])
      ensures GROWING_STATES[k + 1] == Step(GROWING_STATES[k], GROWING_ACTIONS[k])
    {
    }
    assert Count([Inside, Inside], IsInside) == 2;
  }
}
