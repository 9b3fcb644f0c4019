/** What every run of the pipeline guarantees, and exactly when the drain delivers everything. */
module PipelineProperties {
  import opened Common
  import opened Pipelines
  import opened PipelineSystem

  lemma {:induction false} RunKeepsInv<T(!new)>(states: seq<Sys<T>>, actions: seq<Action<T>>, j: nat)
    requires IsRun(states, actions) && Inv(states[0]) && j < |states|
    ensures Inv(states[j]) && states[j].p.cfg == states[0].p.cfg
  {
    hide Inv, Step, Enabled;
    if j > 0 {
      RunKeepsInv(states, actions, j - 1);
      StepKeepsInv(states[j - 1], actions[j - 1]);
      assert states[j] == Step(states[j - 1], actions[j - 1]);
    }
  }

  // ---------------------------------------------------------------- order and conservation

  /** Nothing accepted is ever lost from the ledger, duplicated in it or reordered, whatever the
      producers, the batch callback and the callers of `stop` and `start` do. */
  lemma {:induction false} RunIsFifo<T(!new)>(states: seq<Sys<T>>, actions: seq<Action<T>>, i: nat, j: nat)
    requires IsRun(states, actions) && Inv(states[0]) && i <= j < |states|
    ensures var p := states[j].p;
            p.h.accepted == Items(p.h.log) + p.batch + p.queue
            && states[i].p.h.accepted <= p.h.accepted
            && states[j].puts == |p.h.accepted| + p.m.dropped + Count(states[j].producers, IsBlocked)
  {
    hide Inv, Step, Enabled, Items;
    RunKeepsInv(states, actions, j);
    InvMeans(states[j]);
    if i < j {
      RunIsFifo(states, actions, i, j - 1);
      RunKeepsInv(states, actions, j - 1);
      InvMeans(states[j - 1]);
      StepFifo(states[j - 1], actions[j - 1]);
      assert states[j] == Step(states[j - 1], actions[j - 1]);
    }
  }

  lemma InvMeans<T(!new)>(s: Sys<T>)
    requires Inv(s)
    ensures Fifo(s.p) && Control(s.p) && PutsOk(s)
  {
  }

  // ---------------------------------------------------------------- the drain

  /** Shut down with no producer waiting. */
  ghost predicate Quiet<T(!new)>(s: Sys<T>) {
    s.p.shutdown && forall w | 0 <= w < |s.producers| :: s.producers[w].Ready?
  }

  lemma QuietStep<T(!new)>(s: Sys<T>, a: Action<T>)
    requires Enabled(s, a) && Quiet(s) && !a.Starting?
    requires DrainOver(s.p.pc) ==> s.p.h.late == []
    ensures var s' := Step(s, a);
            Quiet(s') && s'.p.h.accepted == s.p.h.accepted && (DrainOver(s'.p.pc) ==> s'.p.h.late == [])
  {
  }

  lemma {:induction false} QuietRun<T(!new)>(states: seq<Sys<T>>, actions: seq<Action<T>>, i: nat, j: nat)
    requires IsRun(states, actions) && i <= j < |states| && Quiet(states[i])
    requires DrainOver(states[i].p.pc) ==> states[i].p.h.late == []
    requires forall k | i <= k < j :: !actions[k].Starting?
    ensures Quiet(states[j]) && states[j].p.h.accepted == states[i].p.h.accepted
    ensures DrainOver(states[j].p.pc) ==> states[j].p.h.late == []
  {
    if i < j {
      QuietRun(states, actions, i, j - 1);
      QuietStep(states[j - 1], actions[j - 1]);
      assert states[j] == Step(states[j - 1], actions[j - 1]);
    }
  }

  /** If no producer is waiting when shutdown is under way, the consumer stops only after every
      accepted item was given up in order. */
  lemma DrainDeliversEverything<T(!new)>(states: seq<Sys<T>>, actions: seq<Action<T>>, i: nat, j: nat)
    requires IsRun(states, actions) && Inv(states[0]) && i <= j < |states|
    requires Quiet(states[i]) && !DrainOver(states[i].p.pc)
    requires forall k | i <= k < j :: !actions[k].Starting?
    requires states[j].p.pc.Stopped?
    ensures states[j].p.queue == [] && states[j].p.batch == []
    ensures states[j].p.h.accepted == states[i].p.h.accepted == Items(states[j].p.h.log)
  {
    QuietRun(states, actions, i, j);
    RunKeepsInv(states, actions, j);
  }

  /** Some continuation without a restart stops the consumer and leaves an accepted item behind. */
  ghost predicate CanStrand<T(!new)>(s: Sys<T>) {
    exists states: seq<Sys<T>>, actions: seq<Action<T>> :: Strands(s, states, actions)
  }

  ghost predicate Strands<T(!new)>(s: Sys<T>, states: seq<Sys<T>>, actions: seq<Action<T>>) {
    && IsRun(states, actions) && states[0] == s
    && (forall k | 0 <= k < |actions| :: !actions[k].Starting?)
    && states[|actions|].p.pc.Stopped? && states[|actions|].p.queue != []
  }

  /** From the call of `stop` until the drain has found the queue empty: an accepted item can be left
      behind if and only if a producer is waiting in `put`. */
  lemma StrandsExactlyWhenBlocked<T(!new)>(s: Sys<T>)
    requires Inv(s) && s.p.running && s.p.shutdown && !Finished(s.p.pc) && !DrainOver(s.p.pc)
    ensures CanStrand(s) <==> exists w :: 0 <= w < |s.producers| && s.producers[w].Blocked?
  {
    if w :| 0 <= w < |s.producers| && s.producers[w].Blocked? {
      RunsIntoStranding(s, w);
    } else if CanStrand(s) {
      var states: seq<Sys<T>>, actions: seq<Action<T>> :| Strands(s, states, actions);
      DrainDeliversEverything(states, actions, 0, |actions|);
    }
  }

  /** As the caller of `stop` sees it: the drain can leave an item behind if and only if a `put` is
      pending at the call. */
  lemma StopStrandsExactlyWhenPutPending<T(!new)>(s: Sys<T>)
    requires Inv(s) && s.p.running && !s.p.shutdown && !Finished(s.p.pc)
    ensures CanStrand(Step(s, Stopping(true))) <==> exists w :: 0 <= w < |s.producers| && s.producers[w].Blocked?
  {
    StepKeepsInv(s, Stopping(true));
    hide CanStrand;
    StrandsExactlyWhenBlocked(Step(s, Stopping(true)));
  }

  /** What the consumer does next, with `on_batch` returning; it only waits in vain for an empty queue. */
  function NextStep<T>(p: Pipe<T>): Action<T> {
    match p.pc
    case Fetching => if p.queue != [] then Receiving(false) else ReceiveExpires(true)
    case Handing(_) => Finishing(Returned)
    case Draining => Polling
    case _ => Heading
  }

  /** Until it stops the consumer always has a next step, which brings the end nearer. */
  lemma NextStepAdvances<T(!new)>(s: Sys<T>)
    requires Inv(s) && s.p.shutdown && s.p.running && !Finished(s.p.pc)
    ensures var a: Action<T> := NextStep(s.p);
            Enabled(s, a) && !a.Starting?
            && var t := Step(s, a);
               t.p.shutdown && t.p.running && t.producers == s.producers && DrainMeasure(t.p) < DrainMeasure(s.p)
               && (Finished(t.p.pc) ==> t.p.pc.Stopped?)
               && ((DrainOver(s.p.pc) ==> s.p.h.late == []) && DrainOver(t.p.pc) ==> t.p.h.late == [])
  {
  }

  /** The consumer runs to its end and then the waiting producer wakes up. */
  lemma {:induction false} RunsIntoStranding<T(!new)>(s: Sys<T>, w: nat)
    requires Inv(s) && s.p.shutdown && w < |s.producers| && s.producers[w].Blocked?
    requires s.p.running && (Finished(s.p.pc) ==> s.p.pc.Stopped?) && (DrainOver(s.p.pc) ==> s.p.h.late == [])
    ensures CanStrand(s)
    decreases DrainMeasure(s.p)
  {
    hide Inv, Step, Enabled, DrainMeasure, CanStrand;
    if s.p.pc.Stopped? {
      WakesStranded(s, w);
    } else {
      var a: Action<T> := NextStep(s.p);
      NextStepAdvances(s);
      StepKeepsInv(s, a);
      RunsIntoStranding(Step(s, a), w);
      StrandsLater(s, a);
    }
  }

  lemma WakesStranded<T(!new)>(s: Sys<T>, w: nat)
    requires Inv(s) && s.p.pc.Stopped? && s.p.h.late == [] && w < |s.producers| && s.producers[w].Blocked?
    ensures CanStrand(s)
  {
    var actions: seq<Action<T>> := [Waking(w)];
    assert Strands(s, [s, Step(s, Waking(w))], actions);
  }

  lemma StrandsLater<T(!new)>(s: Sys<T>, a: Action<T>)
    requires Enabled(s, a) && !a.Starting? && CanStrand(Step(s, a))
    ensures CanStrand(s)
  {
    hide Enabled, Step;
    var states: seq<Sys<T>>, actions: seq<Action<T>> :| Strands(Step(s, a), states, actions);
    var longer := [a] + actions;
    forall k | 0 <= k < |longer|
      ensures Enabled(([s] + states)[k], longer[k]) && ([s] + states)[k + 1] == Step(([s] + states)[k], longer[k])
    {
    }
    assert Strands(s, [s] + states, longer);
  }

  // ---------------------------------------------------------------- the shape of the drain

  predicate DrainPc(pc: Pc) { pc.Looping? || pc.Draining? || pc.Stopped? || (pc.Handing? && pc.hand != Main) }

  /** The hand-overs that are still to come once shutdown is under way. */
  function Remaining<T>(p: Pipe<T>): seq<seq<T>>
    requires ValidConfig(p.cfg)
  {
    match p.pc
    case Looping => (if p.batch == [] then [] else [p.batch]) + Chunks(p.queue, p.cfg.batchSize)
    case Draining => Chunks(p.batch + p.queue, p.cfg.batchSize)
    case Handing(hand) => if hand == Final then [] else Chunks(p.queue, p.cfg.batchSize)
    case _ => []
  }

  /** All hand-overs, past and to come. */
  function Total<T>(p: Pipe<T>): seq<seq<T>>
    requires ValidConfig(p.cfg)
  {
    p.h.handed + Remaining(p)
  }

  lemma PollRemaining<T>(p: Pipe<T>)
    requires ValidConfig(p.cfg) && p.pc.Draining? && |p.batch| < p.cfg.batchSize
    ensures Total(DrainPoll(p)) == Total(p)
  {
    var n := p.cfg.batchSize;
    if p.queue == [] {
      assert p.batch + p.queue == p.batch;
      assert Chunks(p.batch, n) == if p.batch == [] then [] else [p.batch];
      hide Chunks;
      assert p.h.handed + [p.batch] + [] == p.h.handed + [p.batch];
    } else {
      var q := Pop(p);
      assert p.batch + p.queue == q.batch + q.queue;
      if |q.batch| >= n {
        ChunksCons(q.batch, q.queue, n);
        hide Chunks;
        assert p.h.handed + [q.batch] + Chunks(q.queue, n) == p.h.handed + ([q.batch] + Chunks(q.queue, n));
      }
    }
  }

  lemma HeadRemaining<T>(p: Pipe<T>)
    requires ValidConfig(p.cfg) && p.pc.Looping? && p.shutdown
    ensures Total(CheckShutdown(p)) == Total(p)
  {
    hide Chunks;
    var rest := Chunks(p.queue, p.cfg.batchSize);
    assert [] + p.queue == p.queue;
    assert p.h.handed + [p.batch] + rest == p.h.handed + ([p.batch] + rest);
    assert p.h.handed + ([] + rest) == p.h.handed + rest;
  }

  lemma FinishRemaining<T>(p: Pipe<T>, o: Outcome)
    requires ValidConfig(p.cfg) && p.pc.Handing? && p.pc.hand != Main
    ensures Total(FinishHand(p, o)) == Total(p)
  {
    hide Chunks;
    assert [] + p.queue == p.queue;
  }

  lemma RemainingStep<T(!new)>(s: Sys<T>, a: Action<T>)
    requires Inv(s) && Quiet(s) && Enabled(s, a) && DrainPc(s.p.pc) && !a.Starting?
    ensures var p := Step(s, a).p;
            p.cfg == s.p.cfg && (p.pc.Cancelled? || (DrainPc(p.pc) && Total(p) == Total(s.p)))
  {
    assert s.p.pc.Draining? ==> |s.p.batch| < s.p.cfg.batchSize;
    assert ValidConfig(s.p.cfg);
    hide Inv, Chunks;
    match a
    case Polling => PollRemaining(s.p); hide Total;
    case Finishing(o) => FinishRemaining(s.p, o); hide Total;
    case Heading => HeadRemaining(s.p); hide Total;
    case _ =>
  }

  lemma CancelledStays<T(!new)>(s: Sys<T>, a: Action<T>)
    requires Enabled(s, a) && s.p.pc.Cancelled? && !a.Starting?
    ensures Step(s, a).p.pc.Cancelled?
  {
  }

  lemma RemainingOrCancelled<T(!new)>(s: Sys<T>, a: Action<T>)
    requires Inv(s) && Quiet(s) && Enabled(s, a) && !a.Starting?
    requires s.p.pc.Cancelled? || DrainPc(s.p.pc)
    ensures var p := Step(s, a).p;
            p.cfg == s.p.cfg &&
            (p.pc.Cancelled? || (!s.p.pc.Cancelled? && DrainPc(p.pc) && Total(p) == Total(s.p)))
  {
    hide Total;
    if s.p.pc.Cancelled? {
      CancelledStays(s, a);
    } else {
      RemainingStep(s, a);
    }
  }

  lemma {:induction false} RemainingRun<T(!new)>(states: seq<Sys<T>>, actions: seq<Action<T>>, i: nat, j: nat)
    requires IsRun(states, actions) && Inv(states[0]) && i <= j < |states|
    requires Quiet(states[i]) && DrainPc(states[i].p.pc) && !DrainOver(states[i].p.pc)
    requires forall k | i <= k < j :: !actions[k].Starting?
    ensures states[j].p.cfg == states[i].p.cfg && ValidConfig(states[i].p.cfg)
    ensures states[j].p.pc.Cancelled? ||
            (DrainPc(states[j].p.pc) && Total(states[j].p) == Total(states[i].p))
  {
    hide Step, Enabled, Quiet, Total, DrainPc, DrainOver;
    RunKeepsInv(states, actions, i);
    RunKeepsInv(states, actions, j);
    if i < j {
      RemainingRun(states, actions, i, j - 1);
      RunKeepsInv(states, actions, j - 1);
      QuietRun(states, actions, i, j - 1);
      RemainingOrCancelled(states[j - 1], actions[j - 1]);
    }
  }

  /** The drain hands over the partial batch, then the queue cut into full batches with at most one
      remainder (see `ChunksShape`), whatever `on_batch` does. */
  lemma DrainShape<T(!new)>(states: seq<Sys<T>>, actions: seq<Action<T>>, i: nat, j: nat)
    requires IsRun(states, actions) && Inv(states[0]) && i <= j < |states|
    requires Quiet(states[i]) && states[i].p.pc.Looping? && states[j].p.pc.Stopped?
    requires forall k | i <= k < j :: !actions[k].Starting?
    ensures states[i].p.cfg.batchSize >= 1
    ensures states[j].p.h.handed == states[i].p.h.handed
            + (if states[i].p.batch == [] then [] else [states[i].p.batch])
            + Chunks(states[i].p.queue, states[i].p.cfg.batchSize)
  {
    RemainingRun(states, actions, i, j);
    hide Quiet, Inv, Chunks, IsRun, Enabled, Step;
    var p, q := states[i].p, states[j].p;
    assert Total(q) == q.h.handed + [];
    assert Total(p) == p.h.handed + Remaining(p);
    var rest := Chunks(p.queue, p.cfg.batchSize);
    var head := if p.batch == [] then [] else [p.batch];
    assert p.h.handed + (head + rest) == p.h.handed + head + rest;
  }

  // ---------------------------------------------------------------- the drain ends

  /** Bounds the consumer's steps left after shutdown, with nobody adding to the queue. */
  function DrainMeasure<T>(p: Pipe<T>): nat {
    3 * |p.queue| +
    match p.pc
    case Fetching => 8
    case Handing(hand) => (match hand case Main => 7 case Leftover => 5 case DrainFull => 4 case Final => 1)
    case Looping => 6
    case Draining => 3
    case _ => 0
  }

  predicate ConsumerStep<T>(a: Action<T>) {
    a.Heading? || a.Receiving? || a.ReceiveExpires? || a.Finishing? || a.Polling?
  }

  /** Once shut down, a consumer that has not finished can always go on, and each of its steps brings
      the end nearer; no other step but a producer's arrival moves the end away. */
  lemma DrainTerminates<T(!new)>(s: Sys<T>)
    requires Inv(s) && s.p.shutdown && s.p.running
    ensures Finished(s.p.pc) || exists a :: ConsumerStep(a) && Enabled(s, a)
    ensures forall a | ConsumerStep(a) && Enabled(s, a) :: DrainMeasure(Step(s, a).p) < DrainMeasure(s.p)
    ensures forall a | Quiet(s) && Enabled(s, a) && !a.Starting? :: DrainMeasure(Step(s, a).p) <= DrainMeasure(s.p)
  {
    if !Finished(s.p.pc) {
      var a: Action<T> :=
        match s.p.pc
        case Looping => Heading
        case Fetching => ReceiveExpires(true)
        case Handing(_) => Finishing(Returned)
        case _ => Polling;
      assert ConsumerStep(a) && Enabled(s, a);
    }
  }

  // ---------------------------------------------------------------- an item left behind

  const STRAND_CONFIG := Config(1, 1, false, false)

  /** Producer 1 finds the queue full before `stop` is called and wakes up after the drain. */
  const STRAND_ACTIONS: seq<Action<int>> := [
    Starting, Putting(0, 1), Putting(1, 2), Stopping(true), Heading, Polling, Finishing(Returned), Polling, Waking(1)]

  /** The consumer at `pc` with the queue and the batch; `m` batches of one item were processed. */
  function StrandState(queue: seq<int>, shutdown: bool, pc: Pc, batch: seq<int>, done: bool, h: History<int>,
                       waiting: Producer<int>, puts: nat): Sys<int>
  {
    Sys(Pipe(STRAND_CONFIG, queue, true, shutdown, pc, batch, if done then Counters(1, 1, 0) else Counters(0, 0, 0), h),
        [Ready, waiting], puts)
  }

  const STRAND_LOG := [Segment([1], Settled)]

  const STRAND_STATES: seq<Sys<int>> := [
    Begin(STRAND_CONFIG, 2),
    StrandState([], false, Looping, [], false, History([], [], [], 0, []), Ready, 0),
    StrandState([1], false, Looping, [], false, History([1], [], [], 0, []), Ready, 1),
    StrandState([1], false, Looping, [], false, History([1], [], [], 0, []), Blocked(2), 2),
    StrandState([1], true, Looping, [], false, History([1], [], [], 0, []), Blocked(2), 2),
    StrandState([1], true, Draining, [], false, History([1], [], [], 0, []), Blocked(2), 2),
    StrandState([], true, Handing(DrainFull), [1], false, History([1], [], [[1]], 0, []), Blocked(2), 2),
    StrandState([], true, Draining, [], true, History([1], STRAND_LOG, [[1]], 0, []), Blocked(2), 2),
    StrandState([], true, Stopped, [], true, History([1], STRAND_LOG, [[1]], 0, []), Blocked(2), 2),
    StrandState([2], true, Stopped, [], true, History([1, 2], STRAND_LOG, [[1]], 0, [2]), Ready, 2)]

  lemma StrandStepProducers(k: nat)
    requires k < 4
    ensures Enabled(STRAND_STATES[k], STRAND_ACTIONS[k])
    ensures STRAND_STATES[k + 1] == Step(STRAND_STATES[k], STRAND_ACTIONS[k])
  {
    assert STRAND_STATES[0].producers == [Ready, Ready];
  }

  lemma StrandStepDrain(k: nat)
    requires 4 <= k < 7
    ensures Enabled(STRAND_STATES[k], STRAND_ACTIONS[k])
    ensures STRAND_STATES[k + 1] == Step(STRAND_STATES[k], STRAND_ACTIONS[k])
  {
    var none: seq<int>, noBatch: seq<seq<int>>, noLog: seq<Segment<int>> := [], [], [];
    assert [1][1..] == [] && none + [1] == [1];
    assert noBatch + [[1]] == [[1]] && noLog + STRAND_LOG == STRAND_LOG;
    if k == 4 {
      assert STRAND_ACTIONS[k] == Heading;
    } else if k == 5 {
      assert STRAND_ACTIONS[k] == Polling;
    } else {
      assert STRAND_ACTIONS[k] == Finishing(Returned);
    }
  }

  lemma StrandStepLate(k: nat)
    requires 7 <= k < 9
    ensures Enabled(STRAND_STATES[k], STRAND_ACTIONS[k])
    ensures STRAND_STATES[k + 1] == Step(STRAND_STATES[k], STRAND_ACTIONS[k])
  {
  }

  /** A run of a fresh pipeline in which `put` accepts an item that is never taken out again. */
  lemma BlockedItemIsStranded()
    ensures IsRun(STRAND_STATES, STRAND_ACTIONS) && STRAND_STATES[0] == Begin(STRAND_CONFIG, 2)
    ensures var p := STRAND_STATES[9].p;
            p.pc.Stopped? && p.h.accepted == [1, 2] && p.h.handed == [[1]] && p.queue == [2]
    ensures STRAND_STATES[3].producers[1].Blocked? && !STRAND_STATES[3].p.shutdown && STRAND_STATES[4].p.shutdown
  {
    hide Step, Enabled;
    forall k | 0 <= k < 9
      ensures Enabled(STRAND_STATES[k], STRAND_ACTIONS[k])
      ensures STRAND_STATES[k + 1] == Step(STRAND_STATES[k], STRAND_ACTIONS[k])
    {
      if k < 4 {
        StrandStepProducers(k);
      } else if k < 7 {
        StrandStepDrain(k);
      } else {
        StrandStepLate(k);
      }
    }
  }
}
