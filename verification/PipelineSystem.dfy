/** Any number of producers, the consumer and the callers of `stop` and `start`, interleaved. */
module PipelineSystem {
  import opened Common
  import opened Pipelines

  /** A producer that found the queue full waits with its item. */
  datatype Producer<T> = Ready | Blocked(item: T)

  /** `puts` counts the calls of `put` that did not raise. */
  datatype Sys<T> = Sys(p: Pipe<T>, producers: seq<Producer<T>>, puts: nat)

  datatype Action<T> =
    | Putting(w: nat, item: T)
    | Waking(w: nat)
    | PutExpires(w: nat)
    | Heading
    | Receiving(timeUp: bool)
    | ReceiveExpires(timeUp: bool)
    | Finishing(o: Outcome)
    | Polling
    | Stopping(drain: bool)
    | StopReturns
    | Starting

  predicate IsBlocked<T>(w: Producer<T>) { w.Blocked? }

  predicate Enabled<T>(s: Sys<T>, a: Action<T>) {
    match a
    case Putting(w, _) => w < |s.producers| && s.producers[w].Ready?
    case Waking(w) => w < |s.producers| && s.producers[w].Blocked? && |s.p.queue| < s.p.cfg.maxQueue
    case PutExpires(w) => w < |s.producers| && s.producers[w].Blocked?
    case Heading => s.p.pc.Looping?
    case Receiving(_) => s.p.pc.Fetching? && s.p.queue != []
    case ReceiveExpires(_) => s.p.pc.Fetching?
    case Finishing(_) => s.p.pc.Handing?
    case Polling => s.p.pc.Draining?
    case Stopping(_) => true
    case StopReturns => s.p.running && s.p.shutdown && (s.p.pc.Stopped? || s.p.pc.Cancelled?)
    case Starting => true
  }

  function StepPut<T>(s: Sys<T>, w: nat, item: T): Sys<T>
    requires w < |s.producers|
  {
    var (p, r) := Put(s.p, item);
    Sys(p, if r.Blocks? then s.producers[w := Blocked(item)] else s.producers,
        s.puts + if r.Raises? then 0 else 1)
  }

  function Step<T>(s: Sys<T>, a: Action<T>): Sys<T>
    requires Enabled(s, a)
  {
    match a
    case Putting(w, item) => StepPut(s, w, item)
    case Waking(w) => s.(p := Accept(s.p, s.producers[w].item), producers := s.producers[w := Ready])
    case PutExpires(w) => s.(p := Drop(s.p), producers := s.producers[w := Ready])
    case Heading => s.(p := CheckShutdown(s.p))
    case Receiving(timeUp) => s.(p := AfterFetch(Pop(s.p), timeUp))
    case ReceiveExpires(timeUp) => s.(p := AfterFetch(s.p, timeUp))
    case Finishing(o) => s.(p := FinishHand(s.p, o))
    case Polling => s.(p := DrainPoll(s.p))
    case Stopping(drain) => s.(p := StopBegin(s.p, drain))
    case StopReturns => s.(p := StopEnd(s.p))
    case Starting => s.(p := Start(s.p))
  }

  function Begin<T>(cfg: Config, n: nat): Sys<T> {
    Sys(Fresh(cfg), seq(n, _ => Ready), 0)
  }

  ghost predicate IsRun<T(!new)>(states: seq<Sys<T>>, actions: seq<Action<T>>) {
    && |states| == |actions| + 1
    && forall i | 0 <= i < |actions| :: Enabled(states[i], actions[i]) && states[i + 1] == Step(states[i], actions[i])
  }

  // ---------------------------------------------------------------- the invariant

  /** Everything accepted is, in order, in a batch given up, in the consumer's batch or in the queue. */
  predicate Fifo<T(==)>(p: Pipe<T>) {
    InOrder(p.h.accepted, p.h.log, p.batch, p.queue)
  }

  predicate InOrder<T(==)>(accepted: seq<T>, log: seq<Segment<T>>, batch: seq<T>, queue: seq<T>) {
    accepted == Items(log) + batch + queue
  }

  predicate Control<T>(p: Pipe<T>) {
    && |p.queue| <= p.cfg.maxQueue
    && (p.pc.NotStarted? ==> p.batch == [] && !p.running)
    && (p.pc.Stopped? ==> p.batch == [])
    && (p.pc.Handing? || p.pc.Crashed? ==> p.batch != [])
    && (p.pc.Draining? ==> |p.batch| < p.cfg.batchSize)
    && (p.pc == Handing(DrainFull) ==> |p.batch| == p.cfg.batchSize)
    && (p.pc == Handing(Final) ==> |p.batch| < p.cfg.batchSize)
    && ((p.pc.Handing? && p.pc.hand != Main) || p.pc.Draining? || p.pc.Stopped? ==> p.shutdown)
    && (!p.running ==> p.pc.NotStarted? || p.pc.Stopped? || p.pc.Cancelled?)
  }

  /** What entered the queue since the drain found it empty is all that is in it. */
  predicate LateIsQueue<T(==)>(p: Pipe<T>) {
    DrainOver(p.pc) ==> p.queue == p.h.late
  }

  predicate InHand(pc: Pc) { pc.Handing? || pc.Crashed? }

  /** No consumer was cancelled with items in its batch. */
  predicate NothingLost<T(==)>(p: Pipe<T>) {
    (p.pc.Cancelled? ==> p.batch == []) && forall i | 0 <= i < |p.h.log| :: p.h.log[i].fate != Lost
  }

  /** Hand-overs against batches: each batch given up was handed over once, plus once more for every
      time it was kept, and then at least one item too many was handed over. */
  predicate HandedOk<T(==)>(p: Pipe<T>) {
    NothingLost(p) ==> Matched(p.h.handed, p.h.log, p.h.kept, if InHand(p.pc) then [p.batch] else [])
  }

  predicate Matched<T(==)>(handed: seq<seq<T>>, log: seq<Segment<T>>, kept: nat, current: seq<seq<T>>) {
    && |handed| == |log| + kept + |current|
    && (kept == 0 ==> handed == Batches(log) + current)
    && |Flatten(handed)| >= |Flatten(Batches(log) + current)| + kept
  }

  predicate Sized<T>(b: seq<T>, n: nat) { 1 <= |b| <= n }

  predicate SizesOk<T>(p: Pipe<T>) {
    p.h.kept == 0 ==>
      && |p.batch| <= p.cfg.batchSize
      && (p.pc.Looping? || p.pc.Fetching? ==> |p.batch| < p.cfg.batchSize)
      && AllSized(p.h.handed, p.cfg.batchSize)
      && AverageOk(p.m, p.cfg.batchSize)
  }

  predicate AllSized<T>(bs: seq<seq<T>>, n: nat) {
    forall i | 0 <= i < |bs| :: Sized(bs[i], n)
  }

  predicate AverageOk(m: Counters, n: nat) { m.itemsProcessed <= n * m.batchesProcessed }

  predicate PutsOk<T(!new)>(s: Sys<T>) {
    s.puts == |s.p.h.accepted| + s.p.m.dropped + Count(s.producers, IsBlocked)
  }

  predicate Inv<T(!new, ==)>(s: Sys<T>) {
    && ValidConfig(s.p.cfg)
    && Fifo(s.p) && Control(s.p) && LateIsQueue(s.p) && HandedOk(s.p) && SizesOk(s.p) && PutsOk(s)
  }

  lemma BeginInv<T(!new)>(cfg: Config, n: nat)
    requires ValidConfig(cfg)
    ensures Inv<T>(Begin(cfg, n))
  {
    var s := Begin<T>(cfg, n);
    CountZero(s.producers, IsBlocked);
    assert Batches(s.p.h.log) == [];
  }

  // one conjunct at a time

  lemma AcceptFifo<T>(p: Pipe<T>, item: T)
    requires Fifo(p)
    ensures Fifo(Accept(p, item))
  {
    assert p.h.accepted + [item] == Items(p.h.log) + p.batch + (p.queue + [item]);
  }

  lemma PopFifo<T>(p: Pipe<T>)
    requires Fifo(p) && p.queue != []
    ensures Fifo(Pop(p))
  {
    assert p.batch + p.queue == (p.batch + [p.queue[0]]) + p.queue[1..];
    assert Items(p.h.log) + p.batch + p.queue == Items(p.h.log) + (p.batch + p.queue);
  }

  lemma GiveUpFifo<T>(p: Pipe<T>, fate: Fate)
    requires Fifo(p)
    ensures Fifo(GiveUp(p, fate))
  {
    ItemsSnoc(p.h.log, Segment(p.batch, fate));
  }

  lemma StepFifo<T(!new)>(s: Sys<T>, a: Action<T>)
    requires Fifo(s.p) && Control(s.p) && Enabled(s, a)
    ensures Fifo(Step(s, a).p)
    ensures s.p.h.accepted <= Step(s, a).p.h.accepted
  {
    var p := s.p;
    hide InOrder;
    match a
    case Putting(w, item) => AcceptFifo(p, item);
    case Waking(w) => AcceptFifo(p, s.producers[w].item);
    case Receiving(_) => PopFifo(p);
    case Polling => if p.queue != [] { PopFifo(p); }
    case Finishing(_) => GiveUpFifo(p, Settled); GiveUpFifo(p, Suppressed);
    case Starting => GiveUpFifo(p, Lost);
    case _ =>
  }

  lemma StepControl<T(!new)>(s: Sys<T>, a: Action<T>)
    requires Control(s.p) && ValidConfig(s.p.cfg) && Enabled(s, a)
    ensures Control(Step(s, a).p)
  {
  }

  lemma StepLate<T(!new)>(s: Sys<T>, a: Action<T>)
    requires Control(s.p) && LateIsQueue(s.p) && Enabled(s, a)
    ensures LateIsQueue(Step(s, a).p)
  {
  }

  lemma BatchesSnoc<T>(log: seq<Segment<T>>, g: Segment<T>)
    ensures Batches(log + [g]) == Batches(log) + [g.items]
  {
  }

  lemma GiveUpHanded<T(!new)>(p: Pipe<T>, fate: Fate)
    requires InHand(p.pc) && HandedOk(p)
    ensures NothingLost(p) ==> Matched(p.h.handed, p.h.log + [Segment(p.batch, fate)], p.h.kept, [])
  {
    BatchesSnoc(p.h.log, Segment(p.batch, fate));
    assert Batches(p.h.log) + [p.batch] + [] == Batches(p.h.log) + [p.batch];
    hide Flatten;
  }

  lemma StartHandHanded<T(!new)>(p: Pipe<T>, hand: Hand)
    requires !InHand(p.pc) && !p.pc.Cancelled? && HandedOk(p)
    ensures HandedOk(StartHand(p, hand))
  {
    if NothingLost(StartHand(p, hand)) {
      assert NothingLost(p);
      assert Batches(p.h.log) + [] + [p.batch] == Batches(p.h.log) + [p.batch];
      assert Batches(p.h.log) + [] == Batches(p.h.log);
      FlattenSnoc(Batches(p.h.log), p.batch);
      FlattenSnoc(p.h.handed, p.batch);
      hide Flatten;
    }
  }

  lemma KeepHanded<T(!new)>(p: Pipe<T>)
    requires p.pc.Handing? && p.batch != [] && HandedOk(p) && NothingLost(p)
    ensures Matched(p.h.handed, p.h.log, p.h.kept + 1, [])
  {
    FlattenSnoc(Batches(p.h.log), p.batch);
    assert Batches(p.h.log) + [] == Batches(p.h.log);
    hide Flatten;
  }

  lemma PollHanded<T(!new)>(p: Pipe<T>)
    requires p.pc.Draining? && HandedOk(p)
    ensures HandedOk(DrainPoll(p))
  {
    if p.queue == [] {
      StartHandHanded(p.(h := p.h.(late := [])), Final);
    } else {
      StartHandHanded(Pop(p), DrainFull);
    }
  }

  lemma FinishHanded<T(!new)>(p: Pipe<T>, o: Outcome)
    requires p.pc.Handing? && p.batch != [] && HandedOk(p) && NothingLost(p)
    ensures HandedOk(FinishHand(p, o))
  {
    KeepHanded(p);
    GiveUpHanded(p, Settled);
    GiveUpHanded(p, Suppressed);
  }

  lemma LostStaysLost<T(!new)>(s: Sys<T>, a: Action<T>)
    requires Enabled(s, a) && !NothingLost(s.p)
    ensures !NothingLost(Step(s, a).p)
  {
    var p, p' := s.p, Step(s, a).p;
    if i :| 0 <= i < |p.h.log| && p.h.log[i].fate == Lost {
      assert p'.h.log[i] == p.h.log[i];
    } else if a.Starting? && !p.running {
      assert p'.h.log[|p.h.log|].fate == Lost;
    }
  }

  lemma StepHanded<T(!new)>(s: Sys<T>, a: Action<T>)
    requires Control(s.p) && HandedOk(s.p) && Enabled(s, a)
    ensures HandedOk(Step(s, a).p)
  {
    var p, p' := s.p, Step(s, a).p;
    if NothingLost(p') {
      if !NothingLost(p) {
        LostStaysLost(s, a);
      }
      hide Matched, NothingLost;
      match a
      case Heading => StartHandHanded(p, Leftover);
      case Receiving(_) => StartHandHanded(Pop(p), Main);
      case ReceiveExpires(_) => StartHandHanded(p, Main);
      case Polling => PollHanded(p);
      case Finishing(o) => FinishHanded(p, o);
      case _ =>
    }
  }

  lemma AverageStep(m: Counters, n: nat, k: nat)
    requires AverageOk(m, n) && k <= n
    ensures AverageOk(m.(itemsProcessed := m.itemsProcessed + k, batchesProcessed := m.batchesProcessed + 1), n)
  {
    assert n * (m.batchesProcessed + 1) == n * m.batchesProcessed + n;
  }

  lemma StepSizes<T(!new)>(s: Sys<T>, a: Action<T>)
    requires ValidConfig(s.p.cfg) && Control(s.p) && SizesOk(s.p) && Enabled(s, a)
    ensures SizesOk(Step(s, a).p)
  {
    if s.p.h.kept == 0 {
      assert AverageOk(s.p.m.(dropped := s.p.m.dropped + 1), s.p.cfg.batchSize);
      AverageStep(s.p.m, s.p.cfg.batchSize, |s.p.batch|);
      hide AverageOk;
    }
  }

  lemma StepPuts<T(!new)>(s: Sys<T>, a: Action<T>)
    requires Inv(s) && Enabled(s, a)
    ensures PutsOk(Step(s, a))
  {
    var s' := Step(s, a);
    match a
    case Putting(w, item) => CountUpdate(s.producers, w, Blocked(item), IsBlocked);
    case Waking(w) => CountUpdate(s.producers, w, Ready, IsBlocked);
    case PutExpires(w) => CountUpdate(s.producers, w, Ready, IsBlocked);
    case _ =>
  }

  lemma StepKeepsInv<T(!new)>(s: Sys<T>, a: Action<T>)
    requires Inv(s) && Enabled(s, a)
    ensures Inv(Step(s, a)) && Step(s, a).p.cfg == s.p.cfg
  {
    StepFifo(s, a);
    StepControl(s, a);
    StepLate(s, a);
    StepHanded(s, a);
    StepSizes(s, a);
    StepPuts(s, a);
  }
}
