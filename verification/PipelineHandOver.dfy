/** Exactly which runs hand every item over once, and in batches of the configured size. */
module PipelineHandOver {
  import opened Common
  import opened Pipelines
  import opened PipelineSystem
  import opened PipelineProperties

  /** `on_batch` failed in the main loop, the error callback raised, and the outer one swallowed it:
      the batch stays with the consumer. */
  predicate KeepsBatch<T(==)>(s: Sys<T>, a: Action<T>) {
    a == Finishing(Failed(true, false)) && s.p.pc == Handing(Main) && s.p.cfg.hasOnError
  }

  /** `stop(drain=False)` hits a consumer that has items in its batch. */
  predicate Cancels<T(==)>(s: Sys<T>, a: Action<T>) {
    a == Stopping(false) && s.p.running && !Finished(s.p.pc) && s.p.batch != []
  }

  /** An item is received on top of a batch that is already full. */
  predicate Overfills<T>(s: Sys<T>, a: Action<T>) {
    a.Receiving? && |s.p.batch| >= s.p.cfg.batchSize
  }

  // ---------------------------------------------------------------- exactly once

  /** The consumer's batch, once `on_batch` was called with it. */
  function Current<T>(p: Pipe<T>): seq<T> { if InHand(p.pc) then p.batch else [] }

  /** Every item given up or in hand was handed over once, in order. */
  predicate HandedOnce<T(==)>(p: Pipe<T>) {
    Flatten(p.h.handed) == Items(p.h.log) + Current(p)
  }

  lemma {:induction false} FlattenBatches<T>(log: seq<Segment<T>>)
    ensures Flatten(Batches(log)) == Items(log)
  {
    if log != [] {
      FlattenBatches(log[1..]);
      assert Batches(log)[1..] == Batches(log[1..]);
    }
  }

  /** How many batches were kept before state `j`. */
  function KeepCount<T(==)>(states: seq<Sys<T>>, actions: seq<Action<T>>, j: nat): nat
    requires j <= |actions| <= |states|
  {
    if j == 0 then 0
    else KeepCount(states, actions, j - 1) + if KeepsBatch(states[j - 1], actions[j - 1]) then 1 else 0
  }

  lemma KeptStep<T(!new)>(s: Sys<T>, a: Action<T>)
    requires Enabled(s, a)
    ensures Step(s, a).p.h.kept == s.p.h.kept + if KeepsBatch(s, a) then 1 else 0
  {
  }

  lemma {:induction false} KeptIsCount<T(!new)>(states: seq<Sys<T>>, actions: seq<Action<T>>, j: nat)
    requires IsRun(states, actions) && j < |states|
    ensures states[j].p.h.kept == states[0].p.h.kept + KeepCount(states, actions, j)
    ensures KeepCount(states, actions, j) == 0 <==> forall k | 0 <= k < j :: !KeepsBatch(states[k], actions[k])
  {
    if j > 0 {
      hide KeepsBatch, Step, Enabled;
      KeptIsCount(states, actions, j - 1);
      KeptStep(states[j - 1], actions[j - 1]);
      assert states[j] == Step(states[j - 1], actions[j - 1]);
    }
  }

  lemma CancelStep<T(!new)>(s: Sys<T>, a: Action<T>)
    requires Control(s.p) && Enabled(s, a) && NothingLost(s.p)
    ensures NothingLost(Step(s, a).p) <==> !Cancels(s, a)
  {
    if a.Finishing? {
      assert forall i | 0 <= i < |s.p.h.log| :: Step(s, a).p.h.log[i] == s.p.h.log[i];
    }
  }

  /** Items are lost exactly when a stop without drain hits a consumer with items in its batch. */
  lemma {:induction false} LostExactlyWhenCancelled<T(!new)>(states: seq<Sys<T>>, actions: seq<Action<T>>, j: nat)
    requires IsRun(states, actions) && Inv(states[0]) && NothingLost(states[0].p) && j < |states|
    ensures NothingLost(states[j].p) <==> forall k | 0 <= k < j :: !Cancels(states[k], actions[k])
  {
    if j > 0 {
      hide NothingLost, Cancels, Step, Enabled;
      LostExactlyWhenCancelled(states, actions, j - 1);
      RunKeepsInv(states, actions, j - 1);
      assert states[j] == Step(states[j - 1], actions[j - 1]);
      if NothingLost(states[j - 1].p) {
        CancelStep(states[j - 1], actions[j - 1]);
      } else {
        LostStaysLost(states[j - 1], actions[j - 1]);
      }
    }
  }

  lemma OnceExactlyWhenNoneKept<T(!new)>(p: Pipe<T>)
    requires HandedOk(p) && NothingLost(p)
    ensures |p.h.handed| == |p.h.log| + p.h.kept + if InHand(p.pc) then 1 else 0
    ensures HandedOnce(p) <==> p.h.kept == 0
  {
    FlattenBatches(p.h.log);
    FlattenSnoc(Batches(p.h.log), p.batch);
    assert Batches(p.h.log) + [] == Batches(p.h.log);
    hide Flatten;
  }

  /** Over a run without cancellation every item is handed over exactly once if and only if the error
      callback never raised in the main loop (with the outer one not raising), and every time it did
      one more hand-over was made. */
  lemma HandedExactlyOnce<T(!new)>(cfg: Config, n: nat, states: seq<Sys<T>>, actions: seq<Action<T>>, j: nat)
    requires ValidConfig(cfg) && IsRun(states, actions) && states[0] == Begin(cfg, n) && j < |states|
    requires forall k | 0 <= k < j :: !Cancels(states[k], actions[k])
    ensures HandedOnce(states[j].p) <==> forall k | 0 <= k < j :: !KeepsBatch(states[k], actions[k])
    ensures var p := states[j].p;
            |p.h.handed| == |p.h.log| + KeepCount(states, actions, j) + if InHand(p.pc) then 1 else 0
  {
    hide KeepsBatch, Cancels, HandedOnce;
    BeginInv<T>(cfg, n);
    RunKeepsInv(states, actions, j);
    KeptIsCount(states, actions, j);
    LostExactlyWhenCancelled(states, actions, j);
    hide NothingLost, HandedOk;
    OnceExactlyWhenNoneKept(states[j].p);
  }

  /** When nobody was waiting in `put` at the call of `stop`, the drain has handed over every accepted
      item exactly once and in order if and only if no batch was kept on the way. */
  lemma DrainHandsOverExactlyOnce<T(!new)>(cfg: Config, n: nat, states: seq<Sys<T>>, actions: seq<Action<T>>,
                                           i: nat, j: nat)
    requires ValidConfig(cfg) && IsRun(states, actions) && states[0] == Begin(cfg, n) && i <= j < |states|
    requires Quiet(states[i]) && !DrainOver(states[i].p.pc) && states[j].p.pc.Stopped?
    requires forall k | i <= k < j :: !actions[k].Starting?
    requires forall k | 0 <= k < j :: !Cancels(states[k], actions[k])
    ensures Flatten(states[j].p.h.handed) == states[i].p.h.accepted
            <==> forall k | 0 <= k < j :: !KeepsBatch(states[k], actions[k])
  {
    hide KeepsBatch, Cancels, Quiet;
    BeginInv<T>(cfg, n);
    DrainDeliversEverything(states, actions, i, j);
    HandedExactlyOnce(cfg, n, states, actions, j);
    assert Items(states[j].p.h.log) + [] == Items(states[j].p.h.log);
  }

  // ---------------------------------------------------------------- batch sizes

  /** What holds as long as no batch was overfilled. */
  predicate Fits<T>(p: Pipe<T>) {
    && |p.batch| <= p.cfg.batchSize
    && AllSized(p.h.handed, p.cfg.batchSize)
    && AverageOk(p.m, p.cfg.batchSize)
  }

  lemma FitStep<T(!new)>(s: Sys<T>, a: Action<T>)
    requires ValidConfig(s.p.cfg) && Control(s.p) && Fits(s.p) && Enabled(s, a)
    ensures Overfills(s, a) ==> !AllSized(Step(s, a).p.h.handed, s.p.cfg.batchSize)
    ensures !Overfills(s, a) ==> Fits(Step(s, a).p)
  {
    var n := s.p.cfg.batchSize;
    if Overfills(s, a) {
      var handed := Step(s, a).p.h.handed;
      assert !Sized(handed[|handed| - 1], n);
    } else {
      assert AverageOk(s.p.m.(dropped := s.p.m.dropped + 1), n);
      AverageStep(s.p.m, n, |s.p.batch|);
      hide AverageOk;
    }
  }

  lemma {:induction false} FitsUntilOverfilled<T(!new)>(states: seq<Sys<T>>, actions: seq<Action<T>>, j: nat)
    requires IsRun(states, actions) && Inv(states[0]) && Fits(states[0].p) && j < |states|
    requires forall k | 0 <= k < j :: !Overfills(states[k], actions[k])
    ensures Fits(states[j].p)
  {
    if j > 0 {
      hide Fits, Overfills, Step, Enabled;
      FitsUntilOverfilled(states, actions, j - 1);
      RunKeepsInv(states, actions, j - 1);
      FitStep(states[j - 1], actions[j - 1]);
      assert states[j] == Step(states[j - 1], actions[j - 1]);
    }
  }

  /** All batches handed over during a run have between one and `batchSize` items if and only if no
      item is ever received on top of a full batch; then the reported average is within the size. */
  lemma SizedExactlyUnlessOverfilled<T(!new)>(states: seq<Sys<T>>, actions: seq<Action<T>>)
    requires IsRun(states, actions) && Inv(states[0]) && Fits(states[0].p)
    ensures (forall j | 0 <= j < |states| :: AllSized(states[j].p.h.handed, states[0].p.cfg.batchSize))
            <==> forall k | 0 <= k < |actions| :: !Overfills(states[k], actions[k])
    ensures (forall k | 0 <= k < |actions| :: !Overfills(states[k], actions[k])) ==>
              forall j | 0 <= j < |states| :: Average(states[j].p.m) <= states[0].p.cfg.batchSize as real
  {
    hide AllSized, Overfills, Average, Step, Enabled;
    if k :| 0 <= k < |actions| && Overfills(states[k], actions[k]) {
      FirstOverfill(states, actions, k);
    } else {
      forall j | 0 <= j < |states|
        ensures AllSized(states[j].p.h.handed, states[0].p.cfg.batchSize)
        ensures Average(states[j].p.m) <= states[0].p.cfg.batchSize as real
      {
        FitsUntilOverfilled(states, actions, j);
        RunKeepsInv(states, actions, j);
        AverageMeans(states[j].p.m, states[j].p.cfg.batchSize);
      }
    }
  }

  /** The first overfilled batch is handed over at once. */
  lemma {:induction false} FirstOverfill<T(!new)>(states: seq<Sys<T>>, actions: seq<Action<T>>, k: nat)
    requires IsRun(states, actions) && Inv(states[0]) && Fits(states[0].p)
    requires k < |actions| && Overfills(states[k], actions[k])
    ensures exists j :: 0 <= j < |states| && !AllSized(states[j].p.h.handed, states[0].p.cfg.batchSize)
  {
    hide AllSized, Overfills, Fits, Step, Enabled;
    if i: nat :| i < k && Overfills(states[i], actions[i]) {
      FirstOverfill(states, actions, i);
    } else {
      FitsUntilOverfilled(states, actions, k);
      RunKeepsInv(states, actions, k);
      FitStep(states[k], actions[k]);
      assert states[k + 1] == Step(states[k], actions[k]);
    }
  }

  /** The average batch size that is reported. */
  function Average(m: Counters): real {
    if m.batchesProcessed > 0 then m.itemsProcessed as real / m.batchesProcessed as real else 0.0
  }

  lemma AverageMeans(m: Counters, n: nat)
    ensures AverageOk(m, n) ==> Average(m) <= n as real
    ensures m.batchesProcessed > 0 && Average(m) <= n as real ==> AverageOk(m, n)
  {
    assert (n * m.batchesProcessed) as real == n as real * m.batchesProcessed as real;
  }

  // ---------------------------------------------------------------- what the configuration decides

  ghost predicate Reachable<T(!new)>(cfg: Config, n: nat, s: Sys<T>) {
    exists states: seq<Sys<T>>, actions: seq<Action<T>> :: RunTo(cfg, n, s, states, actions)
  }

  ghost predicate RunTo<T(!new)>(cfg: Config, n: nat, s: Sys<T>, states: seq<Sys<T>>, actions: seq<Action<T>>) {
    IsRun(states, actions) && states[0] == Begin(cfg, n) && states[|actions|] == s
  }

  lemma ReachStart<T(!new)>(cfg: Config, n: nat)
    ensures Reachable<T>(cfg, n, Begin(cfg, n))
  {
    var none: seq<Action<T>> := [];
    assert RunTo(cfg, n, Begin(cfg, n), [Begin<T>(cfg, n)], none);
  }

  lemma ReachStep<T(!new)>(cfg: Config, n: nat, s: Sys<T>, a: Action<T>)
    requires Reachable(cfg, n, s) && Enabled(s, a)
    ensures Reachable(cfg, n, Step(s, a))
  {
    hide Step, Enabled;
    var states: seq<Sys<T>>, actions: seq<Action<T>> :| RunTo(cfg, n, s, states, actions);
    assert RunTo(cfg, n, Step(s, a), states + [Step(s, a)], actions + [a]);
  }

  /** A running consumer about to fetch, with `k` items in its batch and nothing else anywhere. */
  predicate Filled<T>(cfg: Config, s: Sys<T>, k: nat) {
    && s.p.cfg == cfg && s.p.queue == [] && s.p.running && !s.p.shutdown && s.p.pc.Looping?
    && |s.p.batch| == k && s.p.h.log == [] && s.p.h.handed == [] && s.p.m == Counters(0, 0, 0)
    && |s.producers| > 0 && s.producers[0].Ready?
  }

  lemma OneMore<T(!new)>(s: Sys<T>, item: T)
    requires ValidConfig(s.p.cfg) && s.p.queue == [] && !s.p.shutdown && s.p.pc.Looping?
    requires |s.producers| > 0 && s.producers[0].Ready?
    ensures Enabled(s, Putting(0, item))
    ensures var t := Step(s, Putting(0, item));
            Enabled(t, Heading) && Enabled(Step(t, Heading), Receiving(false))
            && Step(Step(t, Heading), Receiving(false)) ==
               var p := Accept(s.p, item).(queue := [], batch := s.p.batch + [item], pc := Fetching);
               Sys(if |p.batch| >= p.cfg.batchSize then StartHand(p, Main) else p.(pc := Looping),
                   s.producers, s.puts + 1)
  {
  }

  lemma ReachOneMore<T(!new)>(cfg: Config, n: nat, s: Sys<T>, item: T)
    requires Reachable(cfg, n, s)
    requires ValidConfig(s.p.cfg) && s.p.queue == [] && !s.p.shutdown && s.p.pc.Looping?
    requires |s.producers| > 0 && s.producers[0].Ready?
    ensures var p := Accept(s.p, item).(queue := [], batch := s.p.batch + [item], pc := Fetching);
            Reachable(cfg, n, Sys(if |p.batch| >= p.cfg.batchSize then StartHand(p, Main) else p.(pc := Looping),
                                  s.producers, s.puts + 1))
  {
    OneMore(s, item);
    hide Step, Enabled, Reachable;
    var t := Step(s, Putting(0, item));
    ReachStep(cfg, n, s, Putting(0, item));
    ReachStep(cfg, n, t, Heading);
    ReachStep(cfg, n, Step(t, Heading), Receiving(false));
  }

  lemma {:induction false} ReachFilled<T(!new)>(cfg: Config, n: nat, item: T, k: nat) returns (s: Sys<T>)
    requires ValidConfig(cfg) && n >= 1 && k < cfg.batchSize
    ensures Reachable(cfg, n, s) && Filled(cfg, s, k)
  {
    if k == 0 {
      ReachStart<T>(cfg, n);
      ReachStep(cfg, n, Begin<T>(cfg, n), Starting);
      s := Step(Begin<T>(cfg, n), Starting);
    } else {
      var r := ReachFilled(cfg, n, item, k - 1);
      hide Reachable;
      ReachOneMore(cfg, n, r, item);
      var p := Accept(r.p, item).(queue := [], batch := r.p.batch + [item], pc := Looping);
      s := Sys(p, r.producers, r.puts + 1);
    }
  }

  /** With an error callback that raises, a full batch is kept and then handed over one item larger. */
  lemma ReachOvergrown<T(!new)>(cfg: Config, n: nat, item: T) returns (s: Sys<T>)
    requires ValidConfig(cfg) && cfg.hasOnError && n >= 1
    ensures Reachable(cfg, n, s) && s.p.pc == Handing(Main) && s.p.m == Counters(0, 0, 0)
    ensures |s.p.batch| == cfg.batchSize + 1 && s.p.h.log == [] && s.p.cfg == cfg
    ensures |s.p.h.handed| == 2 && |s.p.h.handed[0]| == cfg.batchSize && s.p.h.handed[1] == s.p.batch
  {
    var r := ReachFilled(cfg, n, item, cfg.batchSize - 1);
    hide Reachable;
    ReachOneMore(cfg, n, r, item);
    var p := Accept(r.p, item).(queue := [], batch := r.p.batch + [item], pc := Fetching);
    var full := Sys(StartHand(p, Main), r.producers, r.puts + 1);
    ReachStep(cfg, n, full, Finishing(Failed(true, false)));
    var kept := Step(full, Finishing(Failed(true, false)));
    ReachOneMore(cfg, n, kept, item);
    var q := Accept(kept.p, item).(queue := [], batch := kept.p.batch + [item], pc := Fetching);
    s := Sys(StartHand(q, Main), kept.producers, kept.puts + 1);
  }

  lemma WithoutCallback<T(!new)>(cfg: Config, n: nat, s: Sys<T>)
    requires ValidConfig(cfg) && !cfg.hasOnError && Reachable(cfg, n, s)
    ensures AllSized(s.p.h.handed, cfg.batchSize) && Average(s.p.m) <= cfg.batchSize as real
    ensures NothingLost(s.p) ==> HandedOnce(s.p)
  {
    hide AllSized, NothingLost, HandedOnce, Average;
    var states: seq<Sys<T>>, actions: seq<Action<T>> :| RunTo(cfg, n, s, states, actions);
    var j := |actions|;
    BeginInv<T>(cfg, n);
    RunKeepsInv(states, actions, j);
    forall k | 0 <= k < j
      ensures !KeepsBatch(states[k], actions[k])
    {
      RunKeepsInv(states, actions, k);
    }
    KeptIsCount(states, actions, j);
    AverageMeans(s.p.m, cfg.batchSize);
    if NothingLost(s.p) {
      OnceExactlyWhenNoneKept(s.p);
    }
  }

  /** Whatever producers, schedule and callbacks do: batches and their average stay within the batch
      size, and items are handed over at most once unless cancelled, if and only if the pipeline has no
      error callback. */
  lemma ConfigurationDecides<T(!new)>(cfg: Config, n: nat, item: T)
    requires ValidConfig(cfg) && n >= 1
    ensures (forall s: Sys<T> | Reachable(cfg, n, s) :: AllSized(s.p.h.handed, cfg.batchSize)) <==> !cfg.hasOnError
    ensures (forall s: Sys<T> | Reachable(cfg, n, s) :: Average(s.p.m) <= cfg.batchSize as real) <==> !cfg.hasOnError
    ensures (forall s: Sys<T> | Reachable(cfg, n, s) && NothingLost(s.p) :: HandedOnce(s.p)) <==> !cfg.hasOnError
  {
    if cfg.hasOnError {
      CallbackBreaks(cfg, n, item);
    } else {
      forall s: Sys<T> | Reachable(cfg, n, s)
        ensures AllSized(s.p.h.handed, cfg.batchSize) && Average(s.p.m) <= cfg.batchSize as real
        ensures NothingLost(s.p) ==> HandedOnce(s.p)
      {
        WithoutCallback(cfg, n, s);
      }
    }
  }

  lemma CallbackBreaks<T(!new)>(cfg: Config, n: nat, item: T)
    requires ValidConfig(cfg) && cfg.hasOnError && n >= 1
    ensures exists s: Sys<T> :: Reachable(cfg, n, s) && !AllSized(s.p.h.handed, cfg.batchSize)
    ensures exists s: Sys<T> :: Reachable(cfg, n, s) && Average(s.p.m) > cfg.batchSize as real
    ensures exists s: Sys<T> :: Reachable(cfg, n, s) && NothingLost(s.p) && !HandedOnce(s.p)
  {
    var s := ReachOvergrown(cfg, n, item);
    hide Reachable;
    assert !Sized(s.p.h.handed[1], cfg.batchSize);
    TwoFlattened(s.p.h.handed);
    ReachStep(cfg, n, s, Finishing(Returned));
    var t := Step(s, Finishing(Returned));
    assert t.p.m == Counters(cfg.batchSize + 1, 1, 0);
    assert Average(t.p.m) > cfg.batchSize as real;
  }

  lemma TwoFlattened<T>(ss: seq<seq<T>>)
    requires |ss| == 2
    ensures |Flatten(ss)| == |ss[0]| + |ss[1]|
  {
    assert Flatten(ss) == ss[0] + Flatten(ss[1..]);
    assert Flatten(ss[1..]) == ss[1] + Flatten(ss[1..][1..]);
  }
}
