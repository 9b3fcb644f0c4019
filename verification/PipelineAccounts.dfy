/** What the steps of a run do to the pipeline's batches and figures, told without its own functions. */
module PipelineAccounts {
  import opened Common
  import opened Pipelines
  import opened PipelineSystem

  // ---------------------------------------------------------------- when a batch is handed over

  predicate Fetches<T>(a: Action<T>) { a.Receiving? || a.ReceiveExpires? }

  /** The consumer's batch once the wait for an item has ended. */
  function BatchAfter<T>(s: Sys<T>, a: Action<T>): seq<T>
    requires Fetches(a) && (a.Receiving? ==> s.p.queue != [])
  {
    if a.Receiving? then s.p.batch + [s.p.queue[0]] else s.p.batch
  }

  /** The batch is due: it is full, or its time is up and it is not empty. */
  predicate IsDue<T(==)>(batch: seq<T>, size: nat, timeUp: bool) {
    batch != [] && (|batch| >= size || timeUp)
  }

  /** When the wait for an item ends, the batch with the item, if one came, is handed over exactly if it is
      due, and kept for the next turn otherwise. */
  lemma DueBatchIsHandedOver<T(!new)>(s: Sys<T>, a: Action<T>)
    requires Fetches(a) && Enabled(s, a)
    ensures var t, batch := Step(s, a), BatchAfter(s, a);
            var due := IsDue(batch, s.p.cfg.batchSize, a.timeUp);
            t.p.batch == batch && t.p.queue == (if a.Receiving? then s.p.queue[1..] else s.p.queue)
            && t.p.h.handed == s.p.h.handed + (if due then [batch] else [])
            && t.p.pc == if due then Handing(Main) else Looping
  {
    assert s.p.h.handed + [] == s.p.h.handed;
  }

  /** A hand-over of the main loop starts in no other way. */
  lemma MainHandOverStartsExactly<T(!new)>(s: Sys<T>, a: Action<T>)
    requires Enabled(s, a) && s.p.pc != Handing(Main)
    ensures Step(s, a).p.pc == Handing(Main) <==>
              Fetches(a) && IsDue(BatchAfter(s, a), s.p.cfg.batchSize, a.timeUp)
  {
  }

  // ---------------------------------------------------------------- producers

  predicate IsFull<T>(s: Sys<T>) { |s.p.queue| >= s.p.cfg.maxQueue }

  /** What enters the queue in one step: an item put while there is room, or one that was waiting. */
  function Enters<T>(s: Sys<T>, a: Action<T>): seq<T>
    requires Enabled(s, a)
  {
    match a
    case Putting(_, item) => if !s.p.shutdown && !IsFull(s) then [item] else []
    case Waking(w) => [s.producers[w].item]
    case _ => []
  }

  /** The step drops an item: a full queue that drops, or a put that gives up waiting. */
  predicate Drops<T>(s: Sys<T>, a: Action<T>) {
    (a.Putting? && !s.p.shutdown && IsFull(s) && s.p.cfg.dropOnFull) || a.PutExpires?
  }

  /** The step makes producer `w` wait. */
  predicate Blocks<T>(s: Sys<T>, a: Action<T>, w: nat) {
    a.Putting? && a.w == w && !s.p.shutdown && IsFull(s) && !s.p.cfg.dropOnFull
  }

  lemma PutStep<T(!new)>(s: Sys<T>, a: Action<T>)
    requires Enabled(s, a)
    ensures var t := Step(s, a);
            t.p.h.accepted == s.p.h.accepted + Enters(s, a)
            && t.p.m.dropped == s.p.m.dropped + (if Drops(s, a) then 1 else 0)
            && t.puts == s.puts + (if a.Putting? && !s.p.shutdown then 1 else 0)
            && |t.producers| == |s.producers| && t.p.cfg == s.p.cfg
  {
    assert s.p.h.accepted + [] == s.p.h.accepted;
  }

  /** A producer starts to wait exactly when the queue is full and does not drop, and it then waits with
      its item; it stops exactly when it wakes up or gives up. */
  lemma BlocksExactly<T(!new)>(s: Sys<T>, a: Action<T>, w: nat)
    requires Enabled(s, a) && w < |s.producers|
    ensures s.producers[w].Ready? ==> Step(s, a).producers[w] == if Blocks(s, a, w) then Blocked(a.item) else Ready
    ensures s.producers[w].Blocked? ==>
              Step(s, a).producers[w] == if a == Waking(w) || a == PutExpires(w) then Ready else s.producers[w]
  {
  }

  function Entered<T>(states: seq<Sys<T>>, actions: seq<Action<T>>, j: nat): seq<T>
    requires j <= |actions| <= |states| && forall k | 0 <= k < j :: Enabled(states[k], actions[k])
  {
    if j == 0 then [] else Entered(states, actions, j - 1) + Enters(states[j - 1], actions[j - 1])
  }

  function DropCount<T>(states: seq<Sys<T>>, actions: seq<Action<T>>, j: nat): nat
    requires j <= |actions| <= |states|
  {
    if j == 0 then 0 else DropCount(states, actions, j - 1) + if Drops(states[j - 1], actions[j - 1]) then 1 else 0
  }

  /** The accepted items are those put while there was room and those that waited and woke up, in order; the
      dropped ones are counted one by one; and with `drop_on_full` nobody ever waits. */
  lemma {:induction false} PutsAreAccountedFor<T(!new)>(cfg: Config, n: nat, states: seq<Sys<T>>,
                                                        actions: seq<Action<T>>,
                                                        j: nat)
    requires IsRun(states, actions) && states[0] == Begin(cfg, n) && j < |states|
    ensures states[j].p.h.accepted == Entered(states, actions, j)
    ensures states[j].p.m.dropped == DropCount(states, actions, j)
    ensures states[j].p.cfg == cfg && |states[j].producers| == n
    ensures cfg.dropOnFull ==> forall w | 0 <= w < n :: states[j].producers[w].Ready?
  {
    hide Step, Enabled, Enters, Drops;
    if j > 0 {
      var s, a := states[j - 1], actions[j - 1];
      PutsAreAccountedFor(cfg, n, states, actions, j - 1);
      PutStep(s, a);
      assert states[j] == Step(s, a);
      forall w | 0 <= w < n && cfg.dropOnFull
        ensures states[j].producers[w].Ready?
      {
        BlocksExactly(s, a, w);
      }
    }
  }

  // ---------------------------------------------------------------- the figures

  /** The step completes a batch: `on_batch` returned, or the error callback took care of its exception. */
  predicate Completes<T>(s: Sys<T>, a: Action<T>) {
    a.Finishing? && (a.o.Returned? || (s.p.cfg.hasOnError && !a.o.onErrorRaises))
  }

  /** The batches completed before state `j`, in order. */
  function Completed<T>(states: seq<Sys<T>>, actions: seq<Action<T>>, j: nat): seq<seq<T>>
    requires j <= |actions| <= |states|
  {
    if j == 0 then []
    else
      Completed(states, actions, j - 1)
      + if Completes(states[j - 1], actions[j - 1]) then [states[j - 1].p.batch] else []
  }

  lemma FigureStep<T(!new)>(s: Sys<T>, a: Action<T>)
    requires Enabled(s, a)
    ensures var m, d := Step(s, a).p.m, Completes(s, a);
            m.batchesProcessed == s.p.m.batchesProcessed + (if d then 1 else 0)
            && m.itemsProcessed == s.p.m.itemsProcessed + if d then |s.p.batch| else 0
  {
  }

  /** The reported figures are the number of batches completed and of the items in them. */
  lemma {:induction false} FiguresAreExact<T(!new)>(cfg: Config, n: nat, states: seq<Sys<T>>,
                                                    actions: seq<Action<T>>, j: nat)
    requires IsRun(states, actions) && states[0] == Begin(cfg, n) && j < |states|
    ensures states[j].p.m.batchesProcessed == |Completed(states, actions, j)|
    ensures states[j].p.m.itemsProcessed == |Flatten(Completed(states, actions, j))|
  {
    hide Step, Enabled, Completes, Flatten;
    if j > 0 {
      FiguresAreExact(cfg, n, states, actions, j - 1);
      FigureStep(states[j - 1], actions[j - 1]);
      assert states[j] == Step(states[j - 1], actions[j - 1]);
      var before := Completed(states, actions, j - 1);
      FlattenSnoc(before, states[j - 1].p.batch);
      assert before + [] == before;
    } else {
      NothingFlattened<T>();
    }
  }

  lemma NothingFlattened<T>()
    ensures Flatten<T>([]) == []
  {
  }

  // ---------------------------------------------------------------- the consumer's end

  /** `on_batch` failed in the main loop and nobody took care of its exception. */
  predicate Kills<T>(s: Sys<T>, a: Action<T>) {
    a.Finishing? && s.p.pc == Handing(Main) && a.o.Failed?
    && (!s.p.cfg.hasOnError || (a.o.onErrorRaises && a.o.outerRaises))
  }

  lemma KillStep<T(!new)>(s: Sys<T>, a: Action<T>)
    requires Control(s.p) && Enabled(s, a)
    ensures Step(s, a).p.pc.Crashed? <==> s.p.pc.Crashed? || Kills(s, a)
  {
  }

  /** The consumer is dead if and only if an exception of `on_batch` in the main loop escaped both callbacks. */
  lemma {:induction false} DiesExactly<T(!new)>(cfg: Config, n: nat, states: seq<Sys<T>>,
                                                actions: seq<Action<T>>, j: nat)
    requires ValidConfig(cfg) && IsRun(states, actions) && states[0] == Begin(cfg, n) && j < |states|
    ensures Inv(states[j])
    ensures states[j].p.pc.Crashed? <==> exists k :: 0 <= k < j && Kills(states[k], actions[k])
  {
    hide Step, Enabled, Kills, Inv, Begin;
    if j == 0 {
      BeginInv<T>(cfg, n);
      BeginIdle<T>(cfg, n);
    } else {
      DiesExactly(cfg, n, states, actions, j - 1);
      StepKeepsInv(states[j - 1], actions[j - 1]);
      InvControl(states[j - 1]);
      KillStep(states[j - 1], actions[j - 1]);
      assert states[j] == Step(states[j - 1], actions[j - 1]);
    }
  }

  lemma BeginIdle<T>(cfg: Config, n: nat)
    ensures !Begin<T>(cfg, n).p.pc.Crashed?
  {
  }

  lemma InvControl<T(!new)>(s: Sys<T>)
    requires Inv(s)
    ensures Control(s.p)
  {
  }

  /** Starting a pipeline that is not running lets `put` in again and the consumer begin with nothing, and
      leaves queue and figures alone; starting one that runs, or stopping one that does not, does nothing. */
  lemma StartsAgain<T(!new)>(s: Sys<T>)
    ensures s.p.running ==> Step(s, Starting) == s
    ensures !s.p.running ==> forall drain :: Step(s, Stopping(drain)) == s
    ensures !s.p.running ==>
              var t := Step(s, Starting).p;
              t.running && !t.shutdown && t.pc == Looping && t.batch == []
              && t.queue == s.p.queue && t.m == s.p.m && t.h.accepted == s.p.h.accepted && t.h.handed == s.p.h.handed
  {
  }

  /** A call of `stop` on a running pipeline makes `put` raise from then on, and its return makes the
      pipeline startable again. */
  lemma StopsPuts<T(!new)>(s: Sys<T>, drain: bool)
    requires s.p.running
    ensures Step(s, Stopping(drain)).p.shutdown
    ensures Step(s, Stopping(drain)).p.pc == if drain || Finished(s.p.pc) then s.p.pc else Cancelled
    ensures Enabled(s, StopReturns) ==> !Step(s, StopReturns).p.running && Step(s, StopReturns).p.queue == s.p.queue
  {
  }
}
