/** The pipeline object follows the transition system of its producers, consumer and controllers. */
module PipelineReplay {
  import opened Common
  import opened Pipelines
  import opened PipelineSystem

  /** Performs one step of a run on the object; `waiting` is the item of the producer that acts. */
  method Perform<T(!new)>(pl: ProducerConsumerPipeline<T>, ghost s: Sys<T>, a: Action<T>, waiting: Producer<T>)
    requires pl.Abs() == s.p && Enabled(s, a)
    requires a.Waking? ==> waiting == s.producers[a.w]
    modifies pl
    ensures pl.Abs() == Step(s, a).p
  {
    match a
    case Putting(_, item) => var r := pl.TryPut(item);
    case Waking(_) => pl.Enqueue(waiting.item);
    case PutExpires(_) => pl.NoteDropped();
    case Heading => pl.LoopHead();
    case Receiving(timeUp) => pl.Fetched(true, timeUp);
    case ReceiveExpires(timeUp) => pl.Fetched(false, timeUp);
    case Finishing(o) => pl.Finish(o);
    case Polling => pl.Poll();
    case Stopping(drain) => pl.RequestStop(drain);
    case StopReturns => pl.running := false;
    case Starting => pl.Launch();
  }

  /** A fresh object can perform every run and ends in the run's last state. */
  method Replay<T(!new)>(cfg: Config, n: nat, ghost states: seq<Sys<T>>, actions: seq<Action<T>>,
                         waiting: seq<Producer<T>>)
    returns (pl: ProducerConsumerPipeline<T>)
    requires IsRun(states, actions) && states[0] == Begin(cfg, n) && |waiting| == |actions|
    requires forall k | 0 <= k < |actions| && actions[k].Waking? :: waiting[k] == states[k].producers[actions[k].w]
    ensures fresh(pl) && pl.Abs() == states[|actions|].p
  {
    pl := new ProducerConsumerPipeline<T>(cfg);
    hide Step;
    var k := 0;
    while k < |actions|
      modifies pl
      invariant 0 <= k <= |actions|
      invariant pl.Abs() == states[k].p
    {
      Perform(pl, states[k], actions[k], waiting[k]);
      k := k + 1;
    }
  }
}
