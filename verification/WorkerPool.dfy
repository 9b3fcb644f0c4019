/** Workers racing on a URL queue and collecting into one list (`run`). */
module WorkerPool {
  import opened Common
  import opened Workers

  /** `unfinished` is the queue's count of items not yet marked done, which `join` waits for. */
  datatype Pool<U> = Pool(queue: seq<U>, workers: seq<Worker<U>>, results: seq<Result<U>>, unfinished: int)

  datatype Action = TakeNext(w: nat) | FetchEnds(w: nat, raises: bool)

  predicate Enabled<U>(p: Pool<U>, a: Action) {
    match a
    case TakeNext(w) => w < |p.workers| && p.workers[w].Ready?
    case FetchEnds(w, _) => w < |p.workers| && p.workers[w].Fetching?
  }

  function Step<U>(p: Pool<U>, a: Action): Pool<U>
    requires Enabled(p, a)
  {
    match a
    case TakeNext(w) =>
      if p.queue == [] then p.(workers := p.workers[w := Finished])
      else p.(queue := p.queue[1..], workers := p.workers[w := Fetching(p.queue[0])])
    case FetchEnds(w, raises) =>
      p.(workers := p.workers[w := Ready], results := p.results + [Result(p.workers[w].url, raises)],
         unfinished := p.unfinished - 1)
  }

  function Begin<U>(urls: seq<U>, maxConcurrent: nat): Pool<U> {
    Pool(urls, seq(Min(maxConcurrent, |urls|), _ => Ready), [], |urls|)
  }

  /** Each URL is queued, with a worker or in a result; the unfinished count is what is queued or in
      flight; and a worker only finishes once the queue is empty. */
  ghost predicate Inv<U>(urls: seq<U>, p: Pool<U>) {
    && multiset(urls) == multiset(p.queue) + InHand(p.workers) + multiset(Urls(p.results))
    && p.unfinished == |p.queue| + Count(p.workers, IsFetching)
    && (forall w | 0 <= w < |p.workers| :: !p.workers[w].Putting?)
    && (forall w | 0 <= w < |p.workers| && p.workers[w].Finished? :: p.queue == [])
  }

  function Measure<U>(p: Pool<U>): nat { 4 * |p.queue| + Weights(p.workers) }

  lemma BeginInv<U>(urls: seq<U>, maxConcurrent: nat)
    ensures Inv(urls, Begin(urls, maxConcurrent))
  {
    var p := Begin(urls, maxConcurrent);
    NobodyBusy(p.workers);
    assert Urls(p.results) == [];
  }

  lemma TakeKeepsUrls<U>(urls: seq<U>, p: Pool<U>, w: nat)
    requires Inv(urls, p) && Enabled(p, TakeNext(w)) && p.queue != []
    ensures var p' := Step(p, TakeNext(w));
            multiset(urls) == multiset(p'.queue) + InHand(p'.workers) + multiset(Urls(p'.results))
  {
    var u := p.queue[0];
    InHandUpdate(p.workers, w, Fetching(u));
    assert InHand(p.workers[w := Fetching(u)]) == InHand(p.workers) + multiset{u};
    assert p.queue == [u] + p.queue[1..];
    assert multiset(p.queue) == multiset{u} + multiset(p.queue[1..]);
  }

  lemma FetchKeepsUrls<U>(urls: seq<U>, p: Pool<U>, w: nat, raises: bool)
    requires Inv(urls, p) && Enabled(p, FetchEnds(w, raises))
    ensures var p' := Step(p, FetchEnds(w, raises));
            multiset(urls) == multiset(p'.queue) + InHand(p'.workers) + multiset(Urls(p'.results))
  {
    var u := p.workers[w].url;
    InHandUpdate(p.workers, w, Ready);
    assert InHand(p.workers) == InHand(p.workers[w := Ready]) + multiset{u};
    UrlsSnoc(p.results, Result(u, raises));
    assert multiset(Urls(p.results + [Result(u, raises)])) == multiset(Urls(p.results)) + multiset{u};
  }

  lemma StepKeepsInv<U>(urls: seq<U>, p: Pool<U>, a: Action)
    requires Inv(urls, p) && Enabled(p, a)
    ensures Inv(urls, Step(p, a))
    ensures Measure(Step(p, a)) < Measure(p) && |Step(p, a).workers| == |p.workers|
  {
    var w := a.w;
    WeightsUpdate(p.workers, w, Step(p, a).workers[w]);
    CountUpdate(p.workers, w, Step(p, a).workers[w], IsFetching);
    match a
    case TakeNext(_) =>
      if p.queue == [] {
        InHandUpdate(p.workers, w, Finished);
        assert InHand(p.workers[w := Finished]) == InHand(p.workers) by {
          assert InHand(p.workers) + multiset{} == InHand(p.workers);
          assert InHand(p.workers[w := Finished]) + multiset{} == InHand(p.workers[w := Finished]);
        }
      } else {
        TakeKeepsUrls(urls, p, w);
      }
    case FetchEnds(_, raises) => FetchKeepsUrls(urls, p, w, raises);
  }

  /** While some worker is not done it can go on, so the pool never gets stuck. */
  lemma NeverStuck<U>(urls: seq<U>, p: Pool<U>)
    requires Inv(urls, p)
    ensures (exists a :: Enabled(p, a)) <==> exists w :: 0 <= w < |p.workers| && !p.workers[w].Finished?
  {
    if w :| 0 <= w < |p.workers| && !p.workers[w].Finished? {
      assert Enabled(p, if p.workers[w].Ready? then TakeNext(w) else FetchEnds(w, false));
    }
  }

  /** `join` returns exactly when every URL has its result, as a multiset. */
  lemma JoinedMeansAllCollected<U>(urls: seq<U>, p: Pool<U>)
    requires Inv(urls, p)
    ensures p.unfinished == 0 <==> multiset(Urls(p.results)) == multiset(urls)
    ensures p.unfinished + |p.results| == |urls|
  {
    InHandSize(p.workers);
    assert |multiset(urls)| == |p.queue| + |InHand(p.workers)| + |p.results|;
  }

  /** Workers that have all finished leave nothing behind, so after `join` and `gather` the results
      are the input. */
  lemma AllFinishedMeansAllCollected<U>(urls: seq<U>, p: Pool<U>)
    requires Inv(urls, p) && p.workers != []
    requires forall w | 0 <= w < |p.workers| :: p.workers[w].Finished?
    ensures p.unfinished == 0 && multiset(Urls(p.results)) == multiset(urls)
  {
    NobodyBusy(p.workers);
    assert p.workers[0].Finished?;
    JoinedMeansAllCollected(urls, p);
  }

  ghost predicate IsRun<U(!new)>(states: seq<Pool<U>>, actions: seq<Action>) {
    && |states| == |actions| + 1
    && forall i | 0 <= i < |actions| :: Enabled(states[i], actions[i]) && states[i + 1] == Step(states[i], actions[i])
  }

  /** In every state of every run no URL is lost or duplicated, the unfinished count is what is queued
      or in flight, and no run is longer than the initial measure. */
  lemma {:induction false} RunKeepsEveryUrl<U(!new)>(urls: seq<U>, states: seq<Pool<U>>, actions: seq<Action>, j: nat)
    requires IsRun(states, actions) && Inv(urls, states[0]) && j < |states|
    ensures Inv(urls, states[j])
    ensures Measure(states[j]) + j <= Measure(states[0]) && |states[j].workers| == |states[0].workers|
  {
    hide Inv, Step, Enabled, Measure;
    if j > 0 {
      RunKeepsEveryUrl(urls, states, actions, j - 1);
      StepKeepsInv(urls, states[j - 1], actions[j - 1]);
      assert states[j] == Step(states[j - 1], actions[j - 1]);
    }
  }

  // ---------------------------------------------------------------- what is fetched and collected, in order

  /** The URL whose fetch begins in a step that leads to `t`. */
  function Begins<U>(t: Pool<U>, a: Action): seq<U> {
    if a.TakeNext? && a.w < |t.workers| && t.workers[a.w].Fetching? then [t.workers[a.w].url] else []
  }

  /** The result of the fetch that ends in a step. */
  function Ends<U>(p: Pool<U>, a: Action): seq<Result<U>>
    requires Enabled(p, a)
  {
    if a.FetchEnds? then [Result(p.workers[a.w].url, a.raises)] else []
  }

  function Begun<U>(states: seq<Pool<U>>, actions: seq<Action>, j: nat): seq<U>
    requires j <= |actions| && |states| == |actions| + 1
  {
    if j == 0 then [] else Begun(states, actions, j - 1) + Begins(states[j], actions[j - 1])
  }

  function Ended<U>(states: seq<Pool<U>>, actions: seq<Action>, j: nat): seq<Result<U>>
    requires j <= |actions| && |states| == |actions| + 1 && forall k | 0 <= k < j :: Enabled(states[k], actions[k])
  {
    if j == 0 then [] else Ended(states, actions, j - 1) + Ends(states[j - 1], actions[j - 1])
  }

  lemma OrderStep<U>(p: Pool<U>, a: Action)
    requires Enabled(p, a)
    ensures p.queue == Begins(Step(p, a), a) + Step(p, a).queue
    ensures Step(p, a).results == p.results + Ends(p, a)
  {
    assert p.results + [] == p.results;
    if a.TakeNext? && p.queue != [] {
      assert p.queue == [p.queue[0]] + p.queue[1..];
    }
  }

  /** Fetches begin in the order of the input, and the results are those of the fetches in the order in which
      they ended, each marked exactly if its fetch raised. */
  lemma {:induction false} FetchedInOrder<U(!new)>(urls: seq<U>, maxConcurrent: nat, states: seq<Pool<U>>,
                                                   actions: seq<Action>, j: nat)
    requires IsRun(states, actions) && states[0] == Begin(urls, maxConcurrent) && j < |states|
    ensures Begun(states, actions, j) + states[j].queue == urls
    ensures states[j].results == Ended(states, actions, j)
  {
    hide Step, Enabled, Begins, Ends;
    if j == 0 {
      assert [] + states[0].queue == urls;
    } else {
      FetchedInOrder(urls, maxConcurrent, states, actions, j - 1);
      OrderStep(states[j - 1], actions[j - 1]);
      assert states[j] == Step(states[j - 1], actions[j - 1]);
      var b, now := Begun(states, actions, j - 1), Begins(states[j], actions[j - 1]);
      assert b + (now + states[j].queue) == (b + now) + states[j].queue;
    }
  }

  /** In every state of every run fetches in progress never outnumber `maxConcurrent`. */
  lemma InFlightBounded<U(!new)>(urls: seq<U>, maxConcurrent: nat, states: seq<Pool<U>>, actions: seq<Action>, j: nat)
    requires IsRun(states, actions) && states[0] == Begin(urls, maxConcurrent) && j < |states|
    ensures |InHand(states[j].workers)| <= |states[j].workers| == Min(maxConcurrent, |urls|) <= maxConcurrent
  {
    BeginInv(urls, maxConcurrent);
    RunKeepsEveryUrl(urls, states, actions, j);
    InHandSize(states[j].workers);
    CountBound(states[j].workers, IsFetching);
  }

  /** What the two kinds of steps do, field by field. */
  lemma Steps<U>(p: Pool<U>, a: Action)
    requires a.w < |p.workers| && if a.TakeNext? then p.workers[a.w].Ready? else p.workers[a.w].Fetching?
    ensures Enabled(p, a)
    ensures Step(p, a) ==
            if a.FetchEnds?
            then Pool(p.queue, p.workers[a.w := Ready], p.results + [Result(p.workers[a.w].url, a.raises)],
                      p.unfinished - 1)
            else if p.queue == [] then Pool(p.queue, p.workers[a.w := Finished], p.results, p.unfinished)
            else Pool(p.queue[1..], p.workers[a.w := Fetching(p.queue[0])], p.results, p.unfinished)
  {
  }

  lemma NotFinished<U>(urls: seq<U>, p: Pool<U>, w: nat)
    requires Inv(urls, p) && w < |p.workers| && !p.workers[w].Finished? && !p.workers[w].Ready?
    ensures p.workers[w].Fetching?
  {
  }

  /** `_run_with_workers` under an arbitrary scheduler and arbitrary exceptions from `fetch`: it performs a run
      of the system, to its end. */
  method RunWithWorkers<U(!new, ==)>(urls: seq<U>, maxConcurrent: nat)
    returns (results: seq<Result<U>>, ghost states: seq<Pool<U>>, ghost actions: seq<Action>)
    requires maxConcurrent >= 1
    ensures multiset(Urls(results)) == multiset(urls)
    ensures IsRun(states, actions) && states[0] == Begin(urls, maxConcurrent)
    ensures states[|actions|].results == results
  {
    hide Step, Enabled, Inv, InHand, Count, Measure;
    results := [];
    states, actions := [Begin(urls, maxConcurrent)], [];
    if urls == [] {
      assert Urls(results) == [];
      return;
    }
    var queue, unfinished := urls, |urls|;
    var workers: seq<Worker<U>> := seq(Min(maxConcurrent, |urls|), _ => Ready);
    BeginInv(urls, maxConcurrent);
    while exists w | 0 <= w < |workers| :: !workers[w].Finished?
      invariant Inv(urls, Pool(queue, workers, results, unfinished)) && workers != []
      invariant IsRun(states, actions) && states[0] == Begin(urls, maxConcurrent)
      invariant states[|actions|] == Pool(queue, workers, results, unfinished)
      decreases Measure(Pool(queue, workers, results, unfinished))
    {
      ghost var before := Pool(queue, workers, results, unfinished);
      ghost var a: Action;
      var w: nat :| w < |workers| && !workers[w].Finished?;
      if workers[w].Ready? {
        a := TakeNext(w);
        Steps(before, a);
        StepKeepsInv(urls, before, a);
        if queue == [] {
          workers := workers[w := Finished];
        } else {
          workers, queue := workers[w := Fetching(queue[0])], queue[1..];
        }
      } else {
        var raises: bool := *;
        a := FetchEnds(w, raises);
        NotFinished(urls, before, w);
        Steps(before, a);
        StepKeepsInv(urls, before, a);
        results := results + [Result(workers[w].url, raises)];
        workers := workers[w := Ready];
        unfinished := unfinished - 1;
      }
      states, actions := states + [Pool(queue, workers, results, unfinished)], actions + [a];
    }
    AllFinishedMeansAllCollected(urls, Pool(queue, workers, results, unfinished));
  }
}
