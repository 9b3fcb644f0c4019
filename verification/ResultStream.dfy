/** Workers racing on a URL queue and handing results to a generator through a bounded queue (`stream`). */
module ResultStream {
  import opened Common
  import opened Workers

  /** `capacity` bounds the result queue; `over` means that the generator has returned. */
  datatype Stream<U> = Stream(
    queue: seq<U>,
    workers: seq<Worker<U>>,
    results: seq<Result<U>>,
    capacity: nat,
    yielded: seq<Result<U>>,
    over: bool)

  /** `GiveUp` is the 60-second timeout when every worker is done: the generator yields what is left
      and returns. A timeout with workers still running changes nothing and is not an action. */
  datatype Action =
    | TakeNext(w: nat)
    | FetchEnds(w: nat, raises: bool)
    | PutEnds(w: nat)
    | YieldNext
    | GiveUp

  predicate Enabled<U>(n: nat, s: Stream<U>, a: Action) {
    !s.over &&
    match a
    case TakeNext(w) => w < |s.workers| && s.workers[w].Ready?
    case FetchEnds(w, _) => w < |s.workers| && s.workers[w].Fetching?
    case PutEnds(w) => w < |s.workers| && s.workers[w].Putting? && |s.results| < s.capacity
    case YieldNext => s.results != [] && |s.yielded| < n
    case GiveUp => |s.yielded| < n && forall w | 0 <= w < |s.workers| :: s.workers[w].Finished?
  }

  function Step<U>(n: nat, s: Stream<U>, a: Action): Stream<U>
    requires Enabled(n, s, a)
  {
    match a
    case TakeNext(w) =>
      if s.queue == [] then s.(workers := s.workers[w := Finished])
      else s.(queue := s.queue[1..], workers := s.workers[w := Fetching(s.queue[0])])
    case FetchEnds(w, raises) => s.(workers := s.workers[w := Putting(Result(s.workers[w].url, raises))])
    case PutEnds(w) => s.(workers := s.workers[w := Ready], results := s.results + [s.workers[w].result])
    case YieldNext =>
      s.(results := s.results[1..], yielded := s.yielded + [s.results[0]], over := |s.yielded| + 1 == n)
    case GiveUp => s.(results := [], yielded := s.yielded + s.results, over := true)
  }

  function Begin<U>(urls: seq<U>, maxConcurrent: nat): Stream<U> {
    Stream(urls, seq(Min(maxConcurrent, |urls|), _ => Ready), [], maxConcurrent, [], urls == [])
  }

  /** Each URL is in exactly one place. */
  ghost predicate Placed<U>(urls: seq<U>, s: Stream<U>) {
    multiset(urls) ==
    multiset(s.queue) + InHand(s.workers) + multiset(Urls(s.results)) + multiset(Urls(s.yielded))
  }

  ghost predicate Inv<U>(urls: seq<U>, s: Stream<U>) {
    && Placed(urls, s)
    && |s.results| <= s.capacity && 1 <= s.capacity
    && (urls != [] ==> s.workers != [])
    && (forall w | 0 <= w < |s.workers| && s.workers[w].Finished? :: s.queue == [])
    && (s.over <==> |s.yielded| == |urls|)
  }

  function Measure<U>(s: Stream<U>): nat {
    4 * |s.queue| + Weights(s.workers) + |s.results| + if s.over then 0 else 1
  }

  lemma BeginInv<U>(urls: seq<U>, maxConcurrent: nat)
    requires maxConcurrent >= 1
    ensures Inv(urls, Begin(urls, maxConcurrent))
  {
    var s := Begin(urls, maxConcurrent);
    NobodyBusy(s.workers);
    assert Urls(s.results) == [] && Urls(s.yielded) == [];
  }

  /** |url queue| + busy workers + |result queue| + yielded = |urls|. */
  lemma PlacesAddUp<U>(urls: seq<U>, s: Stream<U>)
    requires Placed(urls, s)
    ensures |s.queue| + Count(s.workers, IsFetching) + |s.results| + |s.yielded| == |urls|
  {
    InHandSize(s.workers);
    assert |multiset(urls)| == |s.queue| + |InHand(s.workers)| + |s.results| + |s.yielded|;
  }

  // one kind of step at a time

  lemma TakeUrlKeeps<U>(urls: seq<U>, s: Stream<U>, w: nat)
    requires Placed(urls, s) && w < |s.workers| && s.workers[w].Ready? && s.queue != []
    ensures Placed(urls, s.(queue := s.queue[1..], workers := s.workers[w := Fetching(s.queue[0])]))
  {
    var u := s.queue[0];
    InHandUpdate(s.workers, w, Fetching(u));
    assert InHand(s.workers[w := Fetching(u)]) == InHand(s.workers) + multiset{u};
    assert s.queue == [u] + s.queue[1..];
    assert multiset(s.queue) == multiset{u} + multiset(s.queue[1..]);
  }

  lemma TakeKeeps<U>(urls: seq<U>, s: Stream<U>, w: nat)
    requires Placed(urls, s) && Enabled(|urls|, s, TakeNext(w))
    ensures Placed(urls, Step(|urls|, s, TakeNext(w)))
  {
    if s.queue == [] {
      Unmoved(s.workers, w, Finished);
    } else {
      TakeUrlKeeps(urls, s, w);
    }
  }

  /** A worker that stays responsible for the same URL leaves the rest alone. */
  lemma Unmoved<U>(ws: seq<Worker<U>>, w: nat, v: Worker<U>)
    requires w < |ws| && One(v) == One(ws[w])
    ensures InHand(ws[w := v]) == InHand(ws)
  {
    InHandUpdate(ws, w, v);
    assert (InHand(ws[w := v]) + One(v)) - One(v) == InHand(ws[w := v]);
    assert (InHand(ws) + One(v)) - One(v) == InHand(ws);
  }

  lemma PutKeeps<U>(urls: seq<U>, s: Stream<U>, w: nat)
    requires Placed(urls, s) && Enabled(|urls|, s, PutEnds(w))
    ensures Placed(urls, Step(|urls|, s, PutEnds(w)))
  {
    var r := s.workers[w].result;
    InHandUpdate(s.workers, w, Ready);
    assert InHand(s.workers) == InHand(s.workers[w := Ready]) + multiset{r.url};
    UrlsSnoc(s.results, r);
    assert multiset(Urls(s.results + [r])) == multiset(Urls(s.results)) + multiset{r.url};
  }

  lemma YieldKeeps<U>(urls: seq<U>, s: Stream<U>)
    requires Placed(urls, s) && Enabled(|urls|, s, YieldNext)
    ensures Placed(urls, Step(|urls|, s, YieldNext))
  {
    UrlsHead(s.results);
    UrlsSnoc(s.yielded, s.results[0]);
    assert multiset(Urls(s.results)) == multiset{s.results[0].url} + multiset(Urls(s.results[1..]));
    assert multiset(Urls(s.yielded + [s.results[0]])) == multiset(Urls(s.yielded)) + multiset{s.results[0].url};
  }

  lemma GiveUpKeeps<U>(urls: seq<U>, s: Stream<U>)
    requires Inv(urls, s) && Enabled(|urls|, s, GiveUp)
    ensures Inv(urls, Step(|urls|, s, GiveUp))
  {
    UrlsAppend(s.yielded, s.results);
    assert Urls<U>([]) == [];
    PlacesAddUp(urls, s);
    NobodyBusy(s.workers);
    assert s.workers[0].Finished?;
  }

  lemma StepKeepsInv<U>(urls: seq<U>, s: Stream<U>, a: Action)
    requires Inv(urls, s) && Enabled(|urls|, s, a)
    ensures Inv(urls, Step(|urls|, s, a))
  {
    hide Placed;
    match a
    case TakeNext(w) => TakeKeeps(urls, s, w);
    case FetchEnds(w, raises) => FetchKeeps(urls, s, w, raises);
    case PutEnds(w) => PutKeeps(urls, s, w);
    case YieldNext => YieldKeeps(urls, s);
    case GiveUp => GiveUpKeeps(urls, s);
  }

  lemma FetchKeeps<U>(urls: seq<U>, s: Stream<U>, w: nat, raises: bool)
    requires Placed(urls, s) && Enabled(|urls|, s, FetchEnds(w, raises))
    ensures Placed(urls, Step(|urls|, s, FetchEnds(w, raises)))
  {
    Unmoved(s.workers, w, Putting(Result(s.workers[w].url, raises)));
  }

  /** Every step of every schedule brings the end nearer. */
  lemma StepDecreases<U>(n: nat, s: Stream<U>, a: Action)
    requires Enabled(n, s, a)
    ensures Measure(Step(n, s, a)) < Measure(s)
  {
    if a.TakeNext? || a.FetchEnds? || a.PutEnds? {
      WeightsUpdate(s.workers, a.w, Step(n, s, a).workers[a.w]);
    }
  }

  predicate CanMove<U>(w: Worker<U>, room: bool) {
    w.Ready? || w.Fetching? || (w.Putting? && room)
  }

  lemma SomeWorkerCanMove<U>(urls: seq<U>, s: Stream<U>)
    requires Inv(urls, s) && !s.over && s.results == []
    ensures exists w :: 0 <= w < |s.workers| && CanMove(s.workers[w], true)
  {
    PlacesAddUp(urls, s);
    if forall w | 0 <= w < |s.workers| :: s.workers[w].Finished? {
      NobodyBusy(s.workers);
    } else {
      var w :| 0 <= w < |s.workers| && !s.workers[w].Finished?;
      assert CanMove(s.workers[w], true);
    }
  }

  function Move<U>(ws: seq<Worker<U>>, w: nat): Action
    requires w < |ws|
  {
    if ws[w].Ready? then TakeNext(w) else if ws[w].Fetching? then FetchEnds(w, false) else PutEnds(w)
  }

  /** The workers and the generator never deadlock: until everything is yielded, a worker can move or
      a result can be yielded. */
  lemma NeverStuck<U>(urls: seq<U>, s: Stream<U>)
    requires Inv(urls, s)
    ensures !s.over <==> exists a :: Enabled(|urls|, s, a) && !a.GiveUp?
  {
    if !s.over {
      PlacesAddUp(urls, s);
      if s.results != [] {
        assert Enabled(|urls|, s, YieldNext);
      } else {
        SomeWorkerCanMove(urls, s);
        var w :| 0 <= w < |s.workers| && CanMove(s.workers[w], true);
        assert Enabled(|urls|, s, Move(s.workers, w));
      }
    }
  }

  /** When the generator has returned it has yielded each URL exactly as often as it was given, and no
      worker it then cancels is holding one. */
  lemma OverMeansAllYielded<U>(urls: seq<U>, s: Stream<U>)
    requires Inv(urls, s) && s.over
    ensures multiset(Urls(s.yielded)) == multiset(urls)
    ensures forall w | 0 <= w < |s.workers| :: !IsFetching(s.workers[w])
  {
    PlacesAddUp(urls, s);
    CountBound(s.workers, IsFetching);
    NobodyBusy(s.workers);
    assert Urls(s.results) == [];
  }

  ghost predicate IsRun<U(!new)>(n: nat, states: seq<Stream<U>>, actions: seq<Action>) {
    && |states| == |actions| + 1
    && forall i | 0 <= i < |actions| ::
         Enabled(n, states[i], actions[i]) && states[i + 1] == Step(n, states[i], actions[i])
  }

  /** Every run places every URL exactly once in every state and is no longer than the initial measure. */
  lemma {:induction false} RunPlacesEveryUrl<U(!new)>(urls: seq<U>, states: seq<Stream<U>>,
                                                      actions: seq<Action>, j: nat)
    requires IsRun(|urls|, states, actions) && Inv(urls, states[0]) && j < |states|
    ensures Inv(urls, states[j])
    ensures Measure(states[j]) + j <= Measure(states[0])
  {
    hide Inv, Step, Enabled, Measure;
    if j > 0 {
      RunPlacesEveryUrl(urls, states, actions, j - 1);
      StepKeepsInv(urls, states[j - 1], actions[j - 1]);
      StepDecreases(|urls|, states[j - 1], actions[j - 1]);
      assert states[j] == Step(|urls|, states[j - 1], actions[j - 1]);
    }
  }

  // ---------------------------------------------------------------- what is fetched and yielded, in order

  /** The URL whose fetch begins in a step that leads to `t`. */
  function Begins<U>(t: Stream<U>, a: Action): seq<U> {
    if a.TakeNext? && a.w < |t.workers| && t.workers[a.w].Fetching? then [t.workers[a.w].url] else []
  }

  /** The result that a worker hands on in a step. */
  function HandsOn<U>(n: nat, s: Stream<U>, a: Action): seq<Result<U>>
    requires Enabled(n, s, a)
  {
    if a.PutEnds? then [s.workers[a.w].result] else []
  }

  function Begun<U>(states: seq<Stream<U>>, actions: seq<Action>, j: nat): seq<U>
    requires j <= |actions| && |states| == |actions| + 1
  {
    if j == 0 then [] else Begun(states, actions, j - 1) + Begins(states[j], actions[j - 1])
  }

  function HandedOn<U>(n: nat, states: seq<Stream<U>>, actions: seq<Action>, j: nat): seq<Result<U>>
    requires j <= |actions| && |states| == |actions| + 1 && forall k | 0 <= k < j :: Enabled(n, states[k], actions[k])
  {
    if j == 0 then [] else HandedOn(n, states, actions, j - 1) + HandsOn(n, states[j - 1], actions[j - 1])
  }

  lemma OrderStep<U>(n: nat, s: Stream<U>, a: Action)
    requires Enabled(n, s, a)
    ensures s.queue == Begins(Step(n, s, a), a) + Step(n, s, a).queue
    ensures Step(n, s, a).yielded + Step(n, s, a).results == s.yielded + s.results + HandsOn(n, s, a)
    ensures s.yielded <= Step(n, s, a).yielded
  {
    assert s.yielded + s.results + [] == s.yielded + s.results;
    if a.TakeNext? && s.queue != [] {
      assert s.queue == [s.queue[0]] + s.queue[1..];
    } else if a.PutEnds? {
      var r := [s.workers[a.w].result];
      assert s.yielded + (s.results + r) == s.yielded + s.results + r;
    } else if a.YieldNext? {
      assert s.results == [s.results[0]] + s.results[1..];
      assert s.yielded + [s.results[0]] + s.results[1..] == s.yielded + s.results;
    } else if a.GiveUp? {
      assert s.yielded + s.results + [] == s.yielded + s.results;
    }
  }

  /** A fetch leads to a result for its URL, marked exactly if it raised, which its worker then hands on. */
  lemma FetchYieldsResult<U>(n: nat, s: Stream<U>, w: nat, raises: bool)
    requires Enabled(n, s, FetchEnds(w, raises))
    ensures Step(n, s, FetchEnds(w, raises)).workers[w] == Putting(Result(s.workers[w].url, raises))
  {
  }

  /** Fetches begin in the order of the input, and the results are yielded in the order in which the workers
      handed them on. */
  lemma {:induction false} YieldedInOrder<U(!new)>(urls: seq<U>, maxConcurrent: nat, states: seq<Stream<U>>,
                                                   actions: seq<Action>, j: nat)
    requires IsRun(|urls|, states, actions) && states[0] == Begin(urls, maxConcurrent) && j < |states|
    ensures Begun(states, actions, j) + states[j].queue == urls
    ensures states[j].yielded + states[j].results == HandedOn(|urls|, states, actions, j)
  {
    hide Step, Enabled, Begins, HandsOn;
    if j == 0 {
      assert [] + states[0].queue == urls;
    } else {
      YieldedInOrder(urls, maxConcurrent, states, actions, j - 1);
      OrderStep(|urls|, states[j - 1], actions[j - 1]);
      assert states[j] == Step(|urls|, states[j - 1], actions[j - 1]);
      var b, now := Begun(states, actions, j - 1), Begins(states[j], actions[j - 1]);
      assert b + (now + states[j].queue) == (b + now) + states[j].queue;
    }
  }

  /** `stream` under an arbitrary scheduler and arbitrary exceptions from `fetch`: it performs a run of the
      system, to its end. */
  method StreamAll<U(!new, ==)>(urls: seq<U>, maxConcurrent: nat)
    returns (yielded: seq<Result<U>>, ghost states: seq<Stream<U>>, ghost actions: seq<Action>)
    requires maxConcurrent >= 1
    ensures multiset(Urls(yielded)) == multiset(urls)
    ensures IsRun(|urls|, states, actions) && states[0] == Begin(urls, maxConcurrent)
    ensures states[|actions|].yielded == yielded && states[|actions|].over
  {
    hide Placed;
    states, actions := [Begin(urls, maxConcurrent)], [];
    yielded := [];
    var queue, results: seq<Result<U>>, n := urls, [], |urls|;
    var workers: seq<Worker<U>> := seq(Min(maxConcurrent, n), _ => Ready);
    BeginInv(urls, maxConcurrent);
    while |yielded| < n
      invariant Inv(urls, Stream(queue, workers, results, maxConcurrent, yielded, |yielded| == n))
      invariant IsRun(n, states, actions) && states[0] == Begin(urls, maxConcurrent)
      invariant states[|actions|] == Stream(queue, workers, results, maxConcurrent, yielded, |yielded| == n)
      decreases Measure(Stream(queue, workers, results, maxConcurrent, yielded, |yielded| == n))
    {
      ghost var before := Stream(queue, workers, results, maxConcurrent, yielded, false);
      ghost var a: Action;
      var consume: bool := *;
      if results != [] && consume {
        a := YieldNext;
        yielded, results := yielded + [results[0]], results[1..];
      } else if w: nat :| w < |workers| && CanMove(workers[w], |results| < maxConcurrent) {
        match workers[w]
        case Ready =>
          a := TakeNext(w);
          if queue == [] {
            workers := workers[w := Finished];
          } else {
            workers, queue := workers[w := Fetching(queue[0])], queue[1..];
          }
        case Fetching(url) =>
          var raises: bool := *;
          a := FetchEnds(w, raises);
          workers := workers[w := Putting(Result(url, raises))];
        case Putting(result) =>
          a := PutEnds(w);
          workers, results := workers[w := Ready], results + [result];
      } else {
        if results == [] {
          SomeWorkerCanMove(urls, before);
        }
        a := YieldNext;
        yielded, results := yielded + [results[0]], results[1..];
      }
      StepKeepsInv(urls, before, a);
      StepDecreases(n, before, a);
      states := states + [Stream(queue, workers, results, maxConcurrent, yielded, |yielded| == n)];
      actions := actions + [a];
    }
    ghost var last := Stream(queue, workers, results, maxConcurrent, yielded, |yielded| == n);
    PlacesAddUp(urls, last);
    OverMeansAllYielded(urls, last);
  }
}
