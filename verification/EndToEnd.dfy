/** The whole streaming run: the engine's result stream feeds the pipeline, which feeds the writers. */
module EndToEnd {
  import opened Common
  import opened Workers
  import P = Pipelines
  import S = PipelineSystem
  import R = ResultStream
  import T = Streaming

  datatype Sys<U> = Sys(st: R.Stream<U>, u: T.Run<Result<U>>)

  /** The workers run on their own; the generator goes on only while `run` waits for the next result,
      which it takes one at a time and puts into the pipeline. */
  datatype Action<U> =
    | Work(w: R.Action)
    | Resume(g: R.Action)
    | Take
    | Ends
    | Inner(a: T.Action<Result<U>>)

  predicate IsGenerator(a: R.Action) { a.YieldNext? || a.GiveUp? }

  predicate IsIdle<U>(u: T.Run<Result<U>>) {
    u.phase.Pulling? && |u.s.producers| == 1 && u.s.producers[0].Ready?
  }

  predicate Enabled<U>(n: nat, s: Sys<U>, a: Action<U>) {
    match a
    case Work(w) => R.Enabled(n, s.st, w) && !IsGenerator(w)
    case Resume(g) => R.Enabled(n, s.st, g) && IsGenerator(g) && IsIdle(s.u) && |s.u.yielded| == |s.st.yielded|
    case Take => IsIdle(s.u) && |s.u.yielded| < |s.st.yielded|
    case Ends => s.st.over && IsIdle(s.u) && |s.u.yielded| == |s.st.yielded|
    case Inner(b) => T.Enabled(s.u, b) && !b.Yield? && !b.StreamEnds?
  }

  /** The step of the streaming run that an action stands for. */
  function Part<U>(s: Sys<U>, a: Action<U>): Option<T.Action<Result<U>>>
    requires a.Take? ==> |s.u.yielded| < |s.st.yielded|
  {
    match a
    case Take => Some(T.Yield(s.st.yielded[|s.u.yielded|]))
    case Ends => Some(T.StreamEnds)
    case Inner(b) => Some(b)
    case _ => None
  }

  lemma PartEnabled<U>(n: nat, s: Sys<U>, a: Action<U>)
    requires Enabled(n, s, a)
    ensures Part(s, a).Some? ==> T.Enabled(s.u, Part(s, a).value)
  {
  }

  function Step<U>(n: nat, s: Sys<U>, a: Action<U>): Sys<U>
    requires Enabled(n, s, a)
  {
    PartEnabled(n, s, a);
    match a
    case Work(w) => s.(st := R.Step(n, s.st, w))
    case Resume(g) => s.(st := R.Step(n, s.st, g))
    case _ => s.(u := T.Step(s.u, Part(s, a).value))
  }

  function Begin<U>(urls: seq<U>, maxConcurrent: nat, cfg: P.Config, writers: nat, bufferSize: int): Sys<U> {
    Sys(R.Begin(urls, maxConcurrent), T.Begin(cfg, writers, bufferSize))
  }

  ghost predicate IsRun<U(!new)>(n: nat, states: seq<Sys<U>>, actions: seq<Action<U>>) {
    && |states| == |actions| + 1
    && forall i | 0 <= i < |actions| ::
         Enabled(n, states[i], actions[i]) && states[i + 1] == Step(n, states[i], actions[i])
  }

  // ---------------------------------------------------------------- the invariant

  /** What `run` has taken is a prefix of what the generator has yielded, and all of it in the end. */
  predicate Coupled<U(==)>(s: Sys<U>) {
    && s.u.yielded <= s.st.yielded
    && (!s.u.phase.Pulling? ==> s.st.over && s.u.yielded == s.st.yielded)
  }

  ghost predicate Inv<U(!new)>(urls: seq<U>, s: Sys<U>) {
    R.Inv(urls, s.st) && T.Inv(s.u) && Coupled(s)
  }

  lemma BeginInv<U(!new)>(urls: seq<U>, maxConcurrent: nat, cfg: P.Config, writers: nat, bufferSize: int)
    requires maxConcurrent >= 1 && P.ValidConfig(cfg)
    ensures Inv(urls, Begin(urls, maxConcurrent, cfg, writers, bufferSize))
  {
    R.BeginInv(urls, maxConcurrent);
    T.BeginInv<Result<U>>(cfg, writers, bufferSize);
  }

  lemma YieldedGrows<U>(n: nat, s: R.Stream<U>, a: R.Action)
    requires R.Enabled(n, s, a)
    ensures s.yielded <= R.Step(n, s, a).yielded
    ensures !IsGenerator(a) ==> R.Step(n, s, a).yielded == s.yielded
  {
  }

  lemma RunStep<R(!new)>(u: T.Run<R>, a: T.Action<R>)
    requires T.Enabled(u, a)
    ensures T.Step(u, a).yielded == if a.Yield? then u.yielded + [a.r] else u.yielded
    ensures !T.Step(u, a).phase.Pulling? ==> a.StreamEnds? || !u.phase.Pulling?
  {
  }

  lemma StepCoupled<U(!new)>(n: nat, s: Sys<U>, a: Action<U>)
    requires Coupled(s) && Enabled(n, s, a)
    ensures Coupled(Step(n, s, a))
  {
    PartEnabled(n, s, a);
    hide T.Step, R.Step, T.Enabled;
    match a
    case Work(w) => YieldedGrows(n, s.st, w);
    case Resume(g) => YieldedGrows(n, s.st, g);
    case _ => RunStep(s.u, Part(s, a).value);
  }

  lemma StepKeepsInv<U(!new)>(urls: seq<U>, s: Sys<U>, a: Action<U>)
    requires Inv(urls, s) && Enabled(|urls|, s, a)
    ensures Inv(urls, Step(|urls|, s, a)) && |Step(|urls|, s, a).u.writers| == |s.u.writers|
  {
    PartEnabled(|urls|, s, a);
    StepCoupled(|urls|, s, a);
    hide R.Inv, T.Inv, Coupled, T.Enabled, R.Enabled, T.Step, R.Step;
    match a
    case Work(w) => R.StepKeepsInv(urls, s.st, w);
    case Resume(g) => R.StepKeepsInv(urls, s.st, g);
    case _ => T.StepKeepsInv(s.u, Part(s, a).value);
  }

  lemma {:induction false} RunKeepsInv<U(!new)>(urls: seq<U>, states: seq<Sys<U>>, actions: seq<Action<U>>, j: nat)
    requires IsRun(|urls|, states, actions) && Inv(urls, states[0]) && j < |states|
    ensures Inv(urls, states[j]) && |states[j].u.writers| == |states[0].u.writers|
  {
    hide Inv, Step, Enabled;
    if j > 0 {
      RunKeepsInv(urls, states, actions, j - 1);
      StepKeepsInv(urls, states[j - 1], actions[j - 1]);
      assert states[j] == Step(|urls|, states[j - 1], actions[j - 1]);
    }
  }

  // ---------------------------------------------------------------- every URL

  /** The results whose `put` returned False, in order. */
  function Refused<R>(rs: seq<R>, vs: seq<bool>): seq<R>
    requires |vs| <= |rs|
    decreases |vs|
  {
    if vs == [] then []
    else
      var n := |vs| - 1;
      Refused(rs, vs[..n]) + if vs[n] then [] else [rs[n]]
  }

  lemma {:induction false} KeptOrRefused<U>(rs: seq<Result<U>>, vs: seq<bool>)
    requires |vs| <= |rs|
    ensures multiset(Urls(T.Kept(rs, vs))) + multiset(Urls(Refused(rs, vs))) == multiset(Urls(rs[..|vs|]))
    decreases |vs|
  {
    if vs == [] {
      assert Urls(T.Kept(rs, vs)) == Urls(Refused(rs, vs)) == Urls(rs[..0]) == [];
    } else {
      var n := |vs| - 1;
      KeptOrRefused(rs, vs[..n]);
      assert rs[..n + 1] == rs[..n] + [rs[n]];
      UrlsSnoc(rs[..n], rs[n]);
      UrlsSnoc(T.Kept(rs, vs[..n]), rs[n]);
      UrlsSnoc(Refused(rs, vs[..n]), rs[n]);
      var k, f := T.Kept(rs, vs[..n]), Refused(rs, vs[..n]);
      assert k + [] == k && f + [] == f;
    }
  }

  /** A batch fails in this step before all of it has reached writer `n`. */
  predicate Skips<U>(s: Sys<U>, a: Action<U>, n: nat) { a.Inner? && T.Skips(s.u, a.a, n) }

  lemma SkipStep<U(!new)>(m: nat, s: Sys<U>, a: Action<U>, n: nat)
    requires T.Inv(s.u) && Enabled(m, s, a) && n < |s.u.writers|
    ensures s.u.s.p.pc.Crashed? ==> Step(m, s, a).u.s.p.pc.Crashed?
    ensures !Step(m, s, a).u.s.p.pc.Crashed? ==>
              (T.AllReached(Step(m, s, a).u.shares, n) <==> T.AllReached(s.u.shares, n) && !Skips(s, a, n))
  {
    PartEnabled(m, s, a);
    hide T.Inv, T.Enabled, R.Enabled, R.Step, T.Step, T.AllReached;
    if Part(s, a).Some? {
      T.ReachedStep(s.u, Part(s, a).value, n);
    }
  }

  lemma {:induction false} ReachedUnlessSkipped<U(!new)>(urls: seq<U>, states: seq<Sys<U>>, actions: seq<Action<U>>,
                                                         j: nat, n: nat)
    requires IsRun(|urls|, states, actions) && Inv(urls, states[0]) && states[0].u.shares == []
    requires j < |states| && n < |states[0].u.writers| && !states[j].u.s.p.pc.Crashed?
    ensures T.AllReached(states[j].u.shares, n) <==> forall k | 0 <= k < j :: !Skips(states[k], actions[k], n)
  {
    hide T.Inv, R.Inv, Enabled, Step, Skips;
    if j > 0 {
      RunKeepsInv(urls, states, actions, j - 1);
      assert states[j] == Step(|urls|, states[j - 1], actions[j - 1]);
      SkipStep(|urls|, states[j - 1], actions[j - 1], n);
      hide T.AllReached;
      ReachedUnlessSkipped(urls, states, actions, j - 1, n);
    }
  }

  /** For every schedule of workers, generator, pipeline and writers and every pattern of fetch exceptions
      and target failures: when `run` returns normally, each input URL is durable in writer `n` or was
      dropped by a timed-out `put`, exactly as often as it was given, if and only if no batch failed
      before all of it had reached that writer. */
  lemma EveryUrlIsDurableOrDropped<U(!new)>(urls: seq<U>, maxConcurrent: nat, cfg: P.Config, bufferSize: int,
                                            states: seq<Sys<U>>, actions: seq<Action<U>>, j: nat, n: nat)
    requires maxConcurrent >= 1 && P.ValidConfig(cfg) && IsRun(|urls|, states, actions) && j < |states|
    requires states[0] == Begin(urls, maxConcurrent, cfg, |states[0].u.writers|, bufferSize)
    requires states[j].u.phase == T.Closing(|states[0].u.writers|) && n < |states[0].u.writers|
    ensures var u := states[j].u;
            |u.writers| == |states[0].u.writers| && |u.verdicts| == |u.yielded| == |urls|
            && (multiset(Urls(u.writers[n].durable)) + multiset(Urls(Refused(u.yielded, u.verdicts))) == multiset(urls)
                <==> forall k | 0 <= k < j :: !Skips(states[k], actions[k], n))
            && (|u.writers[n].durable| + u.s.p.m.dropped == |urls|
                <==> forall k | 0 <= k < j :: !Skips(states[k], actions[k], n))
  {
    hide T.Inv, R.Inv, IsRun, Skips;
    BeginInv(urls, maxConcurrent, cfg, |states[0].u.writers|, bufferSize);
    RunKeepsInv(urls, states, actions, j);
    T.ClosedIsNotCrashed(states[j].u);
    ReachedUnlessSkipped(urls, states, actions, j, n);
    UrlsStored(urls, states[j], n);
  }

  lemma UrlsStored<U(!new)>(urls: seq<U>, s: Sys<U>, n: nat)
    requires Inv(urls, s) && s.u.phase == T.Closing(|s.u.writers|) && n < |s.u.writers|
    ensures var u := s.u;
            |u.verdicts| == |u.yielded| == |urls|
            && (multiset(Urls(u.writers[n].durable)) + multiset(Urls(Refused(u.yielded, u.verdicts))) == multiset(urls)
                <==> T.AllReached(u.shares, n))
            && (|u.writers[n].durable| + u.s.p.m.dropped == |urls| <==> T.AllReached(u.shares, n))
  {
    hide T.Inv, R.Inv, T.AllReached, Refused, T.Kept;
    var u := s.u;
    T.ClosedWriter(u, n);
    R.OverMeansAllYielded(urls, s.st);
    KeptOrRefused(u.yielded, u.verdicts);
    assert u.yielded[..|u.verdicts|] == u.yielded;
    assert |multiset(Urls(s.st.yielded))| == |multiset(urls)|;
    DroppedAreRefused(u);
    var d, f := multiset(Urls(u.writers[n].durable)), multiset(Urls(Refused(u.yielded, u.verdicts)));
    assert |d + f| == |u.writers[n].durable| + u.s.p.m.dropped;
  }

  lemma DroppedAreRefused<R(!new)>(u: T.Run<R>)
    requires T.Inv(u) && |u.verdicts| == |u.yielded|
    ensures |Refused(u.yielded, u.verdicts)| == u.s.p.m.dropped
  {
    RefusedLength(u.yielded, u.verdicts);
  }

  lemma {:induction false} RefusedLength<R>(rs: seq<R>, vs: seq<bool>)
    requires |vs| <= |rs|
    ensures |Refused(rs, vs)| == Count(vs, T.IsFalse)
    decreases |vs|
  {
    if vs != [] {
      var n := |vs| - 1;
      RefusedLength(rs, vs[..n]);
      assert vs == vs[..n] + [vs[n]];
      CountSnoc(vs[..n], vs[n], T.IsFalse);
    }
  }

  // ---------------------------------------------------------------- no deadlock

  /** The timeouts of `put` and of the generator, which the run may never see. */
  predicate IsTimeout<U>(a: Action<U>) { a == Inner(T.PutExpires) || a == Resume(R.GiveUp) }

  /** What the consumer does next, with working targets; only when it waits on an empty queue does it
      need its own timeout. */
  function ConsumerStep<R>(u: T.Run<R>): T.Action<R> {
    match u.s.p.pc
    case Looping => T.Heading
    case Fetching => if u.s.p.queue != [] then T.Receiving(false) else T.ReceiveExpires(true)
    case Handing(_) =>
      if u.failing then T.BatchFails else if u.wi < |u.writers| then T.WriteNext(true, true) else T.BatchWritten
    case Draining => T.Polling
    case Crashed => T.StopRaises
    case _ => T.StopReturns
  }

  lemma ConsumerCanMove<R(!new)>(u: T.Run<R>)
    requires T.Inv(u) && (u.phase.Pulling? || u.phase.Stopping?)
    requires u.phase.Pulling? ==> !u.s.p.pc.Stopped? && !u.s.p.pc.Crashed?
    ensures T.Enabled(u, ConsumerStep(u))
  {
  }

  lemma PullingRuns<R(!new)>(u: T.Run<R>)
    requires T.Inv(u) && u.phase.Pulling?
    ensures !u.s.p.pc.Stopped? && |u.s.producers| == 1
  {
  }

  predicate Over<U>(s: Sys<U>) { s.u.phase == T.Closing(|s.u.writers|) || s.u.phase.Raised? }

  /** Until `run` returns or raises some step is enabled, whatever fails; and as long as no failure killed
      the consumer, one that is neither the timeout of `put` nor that of the generator. */
  lemma NeverStuck<U(!new)>(urls: seq<U>, s: Sys<U>)
    requires Inv(urls, s) && !Over(s)
    ensures exists a: Action<U> :: Enabled(|urls|, s, a) && (!s.u.s.p.pc.Crashed? ==> !IsTimeout(a))
  {
    var n := |urls|;
    if s.u.phase.Closing? {
      assert Enabled(n, s, Inner(T.CloseNext(true, true)));
    } else if s.u.phase.Stopping? {
      ConsumerCanMove(s.u);
      assert Enabled(n, s, Inner(ConsumerStep(s.u)));
    } else {
      PullingRuns(s.u);
      hide T.Inv, R.Inv;
      PullingNotStuck(urls, s);
    }
  }

  lemma PullingNotStuck<U(!new)>(urls: seq<U>, s: Sys<U>)
    requires Inv(urls, s) && s.u.phase.Pulling? && !s.u.s.p.pc.Stopped? && |s.u.s.producers| == 1
    ensures exists a: Action<U> :: Enabled(|urls|, s, a) && (!s.u.s.p.pc.Crashed? ==> !IsTimeout(a))
  {
    var n := |urls|;
    if s.u.s.producers[0].Blocked? {
      if s.u.s.p.pc.Crashed? {
        assert Enabled(n, s, Inner(T.PutExpires));
      } else {
        ConsumerCanMove(s.u);
        assert Enabled(n, s, Inner(ConsumerStep(s.u)));
      }
    } else if |s.u.yielded| < |s.st.yielded| {
      var a: Action<U> := Take;
      assert Enabled(n, s, a) && !IsTimeout(a);
    } else if s.st.over {
      var a: Action<U> := Ends;
      assert Enabled(n, s, a) && !IsTimeout(a);
    } else {
      hide T.Inv;
      R.NeverStuck(urls, s.st);
      var b :| R.Enabled(n, s.st, b) && !b.GiveUp?;
      var a: Action<U> := if b.YieldNext? then Resume(b) else Work(b);
      assert Enabled(n, s, a) && !IsTimeout(a);
    }
  }
}
