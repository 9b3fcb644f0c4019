/** The streaming benchmark run: results go through the pipeline into every configured writer, whose
    targets may fail. */
module Streaming {
  import opened Common
  import P = Pipelines
  import S = PipelineSystem
  import Q = PipelineProperties
  import W = BufferedWriting

  /** Where `run` is: pulling results, waiting for the pipeline to drain, about to close writer `k` (or
      past the last of them), or ended by an exception of the consumer or of a close. */
  datatype Phase = Pulling | Stopping | Closing(k: nat) | Raised

  /** How far `write_batch` got with a batch: writers below `wi` have all of it, writer `wi` the first
      `ri` records, the others nothing. */
  datatype Share<R> = Share(items: seq<R>, wi: nat, ri: nat)

  /** `verdicts[i]` is what `put` returned for the i-th result; `wi` and `ri` say how far the current
      batch got, `failing` that a writer just raised; `shares` are the batches that are over. */
  datatype Run<R> = Run(
    s: S.Sys<R>,
    phase: Phase,
    yielded: seq<R>,
    verdicts: seq<bool>,
    writers: seq<W.Writer<R>>,
    wi: nat,
    ri: nat,
    failing: bool,
    shares: seq<Share<R>>)

  datatype Action<R> =
    | Yield(r: R)
    | PutSucceeds
    | PutExpires
    | StreamEnds
    | Heading
    | Receiving(timeUp: bool)
    | ReceiveExpires(timeUp: bool)
    | Polling
    | WriteNext(openOk: bool, writeOk: bool)
    | BatchWritten
    | BatchFails
    | StopReturns
    | StopRaises
    | CloseNext(writeOk: bool, closeOk: bool)

  function Begin<R>(cfg: P.Config, writers: nat, bufferSize: int): Run<R> {
    Run(S.Step(S.Begin(cfg, 1), S.Starting), Pulling, [], [], seq(writers, _ => W.Fresh(bufferSize)), 0, 0, false, [])
  }

  /** The step of the pipeline that an action stands for. */
  function PipelineAction<R>(a: Action<R>): Option<S.Action<R>> {
    match a
    case Yield(r) => Some(S.Putting(0, r))
    case PutSucceeds => Some(S.Waking(0))
    case PutExpires => Some(S.PutExpires(0))
    case StreamEnds => Some(S.Stopping(true))
    case Heading => Some(S.Heading)
    case Receiving(timeUp) => Some(S.Receiving(timeUp))
    case ReceiveExpires(timeUp) => Some(S.ReceiveExpires(timeUp))
    case Polling => Some(S.Polling)
    case BatchWritten => Some(S.Finishing(P.Returned))
    case BatchFails => Some(S.Finishing(P.Failed(false, false)))
    case StopReturns => Some(S.StopReturns)
    case _ => None
  }

  predicate Enabled<R>(u: Run<R>, a: Action<R>) {
    var pa := PipelineAction(a);
    && (pa.Some? ==> S.Enabled(u.s, pa.value))
    && match a
       case Yield(_) => u.phase.Pulling?
       case StreamEnds => u.phase.Pulling? && |u.s.producers| == 1 && u.s.producers[0].Ready?
       case WriteNext(_, _) => u.s.p.pc.Handing? && u.wi < |u.writers| && !u.failing
       case BatchWritten => u.wi == |u.writers| && !u.failing
       case BatchFails => u.failing
       case StopReturns => u.phase.Stopping?
       case StopRaises => u.phase.Stopping? && u.s.p.pc.Crashed?
       case CloseNext(_, _) => u.phase.Closing? && u.phase.k < |u.writers|
       case _ => true
  }

  /** One record of the batch into one writer, or on to the next writer. A record can have entered the
      buffer although the call raised. */
  function WriteOne<R>(u: Run<R>, openOk: bool, writeOk: bool): Run<R>
    requires u.wi < |u.writers|
  {
    if u.ri < |u.s.p.batch| then
      var w := u.writers[u.wi];
      var (v, ok) := W.Write(w, u.s.p.batch[u.ri], openOk, writeOk);
      u.(writers := u.writers[u.wi := v], failing := !ok,
         ri := if |v.appended| > |w.appended| then u.ri + 1 else u.ri)
    else u.(wi := u.wi + 1, ri := 0)
  }

  function CloseOne<R>(u: Run<R>, writeOk: bool, closeOk: bool): Run<R>
    requires u.phase.Closing? && u.phase.k < |u.writers|
  {
    var k := u.phase.k;
    var (v, ok) := W.Close(u.writers[k], writeOk, closeOk);
    u.(writers := u.writers[k := v], phase := if ok then Closing(k + 1) else Raised)
  }

  /** The batch is over, written or not, unless it took the consumer with it. */
  function EndBatch<R>(u: Run<R>, s: S.Sys<R>): Run<R> {
    if s.p.pc.Crashed? then u.(s := s)
    else u.(s := s, wi := 0, ri := 0, failing := false, shares := u.shares + [Share(u.s.p.batch, u.wi, u.ri)])
  }

  function Step<R>(u: Run<R>, a: Action<R>): Run<R>
    requires Enabled(u, a)
  {
    var pa := PipelineAction(a);
    var v := if pa.Some? then u.(s := S.Step(u.s, pa.value)) else u;
    match a
    case Yield(r) =>
      v.(yielded := u.yielded + [r],
         verdicts := if P.Put(u.s.p, r).1.Accepted? then u.verdicts + [true]
                     else if P.Put(u.s.p, r).1.Dropped? then u.verdicts + [false] else u.verdicts)
    case PutSucceeds => v.(verdicts := u.verdicts + [true])
    case PutExpires => v.(verdicts := u.verdicts + [false])
    case StreamEnds => v.(phase := Stopping)
    case WriteNext(openOk, writeOk) => WriteOne(u, openOk, writeOk)
    case BatchWritten => EndBatch(u, v.s)
    case BatchFails => EndBatch(u, v.s)
    case StopReturns => v.(phase := Closing(0))
    case StopRaises => v.(phase := Raised)
    case CloseNext(writeOk, closeOk) => CloseOne(u, writeOk, closeOk)
    case _ => v
  }

  ghost predicate IsRun<R(!new)>(states: seq<Run<R>>, actions: seq<Action<R>>) {
    && |states| == |actions| + 1
    && forall i | 0 <= i < |actions| :: Enabled(states[i], actions[i]) && states[i + 1] == Step(states[i], actions[i])
  }

  // ---------------------------------------------------------------- what was kept

  /** The results whose `put` returned True, in order. */
  function Kept<R>(rs: seq<R>, vs: seq<bool>): seq<R>
    requires |vs| <= |rs|
    decreases |vs|
  {
    if vs == [] then []
    else
      var n := |vs| - 1;
      Kept(rs, vs[..n]) + if vs[n] then [rs[n]] else []
  }

  predicate IsFalse(b: bool) { !b }

  lemma {:induction false} KeptExtend<R>(rs: seq<R>, r: R, vs: seq<bool>)
    requires |vs| <= |rs|
    ensures Kept(rs + [r], vs) == Kept(rs, vs)
    decreases |vs|
  {
    if vs != [] {
      KeptExtend(rs, r, vs[..|vs| - 1]);
    }
  }

  lemma KeptSnoc<R>(rs: seq<R>, vs: seq<bool>, v: bool)
    requires |vs| < |rs|
    ensures Kept(rs, vs + [v]) == Kept(rs, vs) + if v then [rs[|vs|]] else []
  {
    assert (vs + [v])[..|vs|] == vs;
  }

  lemma {:induction false} KeptLength<R>(rs: seq<R>, vs: seq<bool>)
    requires |vs| <= |rs|
    ensures |Kept(rs, vs)| + Count(vs, IsFalse) == |vs|
    decreases |vs|
  {
    if vs != [] {
      var n := |vs| - 1;
      KeptLength(rs, vs[..n]);
      assert vs == vs[..n] + [vs[n]];
      CountSnoc(vs[..n], vs[n], IsFalse);
    }
  }

  predicate PutLedger<R(==)>(u: Run<R>) {
    && |u.s.producers| == 1
    && |u.yielded| == |u.verdicts| + (if u.s.producers[0].Blocked? then 1 else 0)
    && (u.s.producers[0].Blocked? ==> u.s.producers[0].item == u.yielded[|u.verdicts|])
    && u.s.p.h.accepted == Kept(u.yielded, u.verdicts)
    && u.s.p.m.dropped == Count(u.verdicts, IsFalse)
  }

  // ---------------------------------------------------------------- what reached the writers

  /** What writer `n` got of a batch. */
  function ShareOf<R>(sh: Share<R>, n: nat): seq<R> {
    if n < sh.wi then sh.items else if n == sh.wi && sh.ri <= |sh.items| then sh.items[..sh.ri] else []
  }

  predicate Reached<R>(sh: Share<R>, n: nat) { n < sh.wi || (n == sh.wi && sh.ri == |sh.items|) }

  function Held<R>(shares: seq<Share<R>>, n: nat): seq<R> {
    if shares == [] then [] else Held(shares[..|shares| - 1], n) + ShareOf(shares[|shares| - 1], n)
  }

  function ItemsOf<R>(shares: seq<Share<R>>): seq<R> {
    if shares == [] then [] else ItemsOf(shares[..|shares| - 1]) + shares[|shares| - 1].items
  }

  lemma SharesSnoc<R>(shares: seq<Share<R>>, sh: Share<R>, n: nat)
    ensures Held(shares + [sh], n) == Held(shares, n) + ShareOf(sh, n)
    ensures ItemsOf(shares + [sh]) == ItemsOf(shares) + sh.items
  {
    assert (shares + [sh])[..|shares|] == shares;
  }

  predicate ShareOk<R>(sh: Share<R>) { sh.items != [] && sh.ri <= |sh.items| }

  /** A writer holds everything of the batches that are over exactly when each of them reached it. */
  lemma {:induction false} HeldExactly<R>(shares: seq<Share<R>>, n: nat)
    requires forall i | 0 <= i < |shares| :: ShareOk(shares[i])
    ensures |Held(shares, n)| <= |ItemsOf(shares)|
    ensures |Held(shares, n)| == |ItemsOf(shares)| <==> forall i | 0 <= i < |shares| :: Reached(shares[i], n)
    ensures Held(shares, n) == ItemsOf(shares) <==> forall i | 0 <= i < |shares| :: Reached(shares[i], n)
  {
    if shares != [] {
      var last := shares[|shares| - 1];
      HeldExactly(shares[..|shares| - 1], n);
      assert |ShareOf(last, n)| <= |last.items|;
      assert |ShareOf(last, n)| == |last.items| <==> Reached(last, n);
      assert Reached(last, n) ==> ShareOf(last, n) == last.items;
      hide ShareOf;
      forall i | 0 <= i < |shares| - 1
        ensures shares[..|shares| - 1][i] == shares[i]
      {
      }
    }
  }

  /** What writer `n` got of the batch in hand. */
  function Part<R>(u: Run<R>, n: nat): seq<R> {
    if S.InHand(u.s.p.pc) then ShareOf(Share(u.s.p.batch, u.wi, u.ri), n) else []
  }

  predicate WriterOk<R(==)>(u: Run<R>, n: nat)
    requires n < |u.writers|
  {
    var w := u.writers[n];
    && W.Inv(w) && w.raced == 0
    && w.appended == Held(u.shares, n) + Part(u, n)
    && (u.phase.Pulling? || u.phase.Stopping? ==> !w.closed)
    && (u.phase.Closing? ==> (w.closed <==> n < u.phase.k))
  }

  predicate SharesOk<R(==)>(u: Run<R>) {
    && ItemsOf(u.shares) == P.Items(u.s.p.h.log)
    && forall i | 0 <= i < |u.shares| :: ShareOk(u.shares[i])
  }

  predicate Writers<R(==)>(u: Run<R>) {
    && (forall n | 0 <= n < |u.writers| :: WriterOk(u, n))
    && u.wi <= |u.writers| && u.ri <= |u.s.p.batch|
    && (u.wi == |u.writers| ==> u.ri == 0 && !u.failing)
    && (!S.InHand(u.s.p.pc) ==> u.wi == 0 && u.ri == 0 && !u.failing)
  }

  ghost predicate PhaseOk<R(!new)>(u: Run<R>) {
    && (u.phase.Pulling? ==> !u.s.p.shutdown)
    && (u.phase.Pulling? || u.phase.Stopping? ==> u.s.p.running)
    && (!u.phase.Pulling? ==> Q.Quiet(u.s) && (P.DrainOver(u.s.p.pc) ==> u.s.p.h.late == []))
    && (u.phase.Closing? ==> u.s.p.pc.Stopped? && u.phase.k <= |u.writers|)
    && (u.phase.Raised? ==> u.s.p.pc.Stopped? || u.s.p.pc.Crashed?)
    && !u.s.p.pc.Cancelled?
  }

  ghost predicate Inv<R(!new)>(u: Run<R>) {
    S.Inv(u.s) && PutLedger(u) && SharesOk(u) && Writers(u) && PhaseOk(u)
  }

  lemma BeginInv<R(!new)>(cfg: P.Config, writers: nat, bufferSize: int)
    requires P.ValidConfig(cfg)
    ensures Inv<R>(Begin(cfg, writers, bufferSize))
  {
    var s := S.Begin<R>(cfg, 1);
    S.BeginInv<R>(cfg, 1);
    S.StepKeepsInv(s, S.Starting);
  }

  lemma YieldPutLedger<R(!new)>(u: Run<R>, r: R)
    requires PutLedger(u) && Enabled(u, Yield(r)) && !u.s.p.shutdown
    ensures PutLedger(Step(u, Yield(r)))
  {
    hide Kept, Count;
    KeptExtend(u.yielded, r, u.verdicts);
    KeptSnoc(u.yielded + [r], u.verdicts, true);
    KeptSnoc(u.yielded + [r], u.verdicts, false);
    CountSnoc(u.verdicts, true, IsFalse);
    CountSnoc(u.verdicts, false, IsFalse);
  }

  lemma ResolvePutLedger<R(!new)>(u: Run<R>, a: Action<R>)
    requires PutLedger(u) && (a.PutSucceeds? || a.PutExpires?) && Enabled(u, a)
    ensures PutLedger(Step(u, a))
  {
    hide Kept, Count;
    KeptSnoc(u.yielded, u.verdicts, a.PutSucceeds?);
    CountSnoc(u.verdicts, a.PutSucceeds?, IsFalse);
  }

  lemma StepPutLedger<R(!new)>(u: Run<R>, a: Action<R>)
    requires PutLedger(u) && Enabled(u, a) && (u.phase.Pulling? ==> !u.s.p.shutdown)
    ensures PutLedger(Step(u, a))
  {
    hide Kept, W.Write, W.Close, Count, P.Items;
    match a
    case Yield(r) => YieldPutLedger(u, r);
    case PutSucceeds => ResolvePutLedger(u, a);
    case PutExpires => ResolvePutLedger(u, a);
    case _ =>
  }

  lemma StepPhase<R(!new)>(u: Run<R>, a: Action<R>)
    requires Inv(u) && Enabled(u, a)
    ensures PhaseOk(Step(u, a))
  {
    hide PutLedger, SharesOk, Writers, Kept, Held, Part, W.Write, W.Close, S.Fifo, S.HandedOk, S.SizesOk, S.PutsOk;
    if PipelineAction(a).Some? && !u.phase.Pulling? {
      Q.QuietStep(u.s, PipelineAction(a).value);
    }
  }

  predicate EndsBatch<R>(a: Action<R>) { a.BatchWritten? || a.BatchFails? }

  /** The end of a batch adds it to what the consumer gave up, unless the consumer crashed. */
  lemma EndedBatch<R(!new)>(u: Run<R>, a: Action<R>)
    requires Enabled(u, a) && EndsBatch(a)
    ensures var t := Step(u, a);
            t.writers == u.writers && t.phase == u.phase
            && if t.s.p.pc.Crashed?
               then t == u.(s := t.s) && t.s.p.h.log == u.s.p.h.log && t.s.p.batch == u.s.p.batch && a.BatchFails?
               else !S.InHand(t.s.p.pc) && t.s.p.batch == [] && t.wi == t.ri == 0 && !t.failing
                    && t.shares == u.shares + [Share(u.s.p.batch, u.wi, u.ri)]
                    && P.Items(t.s.p.h.log) == P.Items(u.s.p.h.log) + u.s.p.batch
  {
    P.ItemsSnoc(u.s.p.h.log, P.Segment(u.s.p.batch, P.Settled));
    P.ItemsSnoc(u.s.p.h.log, P.Segment(u.s.p.batch, P.Suppressed));
  }

  /** No other step touches the batches given up or, while a batch is in hand, the batch. */
  lemma OtherPipeStep<R(!new)>(s: S.Sys<R>, a: S.Action<R>)
    requires S.Enabled(s, a) && !a.Finishing? && !a.Stopping? && !a.Starting?
    ensures var t := S.Step(s, a);
            t.p.h.log == s.p.h.log && |t.p.batch| >= |s.p.batch|
            && (S.InHand(s.p.pc) ==> t.p.batch == s.p.batch && t.p.pc == s.p.pc)
            && (S.InHand(t.p.pc) && !S.InHand(s.p.pc) ==> t.p.pc.Handing?)
  {
  }

  lemma OtherStep<R(!new)>(u: Run<R>, a: Action<R>)
    requires Enabled(u, a) && !EndsBatch(a) && !u.s.p.pc.Cancelled?
    ensures var t := Step(u, a);
            t.s.p.h.log == u.s.p.h.log && t.shares == u.shares && |t.s.p.batch| >= |u.s.p.batch|
            && (S.InHand(u.s.p.pc) ==> t.s.p.batch == u.s.p.batch && t.s.p.pc == u.s.p.pc)
            && (!a.WriteNext? && !a.CloseNext? ==>
                  t.writers == u.writers && t.wi == u.wi && t.ri == u.ri && t.failing == u.failing)
            && (t.phase != u.phase ==> a.StreamEnds? || a.StopReturns? || a.StopRaises? || a.CloseNext?)
  {
    if a.StreamEnds? {
      hide W.Write, W.Close;
    } else {
      if PipelineAction(a).Some? {
        OtherPipeStep(u.s, PipelineAction(a).value);
      }
      hide S.Step, S.Enabled, P.Put, W.Write, W.Close;
    }
  }

  lemma HandingWhenFinishing<R>(s: S.Sys<R>, a: S.Action<R>)
    requires S.Enabled(s, a) && a.Finishing?
    ensures s.p.pc.Handing?
  {
  }

  lemma StepShares<R(!new)>(u: Run<R>, a: Action<R>)
    requires Inv(u) && Enabled(u, a)
    ensures SharesOk(Step(u, a))
  {
    hide S.Inv, PutLedger, ItemsOf, Held, P.Items, Step, Enabled, WriterOk, PipelineAction, S.Enabled, Q.Quiet;
    if EndsBatch(a) {
      EndedBatch(u, a);
      EndsInHand(u, a);
      SharesSnoc(u.shares, Share(u.s.p.batch, u.wi, u.ri), 0);
    } else {
      OtherStep(u, a);
    }
  }

  lemma EndsInHand<R(!new)>(u: Run<R>, a: Action<R>)
    requires S.Inv(u.s) && Enabled(u, a) && EndsBatch(a)
    ensures S.InHand(u.s.p.pc) && u.s.p.batch != []
  {
    HandingWhenFinishing(u.s, PipelineAction(a).value);
  }

  /** The batch in hand becomes the last of those that are over. */
  lemma PartIsShare<R(!new)>(u: Run<R>, t: Run<R>, n: nat)
    requires S.InHand(u.s.p.pc) && !S.InHand(t.s.p.pc) && t.shares == u.shares + [Share(u.s.p.batch, u.wi, u.ri)]
    ensures Held(t.shares, n) + Part(t, n) == Held(u.shares, n) + Part(u, n)
  {
    SharesSnoc(u.shares, Share(u.s.p.batch, u.wi, u.ri), n);
    assert Held(t.shares, n) + [] == Held(t.shares, n);
    hide Held, ShareOf;
  }

  lemma EndKeepsWriters<R(!new)>(u: Run<R>, a: Action<R>)
    requires Inv(u) && Enabled(u, a) && EndsBatch(a)
    ensures Writers(Step(u, a))
  {
    var t := Step(u, a);
    EndedBatch(u, a);
    HandingWhenFinishing(u.s, PipelineAction(a).value);
    hide Step, Enabled, Held, ShareOf, Part, W.Inv, S.Inv, PutLedger, SharesOk, PhaseOk, P.Items;
    forall n | 0 <= n < |t.writers|
      ensures WriterOk(t, n)
    {
      assert WriterOk(u, n);
      if t.s.p.pc.Crashed? {
        SamePart(u, t, n);
      } else {
        PartIsShare(u, t, n);
      }
    }
  }

  lemma SamePart<R(!new)>(u: Run<R>, t: Run<R>, n: nat)
    requires S.InHand(u.s.p.pc) && S.InHand(t.s.p.pc)
    requires t.s.p.batch == u.s.p.batch && t.wi == u.wi && t.ri == u.ri
    ensures Part(t, n) == Part(u, n)
  {
  }

  lemma OthersKeepWriters<R(!new)>(u: Run<R>, a: Action<R>)
    requires Inv(u) && Enabled(u, a) && !a.WriteNext? && !a.CloseNext? && !EndsBatch(a)
    ensures Writers(Step(u, a))
  {
    var t := Step(u, a);
    OtherStep(u, a);
    StepPhase(u, a);
    hide PutLedger, Kept, Held, ShareOf, W.Inv, S.Inv, SharesOk, Q.Quiet, S.Step, S.Enabled;
    forall n | 0 <= n < |t.writers|
      ensures WriterOk(t, n)
    {
      assert WriterOk(u, n);
      NothingYet(t, n);
    }
  }

  /** A batch that is handed over has reached nobody yet. */
  lemma NothingYet<R>(u: Run<R>, n: nat)
    ensures u.wi == u.ri == 0 ==> Part(u, n) == []
  {
  }

  /** A writer that holds `held` and the first `ri` records of `b` is given the next one. */
  lemma WriteGrows<R>(w: W.Writer<R>, held: seq<R>, b: seq<R>, ri: nat, openOk: bool, writeOk: bool)
    requires W.Inv(w) && !w.closed && w.raced == 0 && ri < |b| && w.appended == held + b[..ri]
    ensures var v := W.Write(w, b[ri], openOk, writeOk).0;
            W.Inv(v) && !v.closed && v.raced == 0
            && v.appended == held + b[..if |v.appended| > |w.appended| then ri + 1 else ri]
  {
    W.WriteKeepsInv(w, b[ri], openOk, writeOk);
    hide W.Write, W.Inv;
    assert b[..ri + 1] == b[..ri] + [b[ri]];
    assert held + b[..ri] + [b[ri]] == held + b[..ri + 1];
  }

  lemma WriteReaches<R(!new)>(u: Run<R>, openOk: bool, writeOk: bool)
    requires Inv(u) && Enabled(u, WriteNext(openOk, writeOk)) && u.ri < |u.s.p.batch|
    ensures WriterOk(WriteOne(u, openOk, writeOk), u.wi) && WriteOne(u, openOk, writeOk).ri <= |u.s.p.batch|
  {
    hide S.Inv, PutLedger, SharesOk, Held, W.Write, W.Inv, Q.Quiet;
    assert WriterOk(u, u.wi) && (u.phase.Pulling? || u.phase.Stopping?);
    WriteGrows(u.writers[u.wi], Held(u.shares, u.wi), u.s.p.batch, u.ri, openOk, writeOk);
  }

  lemma OtherPart<R(!new)>(u: Run<R>, t: Run<R>, n: nat)
    requires n != u.wi && t.wi == u.wi && t.s == u.s
    ensures Part(t, n) == Part(u, n)
  {
  }

  lemma WriterDone<R>(u: Run<R>, n: nat)
    requires u.ri == |u.s.p.batch|
    ensures Part(u.(wi := u.wi + 1, ri := 0), n) == Part(u, n)
  {
    assert u.s.p.batch[..u.ri] == u.s.p.batch && u.s.p.batch[..0] == [];
  }

  lemma WriteOneKeeps<R(!new)>(u: Run<R>, openOk: bool, writeOk: bool)
    requires Inv(u) && Enabled(u, WriteNext(openOk, writeOk))
    ensures Writers(WriteOne(u, openOk, writeOk))
  {
    var t := WriteOne(u, openOk, writeOk);
    if u.ri < |u.s.p.batch| {
      WriteReaches(u, openOk, writeOk);
    }
    hide W.Write, W.Inv, S.Inv, PutLedger, SharesOk, PhaseOk, Held, ShareOf, Part;
    forall n | 0 <= n < |t.writers|
      ensures WriterOk(t, n)
    {
      assert WriterOk(u, n);
      if u.ri == |u.s.p.batch| {
        WriterDone(u, n);
      } else if n != u.wi {
        OtherPart(u, t, n);
      }
    }
  }

  lemma CloseOneKeeps<R(!new)>(u: Run<R>, writeOk: bool, closeOk: bool)
    requires Inv(u) && Enabled(u, CloseNext(writeOk, closeOk))
    ensures Writers(CloseOne(u, writeOk, closeOk))
  {
    var t := CloseOne(u, writeOk, closeOk);
    assert WriterOk(u, u.phase.k);
    W.CloseKeepsInv(u.writers[u.phase.k], writeOk, closeOk);
    hide W.Close, W.Inv, S.Inv, PutLedger, SharesOk, PhaseOk, Held, ShareOf;
    forall n | 0 <= n < |t.writers|
      ensures WriterOk(t, n)
    {
      assert WriterOk(u, n);
    }
  }

  lemma StepWriters<R(!new)>(u: Run<R>, a: Action<R>)
    requires Inv(u) && Enabled(u, a)
    ensures Writers(Step(u, a))
  {
    if EndsBatch(a) {
      EndKeepsWriters(u, a);
    } else if a.WriteNext? {
      WriteOneKeeps(u, a.openOk, a.writeOk);
    } else if a.CloseNext? {
      CloseOneKeeps(u, a.writeOk, a.closeOk);
    } else {
      OthersKeepWriters(u, a);
    }
  }

  lemma SameWriters<R(!new)>(u: Run<R>, a: Action<R>)
    requires Enabled(u, a)
    ensures |Step(u, a).writers| == |u.writers|
  {
    hide W.Write, W.Close, S.Step, S.Enabled;
  }

  lemma StepKeepsInv<R(!new)>(u: Run<R>, a: Action<R>)
    requires Inv(u) && Enabled(u, a)
    ensures Inv(Step(u, a)) && |Step(u, a).writers| == |u.writers|
  {
    StepPutLedger(u, a);
    StepPhase(u, a);
    StepShares(u, a);
    StepWriters(u, a);
    SameWriters(u, a);
    hide PutLedger, PhaseOk, Writers, SharesOk, S.Inv, S.Step, W.Write, W.Close;
    if PipelineAction(a).Some? {
      S.StepKeepsInv(u.s, PipelineAction(a).value);
    }
  }

  lemma {:induction false} RunKeepsInv<R(!new)>(states: seq<Run<R>>, actions: seq<Action<R>>, j: nat)
    requires IsRun(states, actions) && Inv(states[0]) && j < |states|
    ensures Inv(states[j]) && |states[j].writers| == |states[0].writers|
  {
    hide Inv, Step, Enabled;
    if j > 0 {
      RunKeepsInv(states, actions, j - 1);
      StepKeepsInv(states[j - 1], actions[j - 1]);
      assert states[j] == Step(states[j - 1], actions[j - 1]);
    }
  }

  // ---------------------------------------------------------------- what each writer ends up with

  /** In every state of every run, whatever the targets do, what a writer has stored and buffered is, in
      order, its share of the batches given up and of the one in hand. */
  lemma WriterHoldsItsShares<R(!new)>(cfg: P.Config, bufferSize: int,
                                      states: seq<Run<R>>, actions: seq<Action<R>>, j: nat, n: nat)
    requires P.ValidConfig(cfg) && j < |states| && n < |states[0].writers|
    requires IsRun(states, actions) && states[0] == Begin(cfg, |states[0].writers|, bufferSize)
    ensures |states[j].writers| == |states[0].writers|
    ensures var u := states[j];
            u.writers[n].durable + u.writers[n].buffer == Held(u.shares, n) + Part(u, n)
            && ItemsOf(u.shares) == P.Items(u.s.p.h.log)
  {
    BeginInv<R>(cfg, |states[0].writers|, bufferSize);
    RunKeepsInv(states, actions, j);
    assert WriterOk(states[j], n);
  }

  /** The batch fails before all of it has reached writer `n`. */
  predicate Skips<R>(u: Run<R>, a: Action<R>, n: nat) {
    a.BatchFails? && !Reached(Share(u.s.p.batch, u.wi, u.ri), n)
  }

  predicate AllReached<R>(shares: seq<Share<R>>, n: nat) {
    forall i | 0 <= i < |shares| :: Reached(shares[i], n)
  }

  lemma ReachedStep<R(!new)>(u: Run<R>, a: Action<R>, n: nat)
    requires Inv(u) && Enabled(u, a) && n < |u.writers|
    ensures u.s.p.pc.Crashed? ==> Step(u, a).s.p.pc.Crashed?
    ensures !Step(u, a).s.p.pc.Crashed? ==>
              (AllReached(Step(u, a).shares, n) <==> AllReached(u.shares, n) && !Skips(u, a, n))
  {
    if EndsBatch(a) {
      EndedBatch(u, a);
      var t, sh := Step(u, a), Share(u.s.p.batch, u.wi, u.ri);
      if !t.s.p.pc.Crashed? {
        assert t.shares[|u.shares|] == sh;
        assert forall i | 0 <= i < |u.shares| :: t.shares[i] == u.shares[i];
      }
    } else {
      OtherStep(u, a);
    }
    hide Inv;
  }

  lemma {:induction false} ReachedUnlessSkipped<R(!new)>(states: seq<Run<R>>, actions: seq<Action<R>>, j: nat, n: nat)
    requires IsRun(states, actions) && Inv(states[0]) && states[0].shares == []
    requires j < |states| && n < |states[0].writers| && !states[j].s.p.pc.Crashed?
    ensures AllReached(states[j].shares, n) <==> forall k | 0 <= k < j :: !Skips(states[k], actions[k], n)
  {
    hide Inv, Enabled, Step, Skips;
    if j > 0 {
      RunKeepsInv(states, actions, j - 1);
      assert states[j] == Step(states[j - 1], actions[j - 1]);
      ReachedStep(states[j - 1], actions[j - 1], n);
      hide AllReached;
      ReachedUnlessSkipped(states, actions, j - 1, n);
    }
  }

  /** When `run` returns normally, a writer holds durably exactly the yielded results whose `put` returned
      True, in order, and with the dropped ones they are all requests, if and only if no batch failed
      before all of it had reached that writer (such failures are suppressed during the drain). */
  lemma EveryWriterStoresTheStream<R(!new)>(cfg: P.Config, bufferSize: int,
                                            states: seq<Run<R>>, actions: seq<Action<R>>, j: nat, n: nat)
    requires P.ValidConfig(cfg) && j < |states|
    requires IsRun(states, actions) && states[0] == Begin(cfg, |states[0].writers|, bufferSize)
    requires states[j].phase == Closing(|states[0].writers|) && n < |states[0].writers|
    ensures |states[j].writers| == |states[0].writers| && |states[j].verdicts| == |states[j].yielded|
    ensures states[j].writers[n].durable == Held(states[j].shares, n)
    ensures states[j].writers[n].durable == Kept(states[j].yielded, states[j].verdicts)
            <==> forall k | 0 <= k < j :: !Skips(states[k], actions[k], n)
    ensures |states[j].writers[n].durable| + states[j].s.p.m.dropped == |states[j].yielded|
            <==> forall k | 0 <= k < j :: !Skips(states[k], actions[k], n)
  {
    BeginInv<R>(cfg, |states[0].writers|, bufferSize);
    RunKeepsInv(states, actions, j);
    ClosedWriter(states[j], n);
    ClosedIsNotCrashed(states[j]);
    hide Inv, Step, Enabled, Skips;
    ReachedUnlessSkipped(states, actions, j, n);
  }

  lemma ClosedIsNotCrashed<R(!new)>(u: Run<R>)
    requires Inv(u) && u.phase.Closing?
    ensures !u.s.p.pc.Crashed?
  {
  }

  lemma ClosedWriter<R(!new)>(u: Run<R>, n: nat)
    requires Inv(u) && u.phase == Closing(|u.writers|) && n < |u.writers|
    ensures |u.verdicts| == |u.yielded| && u.writers[n].durable == Held(u.shares, n)
    ensures u.writers[n].durable == Kept(u.yielded, u.verdicts) <==> AllReached(u.shares, n)
    ensures |u.writers[n].durable| + u.s.p.m.dropped == |u.yielded| <==> AllReached(u.shares, n)
  {
    var p := u.s.p;
    assert WriterOk(u, n);
    assert p.queue == [] && p.batch == [];
    assert P.Items(p.h.log) + [] == P.Items(p.h.log) && Held(u.shares, n) + [] == Held(u.shares, n);
    KeptLength(u.yielded, u.verdicts);
    HeldExactly(u.shares, n);
  }

  // ---------------------------------------------------------------- a failure nobody hears of

  const LOSING_CONFIG := P.Config(1, 1, false, false)

  /** The target cannot be opened while the drain hands over the only batch. */
  const LOSING_ACTIONS: seq<Action<int>> := [
    Yield(7), StreamEnds, Heading, Polling, WriteNext(false, true), BatchFails, Polling, StopReturns,
    CloseNext(true, true)]

  function LosingState(queue: seq<int>, running: bool, shutdown: bool, pc: P.Pc, batch: seq<int>, h: P.History<int>,
                       phase: Phase, failing: bool, shares: seq<Share<int>>, closed: bool): Run<int>
  {
    Run(S.Sys(P.Pipe(LOSING_CONFIG, queue, running, shutdown, pc, batch, P.Counters(0, 0, 0), h), [S.Ready], 1),
        phase, [7], [true],
        [W.Writer(1, [], false, closed, [], [], 0)], 0, 0, failing, shares)
  }

  const LOSING_LOG := [P.Segment([7], P.Suppressed)]

  const LOSING_STATES: seq<Run<int>> := [
    Run(S.Sys(P.Pipe(LOSING_CONFIG, [], true, false, P.Looping, [], P.Counters(0, 0, 0), P.History([], [], [], 0, [])),
              [S.Ready], 0),
        Pulling, [], [], [W.Writer(1, [], false, false, [], [], 0)], 0, 0, false, []),
    LosingState([7], true, false, P.Looping, [], P.History([7], [], [], 0, []), Pulling, false, [], false),
    LosingState([7], true, true, P.Looping, [], P.History([7], [], [], 0, []), Stopping, false, [], false),
    LosingState([7], true, true, P.Draining, [], P.History([7], [], [], 0, []), Stopping, false, [], false),
    LosingState([], true, true, P.Handing(P.DrainFull), [7], P.History([7], [], [[7]], 0, []), Stopping, false,
                [], false),
    LosingState([], true, true, P.Handing(P.DrainFull), [7], P.History([7], [], [[7]], 0, []), Stopping, true,
                [], false),
    LosingState([], true, true, P.Draining, [], P.History([7], LOSING_LOG, [[7]], 0, []), Stopping, false,
                [Share([7], 0, 0)], false),
    LosingState([], true, true, P.Stopped, [], P.History([7], LOSING_LOG, [[7]], 0, []), Stopping, false,
                [Share([7], 0, 0)], false),
    LosingState([], false, true, P.Stopped, [], P.History([7], LOSING_LOG, [[7]], 0, []), Closing(0), false,
                [Share([7], 0, 0)], false),
    LosingState([], false, true, P.Stopped, [], P.History([7], LOSING_LOG, [[7]], 0, []), Closing(1), false,
                [Share([7], 0, 0)], true)]

  predicate LosingStep(k: nat)
    requires k < 9
  {
    Enabled(LOSING_STATES[k], LOSING_ACTIONS[k])
    && LOSING_STATES[k + 1] == Step(LOSING_STATES[k], LOSING_ACTIONS[k])
  }

  lemma LosingBegins()
    ensures LOSING_STATES[0] == Begin(LOSING_CONFIG, 1, 1)
  {
    hide W.Write, W.Close;
    var u := Begin<int>(LOSING_CONFIG, 1, 1);
    assert u.s.producers == [S.Ready] && u.writers == [W.Fresh(1)];
  }

  lemma LosingYield()
    ensures LosingStep(0)
  {
    hide W.Write, W.Close;
    var none: seq<int>, noVerdict: seq<bool> := [], [];
    assert none + [7] == [7] && noVerdict + [true] == [true];
  }

  lemma LosingStop()
    ensures LosingStep(1)
  {
    hide W.Write, W.Close;
  }

  lemma LosingHead()
    ensures LosingStep(2)
  {
    hide W.Write, W.Close;
  }

  lemma LosingPoll()
    ensures LosingStep(3)
  {
    hide W.Write, W.Close;
    var none: seq<int>, noBatch: seq<seq<int>> := [], [];
    assert [7][1..] == [] && none + [7] == [7] && noBatch + [[7]] == [[7]];
  }

  lemma LosingWrite()
    ensures LosingStep(4)
  {
  }

  lemma LosingFail()
    ensures LosingStep(5)
  {
    hide W.Write, W.Close;
    var noLog: seq<P.Segment<int>>, noShare: seq<Share<int>> := [], [];
    assert noLog + LOSING_LOG == LOSING_LOG && noShare + [Share([7], 0, 0)] == [Share([7], 0, 0)];
  }

  lemma LosingEnd()
    ensures LosingStep(6)
  {
    hide W.Write, W.Close;
  }

  lemma LosingReturn()
    ensures LosingStep(7)
  {
    hide W.Write, W.Close;
  }

  lemma LosingClose()
    ensures LosingStep(8)
  {
  }

  /** A run that returns normally, with a `put` that returned True and nothing stored. */
  lemma SuppressedFailureLosesABatch()
    ensures IsRun(LOSING_STATES, LOSING_ACTIONS) && LOSING_STATES[0] == Begin(LOSING_CONFIG, 1, 1)
    ensures var u := LOSING_STATES[9];
            u.phase == Closing(1) && u.yielded == [7] && u.verdicts == [true] && u.s.p.m.dropped == 0
            && u.writers[0].durable == []
  {
    hide Step, Enabled, Begin;
    LosingBegins();
    LosingYield();
    LosingStop();
    LosingHead();
    LosingPoll();
    LosingWrite();
    LosingFail();
    LosingEnd();
    LosingReturn();
    LosingClose();
  }
}
