/** The producer/consumer pipeline: a bounded queue, a batching consumer and a shutdown drain. */
module Pipelines {
  import opened Common

  datatype Config = Config(maxQueue: nat, batchSize: nat, dropOnFull: bool, hasOnError: bool)

  predicate ValidConfig(c: Config) { c.maxQueue >= 1 && c.batchSize >= 1 }

  /** Which hand-over to `on_batch` is in progress: in the main loop, of the partial batch found at
      shutdown, of a full batch of the drain, or of what remains after it. */
  datatype Hand = Main | Leftover | DrainFull | Final

  /** Where the consumer task is suspended or about to continue. */
  datatype Pc = NotStarted | Looping | Fetching | Handing(hand: Hand) | Draining | Stopped | Crashed | Cancelled

  /** What became of a batch the consumer gave up: processed, processed with a suppressed exception
      during the drain, or abandoned by a cancelled consumer. */
  datatype Fate = Settled | Suppressed | Lost
  datatype Segment<T> = Segment(items: seq<T>, fate: Fate)

  datatype Counters = Counters(itemsProcessed: nat, batchesProcessed: nat, dropped: nat)

  /** What happened so far. `accepted` are the items that entered the queue, `log` the batches the
      consumer gave up, `handed` every call of `on_batch`, `kept` the batches retained after a failed
      hand-over, and `late` the items that entered after the drain found the queue empty. */
  datatype History<T> = History(accepted: seq<T>, log: seq<Segment<T>>, handed: seq<seq<T>>, kept: nat, late: seq<T>)

  datatype Pipe<T> = Pipe(
    cfg: Config,
    queue: seq<T>,
    running: bool,
    shutdown: bool,
    pc: Pc,
    batch: seq<T>,
    m: Counters,
    h: History<T>)

  function Fresh<T>(cfg: Config): Pipe<T> {
    Pipe(cfg, [], false, false, NotStarted, [], Counters(0, 0, 0), History([], [], [], 0, []))
  }

  function Items<T>(log: seq<Segment<T>>): seq<T> {
    if log == [] then [] else log[0].items + Items(log[1..])
  }

  lemma {:induction false} ItemsSnoc<T>(log: seq<Segment<T>>, g: Segment<T>)
    ensures Items(log + [g]) == Items(log) + g.items
  {
    if log == [] {
      assert log + [g] == [g];
    } else {
      ItemsSnoc(log[1..], g);
      assert (log + [g])[1..] == log[1..] + [g];
    }
  }

  function Batches<T>(log: seq<Segment<T>>): (r: seq<seq<T>>)
    ensures |r| == |log|
  {
    seq(|log|, i requires 0 <= i < |log| => log[i].items)
  }

  // ---------------------------------------------------------------- producers

  datatype PutResult = Raises | Accepted | Dropped | Blocks

  predicate DrainOver(pc: Pc) { pc.Stopped? || pc == Handing(Final) }

  function Accept<T>(p: Pipe<T>, item: T): Pipe<T> {
    p.(queue := p.queue + [item],
       h := p.h.(accepted := p.h.accepted + [item],
                 late := if DrainOver(p.pc) then p.h.late + [item] else p.h.late))
  }

  function Drop<T>(p: Pipe<T>): Pipe<T> {
    p.(m := p.m.(dropped := p.m.dropped + 1))
  }

  function Put<T>(p: Pipe<T>, item: T): (Pipe<T>, PutResult) {
    if p.shutdown then (p, Raises)
    else if |p.queue| < p.cfg.maxQueue then (Accept(p, item), Accepted)
    else if p.cfg.dropOnFull then (Drop(p), Dropped)
    else (p, Blocks)
  }

  // ---------------------------------------------------------------- consumer

  /** What a call of `on_batch` did, and whether the error callbacks themselves raised. */
  datatype Outcome = Returned | Failed(onErrorRaises: bool, outerRaises: bool)

  function StartHand<T>(p: Pipe<T>, hand: Hand): Pipe<T> {
    p.(pc := Handing(hand), h := p.h.(handed := p.h.handed + [p.batch]))
  }

  function GiveUp<T>(p: Pipe<T>, fate: Fate): Pipe<T> {
    p.(batch := [], h := p.h.(log := p.h.log + [Segment(p.batch, fate)]))
  }

  /** The test at the head of the main loop. */
  function CheckShutdown<T>(p: Pipe<T>): Pipe<T> {
    if !p.shutdown then p.(pc := Fetching)
    else if p.batch != [] then StartHand(p, Leftover)
    else p.(pc := Draining)
  }

  function AfterFetch<T>(p: Pipe<T>, timeUp: bool): Pipe<T> {
    if p.batch != [] && (|p.batch| >= p.cfg.batchSize || timeUp) then StartHand(p, Main) else p.(pc := Looping)
  }

  function Pop<T>(p: Pipe<T>): Pipe<T>
    requires p.queue != []
  {
    p.(batch := p.batch + [p.queue[0]], queue := p.queue[1..])
  }

  function NextPc(hand: Hand): Pc {
    match hand
    case Main => Looping
    case Leftover => Draining
    case DrainFull => Draining
    case Final => Stopped
  }

  predicate Escapes(cfg: Config, o: Outcome) { o.Failed? && (!cfg.hasOnError || o.onErrorRaises) }

  /** `on_batch` is over. An exception that escapes is suppressed by the drain; in the main loop it
      kills the consumer unless the outer error callback swallows it, and then the batch is kept. */
  function FinishHand<T>(p: Pipe<T>, o: Outcome): Pipe<T>
    requires p.pc.Handing?
  {
    if !Escapes(p.cfg, o) then
      GiveUp(p, Settled).(pc := NextPc(p.pc.hand),
        m := p.m.(itemsProcessed := p.m.itemsProcessed + |p.batch|, batchesProcessed := p.m.batchesProcessed + 1))
    else if p.pc.hand != Main then
      GiveUp(p, Suppressed).(pc := NextPc(p.pc.hand))
    else if p.cfg.hasOnError && !o.outerRaises then
      p.(pc := Looping, h := p.h.(kept := p.h.kept + 1))
    else
      p.(pc := Crashed)
  }

  /** One round of the drain loop, or leaving it when the queue is empty. */
  function DrainPoll<T>(p: Pipe<T>): Pipe<T> {
    if p.queue == [] then
      var q := p.(h := p.h.(late := []));
      if q.batch != [] then StartHand(q, Final) else q.(pc := Stopped)
    else
      var q := Pop(p);
      if |q.batch| >= q.cfg.batchSize then StartHand(q, DrainFull) else q
  }

  // ---------------------------------------------------------------- control

  predicate Finished(pc: Pc) { pc.Stopped? || pc.Crashed? || pc.Cancelled? }

  function StopBegin<T>(p: Pipe<T>, drain: bool): Pipe<T> {
    if !p.running then p
    else p.(shutdown := true, pc := if drain || Finished(p.pc) then p.pc else Cancelled)
  }

  function StopEnd<T>(p: Pipe<T>): Pipe<T> { p.(running := false) }

  function Start<T>(p: Pipe<T>): Pipe<T> {
    if p.running then p
    else (if p.pc.Cancelled? && p.batch != [] then GiveUp(p, Lost) else p)
         .(running := true, shutdown := false, pc := Looping, batch := [])
  }

  // ---------------------------------------------------------------- chunks

  /** `s` cut into pieces of `n`, the last one possibly shorter. */
  function Chunks<T>(s: seq<T>, n: nat): seq<seq<T>>
    requires n >= 1
  {
    if s == [] then [] else if |s| <= n then [s] else [s[..n]] + Chunks(s[n..], n)
  }

  lemma {:induction false} ChunksFlatten<T>(s: seq<T>, n: nat)
    requires n >= 1
    ensures Flatten(Chunks(s, n)) == s
  {
    if |s| > n {
      ChunksFlatten(s[n..], n);
      assert s == s[..n] + s[n..];
    } else if s != [] {
      assert Flatten([s]) == s;
    }
  }

  /** `q` full pieces, and one of `r` items if `r` is not zero. */
  predicate Cut<T>(pieces: seq<seq<T>>, n: nat, q: int, r: int) {
    && |pieces| == q + (if r == 0 then 0 else 1)
    && forall i | 0 <= i < |pieces| :: |pieces[i]| == if i < q then n else r
  }

  lemma CutFirst<T>(first: seq<T>, pieces: seq<seq<T>>, n: nat, q: int, r: int)
    requires Cut(pieces, n, q, r) && |first| == n && q >= 0
    ensures Cut([first] + pieces, n, q + 1, r)
  {
  }

  lemma {:induction false} ChunksCut<T>(s: seq<T>, n: nat)
    requires n >= 1
    ensures Cut(Chunks(s, n), n, |s| / n, |s| % n)
  {
    hide Cut;
    if |s| > n {
      ChunksCut(s[n..], n);
      DivShift(|s[n..]|, n);
      CutFirst(s[..n], Chunks(s[n..], n), n, |s[n..]| / n, |s[n..]| % n);
    } else {
      OnePiece(s, n);
    }
  }

  lemma OnePiece<T>(s: seq<T>, n: nat)
    requires n >= 1 && |s| <= n
    ensures Cut(Chunks(s, n), n, |s| / n, |s| % n)
  {
    if |s| == n {
      DivShift(0, n);
    }
  }

  /** All pieces but the last are full, none is empty, and together they are `s`. */
  lemma ChunksShape<T>(s: seq<T>, n: nat)
    requires n >= 1
    ensures Flatten(Chunks(s, n)) == s
    ensures |Chunks(s, n)| == |s| / n + if |s| % n == 0 then 0 else 1
    ensures forall i | 0 <= i < |Chunks(s, n)| ::
              |Chunks(s, n)[i]| == if i < |s| / n then n else |s| % n
  {
    hide Chunks, Flatten;
    ChunksFlatten(s, n);
    ChunksCut(s, n);
  }

  lemma DivShift(a: nat, n: nat)
    requires n >= 1
    ensures (a + n) / n == a / n + 1 && (a + n) % n == a % n
  {
    var d := (a + n) / n - a / n - 1;
    assert d * n == a % n - (a + n) % n;
    SmallMultiple(d, n);
  }

  lemma SmallMultiple(d: int, n: int)
    requires n >= 1 && -n < d * n < n
    ensures d == 0
  {
  }

  /** Cutting off a full first piece. */
  lemma ChunksCons<T>(a: seq<T>, b: seq<T>, n: nat)
    requires n >= 1 && |a| == n
    ensures Chunks(a + b, n) == [a] + Chunks(b, n)
  {
    assert (a + b)[..n] == a && (a + b)[n..] == b;
    if b == [] {
      assert a + b == a;
    }
  }

  // ---------------------------------------------------------------- the class

  class ProducerConsumerPipeline<T> {
    const cfg: Config
    var queue: seq<T>
    var running: bool
    var shutdown: bool
    var pc: Pc          // the consumer task
    var batch: seq<T>   // and its local batch
    var metrics: Counters
    ghost var h: History<T>

    ghost function Abs(): Pipe<T>
      reads this
    {
      Pipe(cfg, queue, running, shutdown, pc, batch, metrics, h)
    }

    constructor (cfg: Config)
      ensures Abs() == Fresh(cfg)
    {
      this.cfg := cfg;
      queue, running, shutdown, pc, batch := [], false, false, NotStarted, [];
      metrics, h := Counters(0, 0, 0), History([], [], [], 0, []);
    }

    /** `put`, up to the point where it would block. */
    method TryPut(item: T) returns (r: PutResult)
      modifies this
      ensures (Abs(), r) == Put(old(Abs()), item)
    {
      if shutdown {
        return Raises;
      }
      if |queue| < cfg.maxQueue {
        Enqueue(item);
        return Accepted;
      }
      if cfg.dropOnFull {
        NoteDropped();
        return Dropped;
      }
      return Blocks;
    }

    method Enqueue(item: T)
      modifies this`queue, this`h
      ensures Abs() == Accept(old(Abs()), item)
    {
      queue := queue + [item];
      h := h.(accepted := h.accepted + [item], late := if DrainOver(pc) then h.late + [item] else h.late);
    }

    method NoteDropped()
      modifies this`metrics
      ensures Abs() == Drop(old(Abs()))
    {
      metrics := metrics.(dropped := metrics.dropped + 1);
    }

    /** Calls `on_batch`; what it does is left to `Finish`. */
    method HandOver(hand: Hand)
      modifies this`pc, this`h
      ensures Abs() == StartHand(old(Abs()), hand)
    {
      pc := Handing(hand);
      h := h.(handed := h.handed + [batch]);
    }

    /** One turn of the main loop: it consults the shutdown flag and goes to wait for an item. */
    method LoopHead()
      requires pc.Looping?
      modifies this`pc, this`h
      ensures Abs() == CheckShutdown(old(Abs()))
    {
      if !shutdown {
        pc := Fetching;
      } else if batch != [] {
        HandOver(Leftover);
      } else {
        pc := Draining;
      }
    }

    /** The wait ends, with an item or by timing out. */
    method Fetched(gotItem: bool, timeUp: bool)
      requires pc.Fetching? && (gotItem ==> queue != [])
      modifies this
      ensures Abs() == AfterFetch(if gotItem then Pop(old(Abs())) else old(Abs()), timeUp)
    {
      if gotItem {
        batch, queue := batch + [queue[0]], queue[1..];
      }
      if batch != [] && (|batch| >= cfg.batchSize || timeUp) {
        HandOver(Main);
      } else {
        pc := Looping;
      }
    }

    /** `on_batch` returned or raised. */
    method Finish(o: Outcome)
      requires pc.Handing?
      modifies this`pc, this`batch, this`metrics, this`h
      ensures Abs() == FinishHand(old(Abs()), o)
    {
      var hand := pc.hand;
      if o.Failed? && (!cfg.hasOnError || o.onErrorRaises) {
        if hand != Main {
          Abandon(Suppressed);
          pc := NextPc(hand);
        } else if cfg.hasOnError && !o.outerRaises {
          pc := Looping;
          h := h.(kept := h.kept + 1);
        } else {
          pc := Crashed;
        }
      } else {
        metrics := metrics.(itemsProcessed := metrics.itemsProcessed + |batch|,
                            batchesProcessed := metrics.batchesProcessed + 1);
        Abandon(Settled);
        pc := NextPc(hand);
      }
    }

    method Abandon(fate: Fate)
      modifies this`batch, this`h
      ensures Abs() == GiveUp(old(Abs()), fate)
    {
      h := h.(log := h.log + [Segment(batch, fate)]);
      batch := [];
    }

    method Poll()
      requires pc.Draining?
      modifies this`pc, this`batch, this`queue, this`h
      ensures Abs() == DrainPoll(old(Abs()))
    {
      if queue != [] {
        batch, queue := batch + [queue[0]], queue[1..];
        if |batch| >= cfg.batchSize {
          HandOver(DrainFull);
        }
      } else {
        h := h.(late := []);
        if batch != [] {
          HandOver(Final);
        } else {
          pc := Stopped;
        }
      }
    }

    method Launch()
      modifies this
      ensures Abs() == Start(old(Abs()))
    {
      if running {
        return;
      }
      if pc.Cancelled? && batch != [] {
        Abandon(Lost);
      }
      shutdown, running := false, true;
      pc, batch := Looping, [];
    }

    method RequestStop(drain: bool)
      modifies this`shutdown, this`pc
      ensures Abs() == StopBegin(old(Abs()), drain)
    {
      if !running {
        return;
      }
      shutdown := true;
      if !drain && !Finished(pc) {
        pc := Cancelled;
      }
    }

    /** The consumer after shutdown when nobody else touches the queue: the partial batch, then the
        queue in full batches, then at most one remainder, whatever `on_batch` does. */
    method DrainAlone()
      requires ValidConfig(cfg) && pc.Looping? && shutdown
      modifies this
      ensures pc.Stopped? && queue == [] && batch == []
      ensures h.handed == old(h.handed) + (if old(batch) == [] then [] else [old(batch)])
                          + Chunks(old(queue), cfg.batchSize)
      ensures h.accepted == old(h.accepted) && h.kept == old(h.kept)
    {
      LoopHead();
      if pc.Handing? {
        FinishAny();
      }
      assert h.handed == old(h.handed) + (if old(batch) == [] then [] else [old(batch)]);
      DrainQueue();
      assert Chunks(batch, cfg.batchSize) == if batch == [] then [] else [batch];
      Poll();
      if pc.Handing? {
        FinishAny();
      }
    }

    /** The drain loop: full batches until the queue is empty. */
    method DrainQueue()
      requires ValidConfig(cfg) && pc.Draining? && batch == []
      modifies this
      ensures pc.Draining? && queue == [] && |batch| < cfg.batchSize
      ensures h.handed + Chunks(batch, cfg.batchSize) == old(h.handed) + Chunks(old(queue), cfg.batchSize)
      ensures h.accepted == old(h.accepted) && h.kept == old(h.kept)
    {
      ghost var goal := h.handed + Chunks(queue, cfg.batchSize);
      assert batch + queue == queue;
      while queue != []
        invariant pc.Draining? && |batch| < cfg.batchSize
        invariant h.handed + Chunks(batch + queue, cfg.batchSize) == goal
        invariant h.accepted == old(h.accepted) && h.kept == old(h.kept)
        decreases |queue|
      {
        ghost var b, q := batch, queue;
        Poll();
        assert b + q == batch + queue;
        if pc.Handing? {
          ChunksCons(batch, queue, cfg.batchSize);
          FinishAny();
          assert batch + queue == queue;
        }
      }
      assert batch + queue == batch;
    }

    /** `on_batch` ends in any way during the drain. */
    method FinishAny()
      requires pc.Handing? && pc.hand != Main
      modifies this`pc, this`batch, this`metrics, this`h
      ensures pc == NextPc(old(pc.hand)) && batch == []
      ensures h.handed == old(h.handed) && h.accepted == old(h.accepted) && h.kept == old(h.kept)
    {
      var ok: bool := *;
      Finish(if ok then Returned else Failed(true, true));
    }
  }
}
