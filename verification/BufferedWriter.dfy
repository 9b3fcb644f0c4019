/** The buffering storage writer, with a target whose operations may fail. */
module BufferedWriting {
  import opened Common

  /** `appended` are the records that entered the buffer, `durable` those the target has stored, and
      `raced` the records that entered the buffer after the writer was closed. */
  datatype Writer<T> = Writer(
    bufferSize: int,
    buffer: seq<T>,
    isOpen: bool,
    closed: bool,
    appended: seq<T>,
    durable: seq<T>,
    raced: nat)

  function Fresh<T>(bufferSize: int): Writer<T> {
    Writer(bufferSize, [], false, false, [], [], 0)
  }

  // ---------------------------------------------------------------- the sections under the lock

  /** Each returns the new state and whether the call returned rather than raised. */
  function EnsureOpen<T>(w: Writer<T>, openOk: bool): (Writer<T>, bool) {
    if w.isOpen then (w, true) else if openOk then (w.(isOpen := true), true) else (w, false)
  }

  function Flush<T>(w: Writer<T>, writeOk: bool): (Writer<T>, bool) {
    if !w.isOpen || w.buffer == [] then (w, true)
    else if writeOk then (w.(durable := w.durable + w.buffer, buffer := []), true)
    else (w, false)
  }

  function Append<T>(w: Writer<T>, r: T): Writer<T> {
    w.(buffer := w.buffer + [r], appended := w.appended + [r], raced := w.raced + if w.closed then 1 else 0)
  }

  function Write<T>(w: Writer<T>, r: T, openOk: bool, writeOk: bool): (Writer<T>, bool) {
    var (v, ok) := EnsureOpen(w, openOk);
    if !ok then (v, false)
    else
      var u := Append(v, r);
      if |u.buffer| >= u.bufferSize then Flush(u, writeOk) else (u, true)
  }

  function Close<T>(w: Writer<T>, writeOk: bool, closeOk: bool): (Writer<T>, bool) {
    var (v, ok) := Flush(w, writeOk);
    if !ok then (v, false)
    else if !closeOk then (v.(closed := true), false)
    else (v.(closed := true, isOpen := false), true)
  }

  // ---------------------------------------------------------------- the class

  class BufferedStorageWriter<T> {
    const bufferSize: int
    var buffer: seq<T>
    var isOpen: bool
    var closed: bool
    ghost var appended: seq<T>
    ghost var durable: seq<T>
    ghost var raced: nat

    ghost function Abs(): Writer<T>
      reads this
    {
      Writer(bufferSize, buffer, isOpen, closed, appended, durable, raced)
    }

    constructor (bufferSize: int)
      ensures Abs() == Fresh(bufferSize)
    {
      this.bufferSize := bufferSize;
      buffer, isOpen, closed, appended, durable, raced := [], false, false, [], [], 0;
    }

    /** What `write` does once it holds the lock. */
    method WriteLocked(r: T, openOk: bool, writeOk: bool) returns (ok: bool)
      modifies this
      ensures (Abs(), ok) == Write(old(Abs()), r, openOk, writeOk)
    {
      ok := EnsureOpenLocked(openOk);
      if !ok {
        return;
      }
      buffer := buffer + [r];
      appended, raced := appended + [r], raced + if closed then 1 else 0;
      if |buffer| >= bufferSize {
        ok := FlushLocked(writeOk);
      }
    }

    method EnsureOpenLocked(openOk: bool) returns (ok: bool)
      modifies this`isOpen
      ensures (Abs(), ok) == EnsureOpen(old(Abs()), openOk)
    {
      if !isOpen {
        if !openOk {
          return false;
        }
        isOpen := true;
      }
      return true;
    }

    method FlushLocked(writeOk: bool) returns (ok: bool)
      modifies this`buffer, this`durable
      ensures (Abs(), ok) == Flush(old(Abs()), writeOk)
    {
      if !isOpen || buffer == [] {
        return true;
      }
      if !writeOk {
        return false;
      }
      durable := durable + buffer;
      buffer := [];
      return true;
    }

    method CloseLocked(writeOk: bool, closeOk: bool) returns (ok: bool)
      modifies this
      ensures (Abs(), ok) == Close(old(Abs()), writeOk, closeOk)
    {
      ok := FlushLocked(writeOk);
      if !ok {
        return;
      }
      closed := true;
      if !closeOk {
        return false;
      }
      isOpen := false;
      return true;
    }

    /** `write_batch` with nobody else at the writer and a target that may fail at any record: what
        entered the buffer is a prefix of the batch, the whole of it when the call returns. */
    method WriteBatch(records: seq<T>, openOk: seq<bool>, writeOk: seq<bool>) returns (ok: bool, ghost entered: nat)
      requires |openOk| == |writeOk| == |records|
      requires Inv(Abs())
      modifies this
      ensures Inv(Abs()) && closed == old(closed)
      ensures entered <= |records| && appended == old(appended) + records[..entered]
      ensures ok ==> entered == |records| && !old(closed)
      ensures ok && records != [] ==> buffer == [] || |buffer| < bufferSize
      ensures (forall i | 0 <= i < |records| :: openOk[i] && writeOk[i]) ==> ok == !old(closed)
    {
      if closed {
        return false, 0;
      }
      var i := 0;
      while i < |records|
        invariant 0 <= i <= |records|
        invariant Inv(Abs()) && !closed
        invariant appended == old(appended) + records[..i]
        invariant i > 0 ==> buffer == [] || |buffer| < bufferSize
      {
        WriteKeepsInv(Abs(), records[i], openOk[i], writeOk[i]);
        assert records[..i + 1] == records[..i] + [records[i]];
        ghost var before := appended;
        ok := WriteLocked(records[i], openOk[i], writeOk[i]);
        if !ok {
          entered := if appended == before then i else i + 1;
          return;
        }
        i := i + 1;
      }
      return true, |records|;
    }
  }

  // ---------------------------------------------------------------- what each section keeps

  /** Every record that entered the buffer is stored or still buffered, in order; nothing is buffered
      for a target that is not open; and closing left nothing behind unless a write raced with it. */
  predicate Inv<T(==)>(w: Writer<T>) {
    && w.appended == w.durable + w.buffer
    && (w.buffer != [] ==> w.isOpen)
    && (w.closed && w.raced == 0 ==> w.buffer == [])
  }

  lemma FlushKeepsInv<T>(w: Writer<T>, writeOk: bool)
    requires Inv(w)
    ensures var (v, ok) := Flush(w, writeOk);
            Inv(v) && (ok <==> writeOk || w.buffer == []) && (ok ==> v.buffer == [] && v.durable == w.appended)
            && v.appended == w.appended && (!ok ==> v == w)
  {
  }

  lemma WriteKeepsInv<T>(w: Writer<T>, r: T, openOk: bool, writeOk: bool)
    requires Inv(w)
    ensures var (v, ok) := Write(w, r, openOk, writeOk);
            Inv(v) && v.closed == w.closed && (!w.closed ==> v.raced == w.raced)
            && (v.appended == if w.isOpen || openOk then w.appended + [r] else w.appended)
            && (ok ==> v.appended == w.appended + [r] && (v.buffer == [] || |v.buffer| < v.bufferSize))
            && (openOk && writeOk ==> ok)
            && (!ok ==> v.durable == w.durable)
  {
    assert w.durable + (w.buffer + [r]) == w.appended + [r];
  }

  lemma CloseKeepsInv<T>(w: Writer<T>, writeOk: bool, closeOk: bool)
    requires Inv(w)
    ensures var (v, ok) := Close(w, writeOk, closeOk);
            Inv(v) && v.appended == w.appended && v.raced == w.raced
            && (ok ==> v.closed && !v.isOpen && v.buffer == [] && v.durable == w.appended)
            && (v.closed && !w.closed ==> v.buffer == [])
  {
    FlushKeepsInv(w, writeOk);
  }

  /** A write enters its record once the target is open; it stores the buffer exactly when that reaches the
      buffer size and the target works, and raises exactly when the target cannot be opened or a full
      buffer cannot be stored. */
  lemma WritesExactly<T>(w: Writer<T>, r: T, openOk: bool, writeOk: bool)
    ensures var (v, ok) := Write(w, r, openOk, writeOk);
            var isUp, full := w.isOpen || openOk, |w.buffer| + 1 >= w.bufferSize;
            (ok <==> isUp && (full ==> writeOk))
            && v.isOpen == isUp && v.closed == w.closed && v.bufferSize == w.bufferSize
            && v.buffer == (if !isUp then w.buffer else if full && writeOk then [] else w.buffer + [r])
            && v.durable == if isUp && full && writeOk then w.durable + w.buffer + [r] else w.durable
  {
    assert w.durable + (w.buffer + [r]) == w.durable + w.buffer + [r];
  }

  /** A close stores what is buffered, and only then marks the writer closed and closes the target; it raises
      exactly when one of the two fails. */
  lemma ClosesExactly<T>(w: Writer<T>, writeOk: bool, closeOk: bool)
    ensures var (v, ok) := Close(w, writeOk, closeOk);
            var stores := w.isOpen && w.buffer != [];
            var stored := stores ==> writeOk;
            (ok <==> stored && closeOk)
            && (v.closed <==> w.closed || stored) && (v.isOpen <==> w.isOpen && !(stored && closeOk))
            && v.durable == (if stores && writeOk then w.durable + w.buffer else w.durable)
            && v.buffer == if stores && writeOk then [] else w.buffer
  {
  }

  /** `close` with nobody else at the writer: on a closed writer it returns without looking at the buffer. */
  function CloseCall<T>(w: Writer<T>, writeOk: bool, closeOk: bool): (Writer<T>, bool) {
    if w.closed then (w, true) else Close(w, writeOk, closeOk)
  }

  /** A `close` that returns leaves the buffer empty and everything stored, exactly unless the writer was
      closed already and a record had slipped in. */
  lemma CloseEmptiesUnlessRaced<T>(w: Writer<T>, writeOk: bool, closeOk: bool)
    requires Inv(w)
    ensures var (v, ok) := CloseCall(w, writeOk, closeOk);
            Inv(v) && (ok ==> v.closed)
            && (ok ==> (v.buffer == [] && v.durable == w.appended <==> !w.closed || w.buffer == []))
            && (w.closed && w.buffer != [] ==> w.raced > 0)
  {
    CloseKeepsInv(w, writeOk, closeOk);
  }

  // ---------------------------------------------------------------- concurrent callers

  /** A caller past the check of the closed flag, not yet holding the lock; a writer knows the rest of
      its batch (nothing, for a single `write`). */
  datatype Caller<T> = Idle | WillWrite(r: T, rest: seq<T>) | WillClose

  datatype Sys<T> = Sys(w: Writer<T>, callers: seq<Caller<T>>)

  datatype Action<T> =
    | CheckWrite(c: nat, records: seq<T>)
    | DoWrite(c: nat, openOk: bool, writeOk: bool)
    | DoFlush(writeOk: bool)
    | DoOpen(openOk: bool)
    | CheckClose(c: nat)
    | DoClose(c: nat, writeOk: bool, closeOk: bool)

  predicate Enabled<T>(s: Sys<T>, a: Action<T>) {
    match a
    case CheckWrite(c, _) => c < |s.callers| && s.callers[c].Idle?
    case DoWrite(c, _, _) => c < |s.callers| && s.callers[c].WillWrite?
    case CheckClose(c) => c < |s.callers| && s.callers[c].Idle?
    case DoClose(c, _, _) => c < |s.callers| && s.callers[c].WillClose?
    case _ => true
  }

  /** A caller with `records` still to write checks the closed flag for the next one. */
  function NextWrite<T>(closed: bool, records: seq<T>): Caller<T> {
    if closed || records == [] then Idle else WillWrite(records[0], records[1..])
  }

  function Step<T>(s: Sys<T>, a: Action<T>): Sys<T>
    requires Enabled(s, a)
  {
    match a
    case CheckWrite(c, records) => s.(callers := s.callers[c := NextWrite(s.w.closed, records)])
    case DoWrite(c, openOk, writeOk) =>
      var (w, ok) := Write(s.w, s.callers[c].r, openOk, writeOk);
      Sys(w, s.callers[c := if ok then NextWrite(w.closed, s.callers[c].rest) else Idle])
    case DoFlush(writeOk) => s.(w := Flush(s.w, writeOk).0)
    case DoOpen(openOk) => s.(w := EnsureOpen(s.w, openOk).0)
    case CheckClose(c) => if s.w.closed then s else s.(callers := s.callers[c := WillClose])
    case DoClose(c, writeOk, closeOk) => Sys(Close(s.w, writeOk, closeOk).0, s.callers[c := Idle])
  }

  function Begin<T>(bufferSize: int, n: nat): Sys<T> { Sys(Fresh(bufferSize), seq(n, _ => Idle)) }

  ghost predicate IsRun<T(!new)>(states: seq<Sys<T>>, actions: seq<Action<T>>) {
    && |states| == |actions| + 1
    && forall i | 0 <= i < |actions| :: Enabled(states[i], actions[i]) && states[i + 1] == Step(states[i], actions[i])
  }

  lemma StepKeepsInv<T(!new)>(s: Sys<T>, a: Action<T>)
    requires Inv(s.w) && Enabled(s, a)
    ensures Inv(Step(s, a).w)
    ensures s.w.appended <= Step(s, a).w.appended && s.w.durable <= Step(s, a).w.durable
    ensures s.w.closed ==> Step(s, a).w.closed
  {
    match a
    case DoWrite(c, openOk, writeOk) => WriteKeepsInv(s.w, s.callers[c].r, openOk, writeOk);
    case DoFlush(writeOk) => FlushKeepsInv(s.w, writeOk);
    case DoClose(c, writeOk, closeOk) => CloseKeepsInv(s.w, writeOk, closeOk);
    case _ =>
  }

  /** Over every interleaving and every pattern of target failures: stored ++ buffered = appended, and
      neither what was appended nor what was stored is ever taken back. */
  lemma {:induction false} RunIsDurable<T(!new)>(states: seq<Sys<T>>, actions: seq<Action<T>>, i: nat, j: nat)
    requires IsRun(states, actions) && Inv(states[0].w) && i <= j < |states|
    ensures Inv(states[i].w) && Inv(states[j].w)
    ensures states[i].w.appended <= states[j].w.appended && states[i].w.durable <= states[j].w.durable
    ensures states[i].w.closed ==> states[j].w.closed
    decreases i + j
  {
    hide Inv, Step, Enabled;
    if j > 0 {
      if i == j {
        RunIsDurable(states, actions, i - 1, j - 1);
      } else {
        RunIsDurable(states, actions, i, j - 1);
      }
      StepKeepsInv(states[j - 1], actions[j - 1]);
      assert states[j] == Step(states[j - 1], actions[j - 1]);
    }
  }

  /** Only writes, and no failure. */
  predicate JustWrites<T>(a: Action<T>) { a.CheckWrite? || (a.DoWrite? && a.openOk && a.writeOk) }

  lemma JustWriteStep<T(!new)>(s: Sys<T>, a: Action<T>)
    requires Inv(s.w) && Enabled(s, a) && JustWrites(a) && s.w.bufferSize >= 1
    requires |s.w.buffer| == |s.w.appended| % s.w.bufferSize
    ensures var w := Step(s, a).w;
            w.bufferSize == s.w.bufferSize && |w.buffer| == |w.appended| % w.bufferSize
  {
    if a.DoWrite? {
      WriteKeepsInv(s.w, s.callers[a.c].r, true, true);
      WritesExactly(s.w, s.callers[a.c].r, true, true);
      NextRemainder(|s.w.appended|, s.w.bufferSize);
    }
  }

  lemma NextRemainder(n: nat, d: nat)
    requires d >= 1
    ensures (n + 1) % d == if n % d + 1 == d then 0 else n % d + 1
  {
    var q, r := n / d, n % d;
    assert n + 1 == d * q + (r + 1);
    if r + 1 == d {
      assert n + 1 == d * (q + 1) + 0;
      RemainderOf(n + 1, d, q + 1, 0);
    } else {
      RemainderOf(n + 1, d, q, r + 1);
    }
  }

  lemma RemainderOf(n: nat, d: nat, q: nat, r: nat)
    requires d >= 1 && r < d && n == d * q + r
    ensures n % d == r
  {
    var e := q - n / d;
    assert e * d == n % d - r;
    NoMultiple(e, d);
  }

  lemma NoMultiple(e: int, d: int)
    requires d >= 1 && -d < e * d < d
    ensures e == 0
  {
  }

  /** Records stay buffered until the buffer size is reached: however writers interleave, as long as nothing
      fails and nobody flushes or closes, all full buffers are stored and only the rest is buffered. */
  lemma {:induction false} StoredInFullBuffers<T(!new)>(bufferSize: nat, n: nat, states: seq<Sys<T>>,
                                                        actions: seq<Action<T>>,
                                                        j: nat)
    requires bufferSize >= 1 && IsRun(states, actions) && states[0] == Begin(bufferSize, n) && j < |states|
    requires forall k | 0 <= k < j :: JustWrites(actions[k])
    ensures var w := states[j].w;
            Inv(w) && w.bufferSize == bufferSize && |w.buffer| == |w.appended| % bufferSize
            && w.durable == w.appended[..|w.appended| - |w.appended| % bufferSize]
  {
    hide Step, Enabled, JustWrites, Inv;
    if j == 0 {
      BeginInv<T>(bufferSize, n);
    } else {
      StoredInFullBuffers(bufferSize, n, states, actions, j - 1);
      JustWriteStep(states[j - 1], actions[j - 1]);
      StepKeepsInv(states[j - 1], actions[j - 1]);
      assert states[j] == Step(states[j - 1], actions[j - 1]);
    }
    RestIsBuffered(states[j].w);
  }

  lemma BeginInv<T>(bufferSize: nat, n: nat)
    ensures var w := Begin<T>(bufferSize, n).w;
            Inv(w) && w.bufferSize == bufferSize && w.appended == w.buffer == []
  {
  }

  lemma RestIsBuffered<T>(w: Writer<T>)
    requires Inv(w)
    ensures |w.buffer| <= |w.appended| && w.durable == w.appended[..|w.appended| - |w.buffer|]
  {
  }

  /** A closed writer that no write raced with has stored everything. */
  lemma ClosedMeansStored<T(!new)>(states: seq<Sys<T>>, actions: seq<Action<T>>, j: nat)
    requires IsRun(states, actions) && Inv(states[0].w) && j < |states|
    requires states[j].w.closed && states[j].w.raced == 0
    ensures states[j].w.buffer == [] && states[j].w.durable == states[j].w.appended
  {
    RunIsDurable(states, actions, j, j);
  }

  /** Some continuation still changes what was appended. */
  ghost predicate CanGrow<T(!new)>(s: Sys<T>) {
    exists states: seq<Sys<T>>, actions: seq<Action<T>> :: Grows(s, states, actions)
  }

  ghost predicate Grows<T(!new)>(s: Sys<T>, states: seq<Sys<T>>, actions: seq<Action<T>>) {
    IsRun(states, actions) && states[0] == s && states[|actions|].w.appended != s.w.appended
  }

  predicate NoWriter<T>(s: Sys<T>) {
    forall c | 0 <= c < |s.callers| :: !s.callers[c].WillWrite?
  }

  lemma {:induction false} ClosedStaysPut<T(!new)>(states: seq<Sys<T>>, actions: seq<Action<T>>, j: nat)
    requires IsRun(states, actions) && states[0].w.closed && NoWriter(states[0]) && j < |states|
    ensures states[j].w.closed && NoWriter(states[j]) && states[j].w.appended == states[0].w.appended
  {
    if j > 0 {
      ClosedStaysPut(states, actions, j - 1);
      assert states[j] == Step(states[j - 1], actions[j - 1]);
    }
  }

  /** A closed writer is immutable exactly when no writer is between the closed check and the lock. */
  lemma ImmutableExactlyWhenNoneRaces<T(!new)>(s: Sys<T>)
    requires s.w.closed
    ensures CanGrow(s) <==> exists c :: 0 <= c < |s.callers| && s.callers[c].WillWrite?
  {
    if c :| 0 <= c < |s.callers| && s.callers[c].WillWrite? {
      var actions: seq<Action<T>> := [DoWrite(c, true, true)];
      var s1 := Step(s, actions[0]);
      assert |s1.w.appended| == |s.w.appended| + 1;
      assert Grows(s, [s, s1], actions);
    } else if CanGrow(s) {
      var states: seq<Sys<T>>, actions: seq<Action<T>> :| Grows(s, states, actions);
      ClosedStaysPut(states, actions, |actions|);
    }
  }

  predicate AllIdle<T>(s: Sys<T>) {
    forall c | 0 <= c < |s.callers| :: s.callers[c].Idle?
  }

  lemma StuckStep<T(!new)>(s: Sys<T>, a: Action<T>)
    requires Inv(s.w) && s.w.closed && AllIdle(s) && Enabled(s, a)
    ensures var t := Step(s, a);
            AllIdle(t) && t.w.closed
            && if a == DoFlush(true) then t.w.buffer == [] && t.w.durable == s.w.appended == t.w.appended
               else t.w.buffer == s.w.buffer && t.w.durable == s.w.durable
  {
  }

  /** A record in a closed writer's buffer stays there, whatever is called, until an explicit flush
      succeeds; that stores everything, for good. */
  lemma {:induction false} StuckUntilFlushed<T(!new)>(states: seq<Sys<T>>, actions: seq<Action<T>>, j: nat)
    requires IsRun(states, actions) && j < |states|
    requires Inv(states[0].w) && states[0].w.closed && states[0].w.buffer != [] && AllIdle(states[0])
    ensures Inv(states[j].w) && states[j].w.closed && AllIdle(states[j])
    ensures if exists k :: 0 <= k < j && actions[k] == DoFlush(true)
            then states[j].w.buffer == [] && states[j].w.durable == states[0].w.appended
            else states[j].w.buffer == states[0].w.buffer && states[j].w.durable == states[0].w.durable
  {
    hide Inv, Enabled, Step, AllIdle;
    if j > 0 {
      StuckUntilFlushed(states, actions, j - 1);
      StuckStep(states[j - 1], actions[j - 1]);
      StepKeepsInv(states[j - 1], actions[j - 1]);
      ClosedAppended(states[j - 1]);
      ClosedAppended(states[0]);
      assert states[j] == Step(states[j - 1], actions[j - 1]);
    }
  }

  lemma ClosedAppended<T(!new)>(s: Sys<T>)
    requires Inv(s.w)
    ensures s.w.appended == s.w.durable + s.w.buffer
    ensures s.w.buffer == [] ==> s.w.appended == s.w.durable
  {
  }

  // ---------------------------------------------------------------- batches among other callers

  /** What caller `c` puts into the buffer in one step. */
  function Wrote<T>(s: Sys<T>, a: Action<T>, c: nat): seq<T>
    requires Enabled(s, a)
  {
    if a.DoWrite? && a.c == c && |Step(s, a).w.appended| > |s.w.appended| then [s.callers[c].r] else []
  }

  /** What caller `c` put into the buffer during the steps `i .. j - 1`, in order. */
  function Entered<T>(states: seq<Sys<T>>, actions: seq<Action<T>>, c: nat, i: nat, j: nat): seq<T>
    requires i <= j <= |actions| && |states| == |actions| + 1
    requires forall k | i <= k < j :: Enabled(states[k], actions[k])
  {
    if i == j then [] else Entered(states, actions, c, i, j - 1) + Wrote(states[j - 1], actions[j - 1], c)
  }

  /** Whether the step makes caller `c` start something. */
  predicate Starts<T>(a: Action<T>, c: nat) { (a.CheckWrite? || a.CheckClose?) && a.c == c }

  /** How a batch stands: what entered and what is still to come, or, once the call is over, what entered. */
  predicate Progress<T(==)>(batch: seq<T>, entered: seq<T>, caller: Caller<T>) {
    match caller
    case WillWrite(r, rest) => entered + [r] + rest == batch
    case Idle => entered <= batch
    case WillClose => false
  }

  lemma BatchStep<T(!new)>(s: Sys<T>, a: Action<T>, c: nat, batch: seq<T>, entered: seq<T>)
    requires Enabled(s, a) && c < |s.callers| && !Starts(a, c) && Progress(batch, entered, s.callers[c])
    ensures var t := Step(s, a);
            |t.callers| == |s.callers| && Progress(batch, entered + Wrote(s, a, c), t.callers[c])
  {
    assert entered + [] == entered;
    if a.DoWrite? && a.c == c {
      var r, rest := s.callers[c].r, s.callers[c].rest;
      assert entered + [r] <= batch;
      if rest != [] {
        assert rest == [rest[0]] + rest[1..];
        assert entered + [r] + [rest[0]] + rest[1..] == batch;
      }
    }
  }

  /** However many callers interleave and whichever target operations fail: what a `write_batch` has
      entered is, in order, a prefix of its batch, and it goes on with exactly the rest. */
  lemma {:induction false} BatchEntersInOrder<T(!new)>(states: seq<Sys<T>>, actions: seq<Action<T>>, c: nat,
                                                       batch: seq<T>, i: nat, j: nat)
    requires IsRun(states, actions) && i < j < |states| && actions[i] == CheckWrite(c, batch)
    requires forall k | i < k < j :: !Starts(actions[k], c)
    ensures c < |states[j].callers|
    ensures Progress(batch, Entered(states, actions, c, i + 1, j), states[j].callers[c])
  {
    hide Step, Enabled, Progress, Starts, Wrote;
    assert states[j] == Step(states[j - 1], actions[j - 1]);
    if j == i + 1 {
      BatchStarts(states[i], c, batch);
    } else {
      BatchEntersInOrder(states, actions, c, batch, i, j - 1);
      BatchStep(states[j - 1], actions[j - 1], c, batch, Entered(states, actions, c, i + 1, j - 1));
    }
  }

  lemma BatchStarts<T(!new)>(s: Sys<T>, c: nat, batch: seq<T>)
    requires Enabled(s, CheckWrite(c, batch))
    ensures var t := Step(s, CheckWrite(c, batch));
            c < |t.callers| && Progress(batch, [], t.callers[c])
            && (!t.w.closed && t.callers[c].Idle? ==> batch == [])
  {
    if batch != [] {
      assert batch == [batch[0]] + batch[1..];
      assert [] + [batch[0]] + batch[1..] == batch;
    }
  }

  /** A batch of a caller that no failure stopped and no close overtook has entered as a whole. */
  lemma {:induction false} BatchCompletes<T(!new)>(states: seq<Sys<T>>, actions: seq<Action<T>>, c: nat,
                                                   batch: seq<T>, i: nat, j: nat)
    requires IsRun(states, actions) && i < j < |states| && actions[i] == CheckWrite(c, batch)
    requires forall k | i < k < j :: !Starts(actions[k], c)
    requires forall k | i < k < j && actions[k].DoWrite? && actions[k].c == c :: actions[k].openOk && actions[k].writeOk
    requires Inv(states[0].w) && !states[j].w.closed && c < |states[j].callers| && states[j].callers[c].Idle?
    ensures Entered(states, actions, c, i + 1, j) == batch
  {
    hide Step, Enabled, Inv, Starts, Wrote, Progress;
    assert states[j] == Step(states[j - 1], actions[j - 1]);
    RunIsDurable(states, actions, j - 1, j);
    if j == i + 1 {
      BatchStarts(states[i], c, batch);
    } else {
      BatchEntersInOrder(states, actions, c, batch, i, j - 1);
      if states[j - 1].callers[c].Idle? {
        BatchCompletes(states, actions, c, batch, i, j - 1);
      }
      LastStep(states[j - 1], actions[j - 1], c, batch, Entered(states, actions, c, i + 1, j - 1));
    }
  }

  lemma LastStep<T(!new)>(s: Sys<T>, a: Action<T>, c: nat, batch: seq<T>, entered: seq<T>)
    requires Inv(s.w) && Enabled(s, a) && c < |s.callers| && !Starts(a, c)
    requires Progress(batch, entered, s.callers[c]) && (s.callers[c].Idle? ==> entered == batch)
    requires a.DoWrite? && a.c == c ==> a.openOk && a.writeOk
    requires !Step(s, a).w.closed && Step(s, a).callers[c].Idle?
    ensures entered + Wrote(s, a, c) == batch
  {
    assert entered + [] == entered;
    if a.DoWrite? && a.c == c {
      WriteKeepsInv(s.w, s.callers[c].r, a.openOk, a.writeOk);
      assert entered + [s.callers[c].r] + [] == entered + [s.callers[c].r];
    }
  }

  // ---------------------------------------------------------------- a record stuck in a closed writer

  const RACE_ACTIONS: seq<Action<int>> := [
    CheckWrite(0, [7]), CheckClose(1), DoClose(1, true, true), DoWrite(0, true, true), CheckClose(1)]

  const RACE_STATES: seq<Sys<int>> := [
    Begin(2, 2),
    Sys(Writer(2, [], false, false, [], [], 0), [WillWrite(7, []), Idle]),
    Sys(Writer(2, [], false, false, [], [], 0), [WillWrite(7, []), WillClose]),
    Sys(Writer(2, [], false, true, [], [], 0), [WillWrite(7, []), Idle]),
    Sys(Writer(2, [7], true, true, [7], [], 1), [Idle, Idle]),
    Sys(Writer(2, [7], true, true, [7], [], 1), [Idle, Idle])]

  /** A run of a fresh writer after which it is closed, its target is open again, a record whose `write`
      returned is not stored, and closing it once more returns without storing it. */
  lemma WriteAfterCloseIsStuck()
    ensures IsRun(RACE_STATES, RACE_ACTIONS) && RACE_STATES[0] == Begin(2, 2)
    ensures var w := RACE_STATES[5].w;
            w.closed && w.isOpen && w.appended == [7] && w.durable == [] && w.buffer == [7] && AllIdle(RACE_STATES[5])
  {
    forall k | 0 <= k < 5
      ensures Enabled(RACE_STATES[k], RACE_ACTIONS[k])
      ensures RACE_STATES[k + 1] == Step(RACE_STATES[k], RACE_ACTIONS[k])
    {
      assert [7][1..] == [];
    }
  }

  // ---------------------------------------------------------------- the object follows the system

  /** Performs one step of a run on the object; `record` is the one the acting caller writes next. */
  method Perform<T(!new)>(bw: BufferedStorageWriter<T>, ghost s: Sys<T>, a: Action<T>, record: Option<T>)
    requires bw.Abs() == s.w && Enabled(s, a)
    requires a.DoWrite? ==> record == Some(s.callers[a.c].r)
    modifies bw
    ensures bw.Abs() == Step(s, a).w
  {
    match a
    case DoWrite(_, openOk, writeOk) => var ok := bw.WriteLocked(record.value, openOk, writeOk);
    case DoFlush(writeOk) => var ok := bw.FlushLocked(writeOk);
    case DoOpen(openOk) => var ok := bw.EnsureOpenLocked(openOk);
    case DoClose(_, writeOk, closeOk) => var ok := bw.CloseLocked(writeOk, closeOk);
    case _ =>
  }

  /** A fresh writer can perform every run of any number of callers, and ends in the run's last state. */
  method Replay<T(!new)>(bufferSize: int, n: nat, ghost states: seq<Sys<T>>, actions: seq<Action<T>>,
                         records: seq<Option<T>>)
    returns (bw: BufferedStorageWriter<T>)
    requires IsRun(states, actions) && states[0] == Begin(bufferSize, n) && |records| == |actions|
    requires forall k | 0 <= k < |actions| && actions[k].DoWrite? ::
               records[k] == Some(states[k].callers[actions[k].c].r)
    ensures fresh(bw) && bw.Abs() == states[|actions|].w
  {
    bw := new BufferedStorageWriter<T>(bufferSize);
    hide Step;
    var k := 0;
    while k < |actions|
      modifies bw
      invariant 0 <= k <= |actions|
      invariant bw.Abs() == states[k].w
    {
      Perform(bw, states[k], actions[k], records[k]);
      k := k + 1;
    }
  }
}
