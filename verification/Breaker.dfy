/** The circuit breaker: what its transitions mean on the full event history, and the class that
    implements them with a lazily pruned sliding window. */
module CircuitBreaking {
  import opened Common

  datatype Mode = Closed | Open | HalfOpen

  /** One recorded outcome. */
  datatype Event = Event(at: real, failed: bool)

  datatype Config = Config(
    failureThreshold: int,
    errorRateThreshold: real,
    latencyMultiplier: real,
    halfOpenMaxCalls: int,
    openDuration: real,
    probeCount: nat,
    baselineLatencyMs: real,
    windowDuration: real)

  /** A breaker as its callers can observe it. `history` holds every event recorded since the last
      reset; `permits[g]` are the free permits of the semaphore of half-open generation `g`, and
      `current` is the generation whose semaphore the breaker refers to. */
  datatype Breaker = Breaker(
    cfg: Config,
    mode: Mode,
    failures: nat,
    successes: nat,
    requests: nat,
    rejected: nat,
    lastFailure: Option<real>,
    since: real,
    probeSuccesses: nat,
    current: Option<nat>,
    permits: seq<nat>,
    history: seq<Event>)

  // ---------------------------------------------------------------- the sliding window

  predicate IsFailure(e: Event) { e.failed }

  /** The events of `h` at or after `cutoff`, in order. */
  function InWindow(h: seq<Event>, cutoff: real): seq<Event> {
    if h == [] then []
    else (if h[0].at >= cutoff then [h[0]] else []) + InWindow(h[1..], cutoff)
  }

  /** Whether the events `w` meet one of the two thresholds. */
  predicate Trips(cfg: Config, w: seq<Event>) {
    var failures := Count(w, IsFailure);
    w != [] &&
    (failures >= cfg.failureThreshold ||
     (|w| >= 10 && failures as real / |w| as real >= cfg.errorRateThreshold))
  }

  /** The decision to open, made on the whole history. */
  predicate ShouldOpen(cfg: Config, h: seq<Event>, now: real) {
    Trips(cfg, InWindow(h, now - cfg.windowDuration))
  }

  /** The documented thresholds, which are to be exceeded. */
  predicate DocumentedTrips(cfg: Config, w: seq<Event>) {
    var failures := Count(w, IsFailure);
    w != [] &&
    (failures > cfg.failureThreshold ||
     (|w| >= 10 && failures as real / |w| as real > cfg.errorRateThreshold))
  }

  /** The circuit opens whenever the documentation says so, and besides exactly on windows that are at
      one of the thresholds and above neither, as a single failure is with a threshold of one. */
  lemma TripsEarlierExactly(cfg: Config, w: seq<Event>, t: real)
    ensures DocumentedTrips(cfg, w) ==> Trips(cfg, w)
    ensures Trips(cfg, w) && !DocumentedTrips(cfg, w) <==>
              w != [] && !DocumentedTrips(cfg, w)
              && (Count(w, IsFailure) == cfg.failureThreshold ||
                  (|w| >= 10 && Count(w, IsFailure) as real / |w| as real == cfg.errorRateThreshold))
    ensures var one := [Event(t, true)];
            Trips(cfg.(failureThreshold := 1), one) && !DocumentedTrips(cfg.(failureThreshold := 1), one)
  {
    CountOne(Event(t, true), IsFailure);
    hide Count;
  }

  predicate Sorted(h: seq<Event>) {
    forall i, j | 0 <= i < j < |h| :: h[i].at <= h[j].at
  }

  /** In a time-ordered history the window is the suffix that starts at the first event kept. */
  lemma {:induction false} WindowIsSuffix(h: seq<Event>, k: nat, cutoff: real)
    requires Sorted(h) && k <= |h|
    requires forall i | 0 <= i < k :: h[i].at < cutoff
    requires k < |h| ==> h[k].at >= cutoff
    ensures InWindow(h, cutoff) == h[k..]
  {
    if h != [] {
      if k == 0 {
        WindowIsSuffix(h[1..], 0, cutoff);
        assert h == [h[0]] + h[1..];
      } else {
        WindowIsSuffix(h[1..], k - 1, cutoff);
      }
    }
  }

  // ---------------------------------------------------------------- transitions

  /** What a call to enter the breaker led to. */
  datatype Entry = Admitted(permit: Option<nat>) | Refused | Waits(generation: nat)

  function TryOpen(b: Breaker, t2: real, t3: real): Breaker {
    if ShouldOpen(b.cfg, b.history, t2) then b.(mode := Open, since := t3) else b
  }

  function NewGeneration(b: Breaker): Breaker {
    b.(current := Some(|b.permits|), permits := b.permits + [b.cfg.probeCount])
  }

  function CheckFromOpen(b: Breaker, t1: real, t2: real): Breaker {
    if b.mode.Open? && t1 - b.since >= b.cfg.openDuration
    then NewGeneration(b).(mode := HalfOpen, since := t2, probeSuccesses := 0)
    else b
  }

  function CheckFromHalfOpen(b: Breaker, t2: real): Breaker {
    if b.mode.HalfOpen? && b.probeSuccesses >= b.cfg.halfOpenMaxCalls
    then b.(mode := Closed, failures := 0, since := t2)
    else b
  }

  predicate ValidCurrent(b: Breaker) { b.current.Some? ==> b.current.value < |b.permits| }

  function EnterHalfOpen(b: Breaker, queued: bool): (r: (Breaker, Entry))
    requires ValidCurrent(b)
  {
    var c := if b.current.None? then NewGeneration(b) else b;
    var g := c.current.value;
    if c.permits[g] > 0 && !queued then (Take(c, g), Admitted(Some(g))) else (c, Waits(g))
  }

  /** The part of entering that runs before any suspension. `queued` says whether other waiters are
      ahead on the half-open semaphore. */
  function Enter(b: Breaker, t1: real, t2: real, queued: bool): (r: (Breaker, Entry))
    requires ValidCurrent(b)
  {
    var c := CheckFromOpen(b, t1, t2);
    match c.mode
    case Open => (c.(rejected := c.rejected + 1), Refused)
    case Closed => (c, Admitted(None))
    case HalfOpen => EnterHalfOpen(c, queued)
  }

  /** A permit of generation `g` goes to a waiter. */
  function Take(b: Breaker, g: nat): Breaker
    requires g < |b.permits| && b.permits[g] > 0
  {
    b.(permits := b.permits[g := b.permits[g] - 1])
  }

  function Give(b: Breaker, permit: Option<nat>): Breaker
    requires permit.Some? ==> permit.value < |b.permits|
  {
    if permit.None? then b else b.(permits := b.permits[permit.value := b.permits[permit.value] + 1])
  }

  function Refuse(b: Breaker): Breaker { b.(rejected := b.rejected + 1) }

  function RecordFailure(b: Breaker, t1: real): Breaker {
    b.(failures := b.failures + 1, lastFailure := Some(t1), history := b.history + [Event(t1, true)])
  }

  function ExitFailed(b: Breaker, t1: real, t2: real, t3: real): Breaker {
    var d := RecordFailure(b, t1);
    if d.mode.HalfOpen? then d.(mode := Open, since := t1, probeSuccesses := 0) else TryOpen(d, t2, t3)
  }

  function ExitSucceeded(b: Breaker, t1: real, t2: real): Breaker {
    var d := b.(successes := b.successes + 1, history := b.history + [Event(t1, false)]);
    if d.mode.HalfOpen? then CheckFromHalfOpen(d.(probeSuccesses := d.probeSuccesses + 1), t2) else d
  }

  /** Leaving the breaker with the permit `permit`; `t1 <= t2 <= t3` are the clock readings. */
  function Exit(b: Breaker, permit: Option<nat>, failed: bool, t1: real, t2: real, t3: real): Breaker
    requires permit.Some? ==> permit.value < |b.permits|
  {
    var c := Give(b, permit).(requests := b.requests + 1);
    if failed then ExitFailed(c, t1, t2, t3) else ExitSucceeded(c, t1, t2)
  }

  predicate IsSlow(cfg: Config, latencyMs: real) { latencyMs > cfg.baselineLatencyMs * cfg.latencyMultiplier }

  function RecordLatency(b: Breaker, latencyMs: real, t1: real, t2: real, t3: real): Breaker {
    if b.mode.Closed? && IsSlow(b.cfg, latencyMs)
    then TryOpen(RecordFailure(b, t1), t2, t3)
    else b
  }

  function Reset(b: Breaker, t1: real): Breaker {
    b.(mode := Closed, failures := 0, successes := 0, requests := 0, rejected := 0, lastFailure := None,
       since := t1, probeSuccesses := 0, current := None, history := [])
  }

  function Fresh(cfg: Config, t0: real): Breaker {
    Breaker(cfg, Closed, 0, 0, 0, 0, None, t0, 0, None, [], [])
  }

  /** A failure that meets a threshold never leaves the breaker closed, be it an exit or a slow response,
      and nothing else opens it: the decision is the one made on the full history. */
  lemma OpensExactlyWhenThresholdMet(b: Breaker, permit: Option<nat>, ms: real, t1: real, t2: real, t3: real)
    requires permit.Some? ==> permit.value < |b.permits|
    ensures var h := b.history + [Event(t1, true)];
            var trips := Trips(b.cfg, InWindow(h, t2 - b.cfg.windowDuration));
            var c, d := Exit(b, permit, true, t1, t2, t3), RecordLatency(b, ms, t1, t2, t3);
            c.history == h
            && (c.mode.Open? <==> !b.mode.Closed? || trips) && (c.mode.Closed? <==> b.mode.Closed? && !trips)
            && (b.mode.Closed? && IsSlow(b.cfg, ms) ==>
                  d.history == h && (d.mode.Open? <==> trips) && (d.mode.Closed? <==> !trips))
            && (!(b.mode.Closed? && IsSlow(b.cfg, ms)) ==> d == b)
    ensures !Exit(b, permit, false, t1, t2, t3).mode.Open? || b.mode.Open?
  {
  }

  // ---------------------------------------------------------------- the class

  /** The deque is what remains of the history once some events older than the window are dropped. */
  ghost predicate WindowMatches(history: seq<Event>, window: seq<Event>, clock: real, cutoff: real) {
    && Sorted(history)
    && (forall i | 0 <= i < |history| :: history[i].at <= clock)
    && |window| <= |history|
    && window == history[|history| - |window|..]
    && (forall i | 0 <= i < |history| - |window| :: history[i].at < cutoff)
  }

  lemma AdvanceKeepsWindow(history: seq<Event>, window: seq<Event>, clock: real, now: real, cutoff: real, later: real)
    requires WindowMatches(history, window, clock, cutoff) && clock <= now && cutoff <= later
    ensures WindowMatches(history, window, now, later)
  {
  }

  lemma DropKeepsWindow(history: seq<Event>, window: seq<Event>, clock: real, cutoff: real)
    requires WindowMatches(history, window, clock, cutoff) && window != [] && window[0].at < cutoff
    ensures WindowMatches(history, window[1..], clock, cutoff)
  {
    assert window[0] == history[|history| - |window|];
  }

  lemma AppendKeepsWindow(history: seq<Event>, window: seq<Event>, clock: real, cutoff: real, e: Event)
    requires WindowMatches(history, window, clock, cutoff) && clock <= e.at
    ensures WindowMatches(history + [e], window + [e], e.at, cutoff)
  {
  }

  /** Once no old event is left at its head, the deque is the window of the full history. */
  lemma PrunedIsWindow(history: seq<Event>, window: seq<Event>, clock: real, cutoff: real)
    requires WindowMatches(history, window, clock, cutoff)
    requires window != [] ==> window[0].at >= cutoff
    ensures window == InWindow(history, cutoff)
  {
    var k := |history| - |window|;
    assert k < |history| ==> history[k] == window[0];
    WindowIsSuffix(history, k, cutoff);
  }

  /** What `get_metrics` reports: the state, the counters and the two timestamps. */
  datatype Metrics = Metrics(
    state: Mode,
    failureCount: nat,
    successCount: nat,
    requestCount: nat,
    lastFailure: Option<real>,
    lastStateChange: real,
    totalRejected: nat)

  class CircuitBreaker {
    const cfg: Config
    var metrics: Metrics
    var halfOpenSuccesses: nat
    var halfOpenSemaphore: Option<nat>  // which semaphore the breaker refers to
    var acquired: map<nat, nat>         // the context variable: task -> semaphore
    var window: seq<Event>              // the deque
    var permits: seq<nat>               // the free permits of every semaphore created so far

    ghost var history: seq<Event>       // everything recorded since the last reset
    ghost var clock: real               // the latest clock reading

    ghost predicate Valid()
      reads this
    {
      && (halfOpenSemaphore.Some? ==> halfOpenSemaphore.value < |permits|)
      && (forall t | t in acquired :: acquired[t] < |permits|)
      && WindowMatches(history, window, clock, clock - cfg.windowDuration)
    }

    /** The breaker on its full history. */
    ghost function Abs(): Breaker
      reads this
    {
      Breaker(cfg, metrics.state, metrics.failureCount, metrics.successCount, metrics.requestCount,
              metrics.totalRejected, metrics.lastFailure, metrics.lastStateChange,
              halfOpenSuccesses, halfOpenSemaphore, permits, history)
    }

    constructor (cfg: Config, t0: real)
      ensures Valid() && Abs() == Fresh(cfg, t0) && clock == t0 && acquired == map[]
    {
      this.cfg := cfg;
      metrics := Metrics(Closed, 0, 0, 0, None, t0, 0);
      halfOpenSuccesses, halfOpenSemaphore := 0, None;
      acquired, window, history, permits, clock := map[], [], [], [], t0;
    }

    /** Drops the events that left the window; what stays is the window of the full history. */
    method PruneWindow(now: real)
      requires Valid() && clock <= now
      modifies this`window, this`clock
      ensures Valid() && clock == now
      ensures window == InWindow(history, now - cfg.windowDuration)
    {
      hide WindowMatches, InWindow;
      Advance(now);
      var cutoff := now - cfg.windowDuration;
      ghost var h := history;
      while window != [] && window[0].at < cutoff
        modifies this`window
        invariant WindowMatches(h, window, now, cutoff)
        decreases |window|
      {
        DropKeepsWindow(h, window, now, cutoff);
        window := window[1..];
      }
      PrunedIsWindow(h, window, now, cutoff);
    }

    /** The decision made on the pruned window is the decision on the full history. */
    method ShouldOpenNow(now: real) returns (open: bool)
      requires Valid() && clock <= now
      modifies this`window, this`clock
      ensures Valid() && clock == now
      ensures open == ShouldOpen(cfg, history, now)
    {
      hide WindowMatches, InWindow;
      PruneWindow(now);
      if window == [] {
        return false;
      }
      var failures := CountFailures(window);
      if failures >= cfg.failureThreshold {
        return true;
      }
      if |window| >= 10 {
        var errorRate := failures as real / |window| as real;
        if errorRate >= cfg.errorRateThreshold {
          return true;
        }
      }
      return false;
    }

    method TryOpenNow(t2: real, t3: real)
      requires Valid() && clock <= t2 <= t3
      modifies this`window, this`clock, this`metrics
      ensures Valid() && clock == t2
      ensures Abs() == TryOpen(old(Abs()), t2, t3)
    {
      var open := ShouldOpenNow(t2);
      if open {
        metrics := metrics.(state := Open, lastStateChange := t3);
      }
    }

    /** Entering, up to the first suspension. */
    method TryEnter(task: nat, t1: real, t2: real, queued: bool) returns (entry: Entry)
      requires Valid() && clock <= t1 <= t2
      requires task !in acquired
      modifies this
      ensures Valid() && clock == t2
      ensures (Abs(), entry) == Enter(old(Abs()), t1, t2, queued)
      ensures acquired == if entry.Admitted? && entry.permit.Some?
                          then old(acquired)[task := entry.permit.value] else old(acquired)
    {
      Advance(t2);
      HalfOpenIfElapsed(t1, t2);
      if metrics.state == Open {
        RefuseCaller();
        return Refused;
      }
      if metrics.state == HalfOpen {
        entry := Probe(task, queued);
        return;
      }
      return Admitted(None);
    }

    method HalfOpenIfElapsed(t1: real, t2: real)
      requires Valid()
      modifies this`metrics, this`halfOpenSuccesses, this`halfOpenSemaphore, this`permits
      ensures Valid() && Abs() == CheckFromOpen(old(Abs()), t1, t2)
    {
      if metrics.state == Open {
        var timeInOpen := t1 - metrics.lastStateChange;
        if timeInOpen >= cfg.openDuration {
          NewSemaphore();
          metrics := metrics.(state := HalfOpen, lastStateChange := t2);
          halfOpenSuccesses := 0;
        }
      }
    }

    method NewSemaphore()
      requires Valid()
      modifies this`halfOpenSemaphore, this`permits
      ensures Valid() && Abs() == NewGeneration(old(Abs()))
    {
      halfOpenSemaphore := Some(|permits|);
      permits := permits + [cfg.probeCount];
    }

    /** Asks the half-open semaphore for a permit. */
    method Probe(task: nat, queued: bool) returns (entry: Entry)
      requires Valid() && metrics.state.HalfOpen? && task !in acquired
      modifies this`halfOpenSemaphore, this`permits, this`acquired
      ensures Valid() && (Abs(), entry) == EnterHalfOpen(old(Abs()), queued)
      ensures acquired == if entry.Admitted? && entry.permit.Some?
                          then old(acquired)[task := entry.permit.value] else old(acquired)
    {
      if halfOpenSemaphore == None {
        NewSemaphore();
      }
      var g := halfOpenSemaphore.value;
      if permits[g] > 0 && !queued {
        permits := permits[g := permits[g] - 1];
        acquired := acquired[task := g];
        return Admitted(Some(g));
      }
      return Waits(g);
    }

    /** A waiter that was granted a permit resumes: the permit it remembers is one of the breaker's
        semaphore at that moment. */
    method ResumeWaiter(task: nat)
      requires Valid() && task !in acquired
      modifies this`acquired
      ensures Valid()
      ensures acquired == if Abs().current.Some? then old(acquired)[task := Abs().current.value] else old(acquired)
    {
      if halfOpenSemaphore.Some? {
        acquired := acquired[task := halfOpenSemaphore.value];
      }
    }

    /** What asyncio does to a semaphore on behalf of its waiters: a permit goes to one of them, or
        comes back from one whose timeout fired before it resumed. */
    method GrantToWaiter(g: nat)
      requires Valid() && g < |permits| && permits[g] > 0
      modifies this`permits
      ensures Valid() && Abs() == Take(old(Abs()), g)
    {
      permits := permits[g := permits[g] - 1];
    }

    method TakeBackFromWaiter(g: nat)
      requires Valid() && g < |permits|
      modifies this`permits
      ensures Valid() && Abs() == Give(old(Abs()), Some(g))
    {
      permits := permits[g := permits[g] + 1];
    }

    /** A caller is turned away. */
    method RefuseCaller()
      requires Valid()
      modifies this`metrics
      ensures Valid() && Abs() == Refuse(old(Abs()))
    {
      metrics := metrics.(totalRejected := metrics.totalRejected + 1);
    }

    method Leave(task: nat, failed: bool, t1: real, t2: real, t3: real)
      requires Valid() && clock <= t1 <= t2 <= t3
      modifies this
      ensures Valid() && t1 <= clock <= t3
      ensures Abs() == Exit(old(Abs()), if task in old(acquired) then Some(old(acquired)[task]) else None,
                            failed, t1, t2, t3)
      ensures acquired == old(acquired) - {task}
    {
      hide WindowMatches, ExitFailed, ExitSucceeded;
      ReturnPermit(task);
      metrics := metrics.(requestCount := metrics.requestCount + 1);
      if failed {
        LeaveFailed(t1, t2, t3);
      } else {
        LeaveSucceeded(t1, t2);
      }
    }

    method ReturnPermit(task: nat)
      requires Valid()
      modifies this`permits, this`acquired
      ensures Valid()
      ensures Abs() == Give(old(Abs()), if task in old(acquired) then Some(old(acquired)[task]) else None)
      ensures acquired == old(acquired) - {task}
    {
      if task in acquired {
        var s := acquired[task];
        permits := permits[s := permits[s] + 1];
        acquired := acquired - {task};
      }
    }

    method LeaveFailed(t1: real, t2: real, t3: real)
      requires Valid() && clock <= t1 <= t2 <= t3
      modifies this`metrics, this`halfOpenSuccesses, this`window, this`history, this`clock
      ensures Valid() && t1 <= clock <= t3
      ensures Abs() == ExitFailed(old(Abs()), t1, t2, t3)
    {
      hide WindowMatches, TryOpen;
      NoteEvent(true, t1);
      metrics := metrics.(failureCount := metrics.failureCount + 1, lastFailure := Some(t1));
      if metrics.state == HalfOpen {
        metrics := metrics.(state := Open, lastStateChange := t1);
        halfOpenSuccesses := 0;
      } else {
        TryOpenNow(t2, t3);
      }
    }

    method LeaveSucceeded(t1: real, t2: real)
      requires Valid() && clock <= t1 <= t2
      modifies this`metrics, this`halfOpenSuccesses, this`window, this`history, this`clock
      ensures Valid() && clock == t1
      ensures Abs() == ExitSucceeded(old(Abs()), t1, t2)
    {
      hide WindowMatches, CheckFromHalfOpen;
      NoteEvent(false, t1);
      metrics := metrics.(successCount := metrics.successCount + 1);
      if metrics.state == HalfOpen {
        halfOpenSuccesses := halfOpenSuccesses + 1;
        CloseIfRecovered(t2);
      }
    }

    method CloseIfRecovered(t2: real)
      requires Valid()
      modifies this`metrics
      ensures Valid() && Abs() == CheckFromHalfOpen(old(Abs()), t2)
    {
      if metrics.state == HalfOpen && halfOpenSuccesses >= cfg.halfOpenMaxCalls {
        metrics := metrics.(state := Closed, failureCount := 0, lastStateChange := t2);
      }
    }

    /** Time passes; what was dropped from the window stays outside it. */
    ghost method Advance(now: real)
      requires Valid() && clock <= now
      modifies this`clock
      ensures Valid() && clock == now
    {
      AdvanceKeepsWindow(history, window, clock, now, clock - cfg.windowDuration, now - cfg.windowDuration);
      clock := now;
    }

    /** Appends one event to the window. */
    method NoteEvent(failed: bool, at: real)
      requires Valid() && clock <= at
      modifies this`window, this`history, this`clock
      ensures Valid() && clock == at
      ensures history == old(history) + [Event(at, failed)]
    {
      Advance(at);
      AppendKeepsWindow(history, window, clock, clock - cfg.windowDuration, Event(at, failed));
      window := window + [Event(at, failed)];
      history := history + [Event(at, failed)];
    }

    method NoteLatency(latencyMs: real, t1: real, t2: real, t3: real)
      requires Valid() && clock <= t1 <= t2 <= t3
      modifies this
      ensures Valid() && old(clock) <= clock <= t3 && acquired == old(acquired)
      ensures Abs() == RecordLatency(old(Abs()), latencyMs, t1, t2, t3)
    {
      hide WindowMatches, TryOpen;
      if metrics.state != Closed {
        return;
      }
      var threshold := cfg.baselineLatencyMs * cfg.latencyMultiplier;
      if latencyMs > threshold {
        NoteEvent(true, t1);
        metrics := metrics.(failureCount := metrics.failureCount + 1, lastFailure := Some(t1));
        TryOpenNow(t2, t3);
      }
    }

    method ResetNow(t1: real)
      requires Valid() && clock <= t1
      modifies this
      ensures Valid() && clock == t1 && acquired == old(acquired)
      ensures Abs() == Reset(old(Abs()), t1)
    {
      metrics := Metrics(Closed, 0, 0, 0, None, t1, 0);
      halfOpenSuccesses, halfOpenSemaphore := 0, None;
      window, history, clock := [], [], t1;
    }
  }

  method CountFailures(w: seq<Event>) returns (failures: nat)
    ensures failures == Count(w, IsFailure)
  {
    failures := 0;
    var i := 0;
    while i < |w|
      invariant 0 <= i <= |w|
      invariant failures == Count(w[..i], IsFailure)
    {
      CountSnoc(w[..i], w[i], IsFailure);
      assert w[..i] + [w[i]] == w[..i + 1];
      if w[i].failed {
        failures := failures + 1;
      }
      i := i + 1;
    }
    assert w[..i] == w;
  }
}
