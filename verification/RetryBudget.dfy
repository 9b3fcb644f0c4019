/** The fixed-window retry budget and the bound it gives on any interval of time. */
module RetryBudgets {
  import opened Common

  datatype Config = Config(budget: nat, window: real)

  datatype Budget = Budget(counts: map<string, nat>, windowStart: real)

  function Used(b: Budget, key: string): nat { if key in b.counts then b.counts[key] else 0 }

  predicate Expired(c: Config, b: Budget, now: real) { now - b.windowStart >= c.window }

  /** Asks for one retry; the result says whether it is granted. */
  function Check(c: Config, b: Budget, key: string, now: real): (Budget, bool) {
    var d := if Expired(c, b, now) then Budget(map[], now) else b;
    if Used(d, key) >= c.budget then (d, false)
    else (d.(counts := d.counts[key := Used(d, key) + 1]), true)
  }

  function Reset(b: Budget, key: string): Budget { b.(counts := b.counts[key := 0]) }

  class RetryBudget {
    const cfg: Config
    var attemptCounts: map<string, nat>
    var windowStart: real

    ghost function Abs(): Budget
      reads this
    {
      Budget(attemptCounts, windowStart)
    }

    constructor (cfg: Config, t0: real)
      ensures this.cfg == cfg && Abs() == Budget(map[], t0)
    {
      this.cfg, attemptCounts, windowStart := cfg, map[], t0;
    }

    method CheckBudget(key: string, now: real) returns (granted: bool)
      modifies this
      ensures (Abs(), granted) == Check(cfg, old(Abs()), key, now)
    {
      if now - windowStart >= cfg.window {
        attemptCounts := map[];
        windowStart := now;
      }
      var count := if key in attemptCounts then attemptCounts[key] else 0;
      if count >= cfg.budget {
        return false;
      }
      attemptCounts := attemptCounts[key := count + 1];
      return true;
    }

    method ResetBudget(key: string)
      modifies this
      ensures Abs() == Reset(old(Abs()), key)
    {
      attemptCounts := attemptCounts[key := 0];
    }
  }

  // ---------------------------------------------------------------- runs of concurrent callers

  /** A granted retry, with the number of the window it was charged to. */
  datatype Grant = Grant(at: real, key: string, epoch: nat)

  /** `starts[e]` is when window `e` began, `resets` the keys reset so far. */
  datatype Sys = Sys(b: Budget, clock: real, starts: seq<real>, grants: seq<Grant>, resets: seq<Grant>)

  datatype Action = Checking(key: string, now: real) | Resetting(key: string, now: real)

  predicate Enabled(s: Sys, a: Action) { s.clock <= a.now && s.starts != [] }

  function Step(c: Config, s: Sys, a: Action): Sys
    requires Enabled(s, a)
  {
    match a
    case Checking(key, now) =>
      var (b, granted) := Check(c, s.b, key, now);
      var starts := if Expired(c, s.b, now) then s.starts + [now] else s.starts;
      Sys(b, now, starts, if granted then s.grants + [Grant(now, key, |starts| - 1)] else s.grants, s.resets)
    case Resetting(key, now) =>
      s.(b := Reset(s.b, key), clock := now, resets := s.resets + [Grant(now, key, |s.starts| - 1)])
  }

  function Begin(t0: real): Sys { Sys(Budget(map[], t0), t0, [t0], [], []) }

  ghost predicate IsRun(c: Config, states: seq<Sys>, actions: seq<Action>) {
    && |states| == |actions| + 1
    && forall i | 0 <= i < |actions| ::
         Enabled(states[i], actions[i]) && states[i + 1] == Step(c, states[i], actions[i])
  }

  /** Performs one step of a run on the object. */
  method Perform(rb: RetryBudget, ghost s: Sys, a: Action)
    requires rb.Abs() == s.b && Enabled(s, a)
    modifies rb
    ensures rb.Abs() == Step(rb.cfg, s, a).b
  {
    match a
    case Checking(key, now) => var granted := rb.CheckBudget(key, now);
    case Resetting(key, _) => rb.ResetBudget(key);
  }

  /** A fresh object can perform every run of any number of callers, and ends in the run's last state. */
  method Replay(cfg: Config, t0: real, ghost states: seq<Sys>, actions: seq<Action>) returns (rb: RetryBudget)
    requires IsRun(cfg, states, actions) && states[0] == Begin(t0)
    ensures fresh(rb) && rb.cfg == cfg && rb.Abs() == states[|actions|].b
  {
    rb := new RetryBudget(cfg, t0);
    hide Step;
    var k := 0;
    while k < |actions|
      modifies rb
      invariant 0 <= k <= |actions|
      invariant rb.Abs() == states[k].b
    {
      Perform(rb, states[k], actions[k]);
      k := k + 1;
    }
  }

  // ---------------------------------------------------------------- the invariant

  predicate StartsOk(c: Config, s: Sys) {
    && s.starts != [] && s.starts[|s.starts| - 1] == s.b.windowStart <= s.clock
    && forall e | 0 <= e < |s.starts| - 1 :: s.starts[e + 1] - s.starts[e] >= c.window
  }

  /** Grants are in order, each inside its window and before the next one. */
  predicate GrantsOk(s: Sys) {
    && (forall i | 0 <= i < |s.grants| :: GrantOk(s.starts, s.grants[i]) && s.grants[i].at <= s.clock)
    && forall i, j | 0 <= i < j < |s.grants| :: s.grants[i].epoch <= s.grants[j].epoch
  }

  predicate GrantOk(starts: seq<real>, g: Grant) {
    && g.epoch < |starts|
    && starts[g.epoch] <= g.at
    && (g.epoch + 1 < |starts| ==> g.at <= starts[g.epoch + 1])
  }

  /** Of `key`, charged to one of the `n` windows from `lo`. */
  function InEpochs(key: string, lo: int, n: nat): Grant -> bool {
    (g: Grant) => g.key == key && lo <= g.epoch < lo + n
  }

  /** Of `key`, at a time in `[a, b)`. */
  function During(key: string, a: real, b: real): Grant -> bool {
    (g: Grant) => g.key == key && a <= g.at < b
  }

  function OfKey(key: string): Grant -> bool {
    (g: Grant) => g.key == key
  }

  /** What one window may have granted: a budget for every reset, and the part of another one that is
      used (in the current window) or the whole of it (in a past one). */
  predicate Bounded(budget: nat, granted: nat, resets: nat, current: bool, used: nat) {
    granted <= budget * resets + if current then used else budget
  }

  lemma BoundedSteps(budget: nat, granted: nat, resets: nat, used: nat)
    requires Bounded(budget, granted, resets, true, used) && used <= budget
    ensures Bounded(budget, granted, resets, false, 0)
    ensures Bounded(budget, granted + 1, resets, true, used + 1)
    ensures Bounded(budget, granted, resets + 1, true, 0)
  {
    assert budget * (resets + 1) == budget * resets + budget;
  }

  lemma BoundedMeans(budget: nat, granted: nat, resets: nat, current: bool, used: nat)
    requires Bounded(budget, granted, resets, current, used) && used <= budget
    ensures granted <= budget * (resets + 1)
  {
    assert budget * (resets + 1) == budget * resets + budget;
  }

  /** How often `key` was granted in window `e`, against the budget and the resets in that window. */
  ghost predicate WindowOk(c: Config, s: Sys, key: string, e: nat) {
    var current := e == |s.starts| - 1;
    Bounded(c.budget, Count(s.grants, InEpochs(key, e, 1)), Count(s.resets, InEpochs(key, e, 1)), current,
            if current then Used(s.b, key) else 0)
  }

  ghost predicate WithinBudget(c: Config, b: Budget) {
    forall key :: Used(b, key) <= c.budget
  }

  lemma CountsStayWithin(c: Config, b: Budget, key: string, n: nat)
    requires WithinBudget(c, b) && n <= c.budget
    ensures WithinBudget(c, b.(counts := b.counts[key := n]))
  {
    var d := b.(counts := b.counts[key := n]);
    forall k
      ensures Used(d, k) <= c.budget
    {
      assert Used(d, k) == if k == key then n else Used(b, k);
    }
  }

  ghost predicate Inv(c: Config, s: Sys) {
    && StartsOk(c, s)
    && GrantsOk(s)
    && (forall i | 0 <= i < |s.resets| :: s.resets[i].epoch < |s.starts|)
    && WithinBudget(c, s.b)
    && forall key: string, e: nat | e < |s.starts| :: WindowOk(c, s, key, e)
  }

  lemma BeginInv(c: Config, t0: real)
    ensures Inv(c, Begin(t0))
  {
    var s := Begin(t0);
    forall key: string, e: nat | e < |s.starts|
      ensures WindowOk(c, s, key, e)
    {
    }
  }

  /** A new window starts with nothing charged to it. */
  lemma NothingCharged(gs: seq<Grant>, key: string, e: nat)
    requires forall i | 0 <= i < |gs| :: gs[i].epoch < e
    ensures Count(gs, InEpochs(key, e, 1)) == 0
  {
    CountZero(gs, InEpochs(key, e, 1));
  }

  lemma RollKeepsWindow(c: Config, s: Sys, now: real, key: string, e: nat)
    requires Inv(c, s) && e <= |s.starts|
    ensures WindowOk(c, s.(b := Budget(map[], now), starts := s.starts + [now]), key, e)
  {
    if e == |s.starts| {
      NothingCharged(s.grants, key, e);
      NothingCharged(s.resets, key, e);
    } else {
      assert WindowOk(c, s, key, e) && Used(s.b, key) <= c.budget;
      hide Bounded;
      if e == |s.starts| - 1 {
        BoundedSteps(c.budget, Count(s.grants, InEpochs(key, e, 1)), Count(s.resets, InEpochs(key, e, 1)),
                     Used(s.b, key));
      }
    }
  }

  lemma RollKeepsInv(c: Config, s: Sys, now: real)
    requires Inv(c, s) && s.clock <= now && Expired(c, s.b, now)
    ensures Inv(c, Sys(Budget(map[], now), now, s.starts + [now], s.grants, s.resets))
  {
    var t := Sys(Budget(map[], now), now, s.starts + [now], s.grants, s.resets);
    forall key: string, e: nat | e < |t.starts|
      ensures WindowOk(c, t, key, e)
    {
      RollKeepsWindow(c, s, now, key, e);
    }
    forall i | 0 <= i < |t.grants|
      ensures GrantOk(t.starts, t.grants[i])
    {
      assert GrantOk(s.starts, s.grants[i]) && s.grants[i].at <= s.clock;
    }
  }

  lemma ChargeKeepsInv(c: Config, s: Sys, key: string, now: real)
    requires Inv(c, s) && s.clock <= now && Used(s.b, key) < c.budget
    ensures Inv(c, Sys(s.b.(counts := s.b.counts[key := Used(s.b, key) + 1]), now, s.starts,
                       s.grants + [Grant(now, key, |s.starts| - 1)], s.resets))
  {
    CountsStayWithin(c, s.b, key, Used(s.b, key) + 1);
    hide WithinBudget, Bounded;
    var g := Grant(now, key, |s.starts| - 1);
    var t := Sys(s.b.(counts := s.b.counts[key := Used(s.b, key) + 1]), now, s.starts, s.grants + [g], s.resets);
    forall k: string, e: nat | e < |t.starts|
      ensures WindowOk(c, t, k, e)
    {
      assert WindowOk(c, s, k, e);
      CountSnoc(s.grants, g, InEpochs(k, e, 1));
      if k == key && e == |s.starts| - 1 {
        BoundedSteps(c.budget, Count(s.grants, InEpochs(k, e, 1)), Count(s.resets, InEpochs(k, e, 1)), Used(s.b, k));
      }
    }
  }

  lemma ResetKeepsInv(c: Config, s: Sys, key: string, now: real)
    requires Inv(c, s) && s.clock <= now
    ensures Inv(c, Step(c, s, Resetting(key, now)))
  {
    CountsStayWithin(c, s.b, key, 0);
    assert Used(s.b, key) <= c.budget;
    hide WithinBudget, Bounded;
    var t := Step(c, s, Resetting(key, now));
    var g := Grant(now, key, |s.starts| - 1);
    forall k: string, e: nat | e < |t.starts|
      ensures WindowOk(c, t, k, e)
    {
      assert WindowOk(c, s, k, e);
      CountSnoc(s.resets, g, InEpochs(k, e, 1));
      if k == key && e == |s.starts| - 1 {
        BoundedSteps(c.budget, Count(s.grants, InEpochs(k, e, 1)), Count(s.resets, InEpochs(k, e, 1)), Used(s.b, k));
      }
    }
  }

  lemma TickKeepsInv(c: Config, s: Sys, now: real)
    requires Inv(c, s) && s.clock <= now
    ensures Inv(c, s.(clock := now))
  {
    forall key: string, e: nat | e < |s.starts|
      ensures WindowOk(c, s.(clock := now), key, e)
    {
      assert WindowOk(c, s, key, e);
    }
  }

  /** The state once a window that has expired is replaced. */
  function Rolled(c: Config, s: Sys, now: real): Sys {
    if Expired(c, s.b, now) then Sys(Budget(map[], now), now, s.starts + [now], s.grants, s.resets)
    else s.(clock := now)
  }

  lemma StepKeepsInv(c: Config, s: Sys, a: Action)
    requires Inv(c, s) && Enabled(s, a)
    ensures Inv(c, Step(c, s, a))
  {
    hide Inv;
    match a
    case Resetting(key, now) => ResetKeepsInv(c, s, key, now);
    case Checking(key, now) =>
      var t := Rolled(c, s, now);
      if Expired(c, s.b, now) {
        RollKeepsInv(c, s, now);
      } else {
        TickKeepsInv(c, s, now);
      }
      if Used(t.b, key) < c.budget {
        ChargeKeepsInv(c, t, key, now);
      }
  }

  lemma {:induction false} RunKeepsInv(c: Config, states: seq<Sys>, actions: seq<Action>, j: nat)
    requires IsRun(c, states, actions) && Inv(c, states[0]) && j < |states|
    ensures Inv(c, states[j])
  {
    hide Inv, Step, Enabled;
    if j > 0 {
      RunKeepsInv(c, states, actions, j - 1);
      StepKeepsInv(c, states[j - 1], actions[j - 1]);
      assert states[j] == Step(c, states[j - 1], actions[j - 1]);
    }
  }

  // ---------------------------------------------------------------- the interval bound

  lemma {:induction false} CountMono<T>(s: seq<T>, p: T -> bool, q: T -> bool)
    requires forall i | 0 <= i < |s| :: p(s[i]) ==> q(s[i])
    ensures Count(s, p) <= Count(s, q)
  {
    if s != [] {
      CountMono(s[1..], p, q);
    }
  }

  lemma {:induction false} EpochsSplit(gs: seq<Grant>, key: string, lo: int, n: nat)
    ensures Count(gs, InEpochs(key, lo, n + 1)) ==
            Count(gs, InEpochs(key, lo, n)) + Count(gs, InEpochs(key, lo + n, 1))
  {
    if gs != [] {
      EpochsSplit(gs[1..], key, lo, n);
    }
  }

  /** `n` consecutive windows grant at most `n` budgets, and one more for every reset in them. */
  lemma {:induction false} EpochsBounded(c: Config, s: Sys, key: string, lo: nat, n: nat)
    requires Inv(c, s)
    ensures Count(s.grants, InEpochs(key, lo, n)) <= c.budget * (n + Count(s.resets, InEpochs(key, lo, n)))
  {
    if n == 0 {
      CountZero(s.grants, InEpochs(key, lo, 0));
    } else {
      EpochsBounded(c, s, key, lo, n - 1);
      EpochsSplit(s.grants, key, lo, n - 1);
      EpochsSplit(s.resets, key, lo, n - 1);
      WindowBounded(c, s, key, lo + n - 1);
      var r0, r1 := Count(s.resets, InEpochs(key, lo, n - 1)), Count(s.resets, InEpochs(key, lo + n - 1, 1));
      assert c.budget * (n + r0 + r1) == c.budget * (n - 1 + r0) + c.budget * (r1 + 1);
    }
  }

  lemma WindowBounded(c: Config, s: Sys, key: string, e: nat)
    requires Inv(c, s)
    ensures Count(s.grants, InEpochs(key, e, 1)) <= c.budget * (Count(s.resets, InEpochs(key, e, 1)) + 1)
  {
    hide Bounded;
    var g, r := Count(s.grants, InEpochs(key, e, 1)), Count(s.resets, InEpochs(key, e, 1));
    if e < |s.starts| {
      assert WindowOk(c, s, key, e) && Used(s.b, key) <= c.budget;
      BoundedMeans(c.budget, g, r, e == |s.starts| - 1, if e == |s.starts| - 1 then Used(s.b, key) else 0);
    } else {
      NothingCharged(s.grants, key, e);
      IntMulMono(c.budget, 0, r + 1);
    }
  }

  /** The length of `k` windows. */
  function Span(k: nat, window: real): real { k as real * window }

  lemma SpanSteps(k: nat, window: real)
    ensures Span(0, window) == 0.0 && Span(k + 1, window) == Span(k, window) + window
  {
  }

  /** Window starts are at least one window apart. */
  lemma {:induction false} StartsApart(c: Config, s: Sys, e: nat, d: nat)
    requires StartsOk(c, s) && e + d < |s.starts|
    ensures s.starts[e + d] >= s.starts[e] + Span(d, c.window)
  {
    hide Span;
    if d == 0 {
      SpanSteps(0, c.window);
    } else {
      StartsApart(c, s, e, d - 1);
      SpanSteps(d - 1, c.window);
    }
  }

  lemma StartsFar(c: Config, s: Sys, e: nat, f: nat, k: nat)
    requires StartsOk(c, s) && c.window > 0.0 && e + k <= f < |s.starts|
    ensures s.starts[f] >= s.starts[e] + Span(k, c.window)
  {
    StartsApart(c, s, e, f - e);
    MulMono(k, f - e, c.window);
  }

  /** Two grants less than `k` windows apart were charged to windows at most `k` apart. */
  lemma CloseGrantsCloseWindows(c: Config, s: Sys, i: nat, j: nat, k: nat)
    requires Inv(c, s) && c.window > 0.0 && i <= j < |s.grants|
    requires s.grants[j].at < s.grants[i].at + Span(k, c.window)
    ensures s.grants[j].epoch <= s.grants[i].epoch + k
  {
    hide Span, WindowOk;
    var lo, hi := s.grants[i].epoch, s.grants[j].epoch;
    assert GrantOk(s.starts, s.grants[i]) && GrantOk(s.starts, s.grants[j]);
    if hi > lo + k {
      StartsFar(c, s, lo + 1, hi, k);
    }
  }

  lemma MulMono(a: nat, b: nat, w: real)
    requires a <= b && w >= 0.0
    ensures Span(a, w) <= Span(b, w)
  {
    assert (b - a) as real * w >= 0.0;
  }

  /** In any half-open interval of `k` windows' length a key is granted at most `k + 1` budgets, plus
      one for every time it was reset. */
  lemma IntervalBounded(c: Config, t0: real, states: seq<Sys>, actions: seq<Action>, j: nat, key: string,
                        a: real, k: nat)
    requires IsRun(c, states, actions) && states[0] == Begin(t0) && j < |states| && c.window > 0.0
    ensures Count(states[j].grants, During(key, a, a + Span(k, c.window))) <=
            c.budget * (k + 1 + Count(states[j].resets, OfKey(key)))
  {
    BeginInv(c, t0);
    RunKeepsInv(c, states, actions, j);
    GrantsBounded(c, states[j], key, a, k);
  }

  lemma GrantsBounded(c: Config, s: Sys, key: string, a: real, k: nat)
    requires Inv(c, s) && c.window > 0.0
    ensures Count(s.grants, During(key, a, a + Span(k, c.window))) <=
            c.budget * (k + 1 + Count(s.resets, OfKey(key)))
  {
    var p := During(key, a, a + Span(k, c.window));
    if i :| 0 <= i < |s.grants| && p(s.grants[i]) && forall n | 0 <= n < i :: !p(s.grants[n]) {
      var lo := s.grants[i].epoch;
      AllNear(c, s, key, a, k, i);
      CountMono(s.grants, p, InEpochs(key, lo, k + 1));
      EpochsBounded(c, s, key, lo, k + 1);
      CountMono(s.resets, InEpochs(key, lo, k + 1), OfKey(key));
      IntMulMono(c.budget, k + 1 + Count(s.resets, InEpochs(key, lo, k + 1)), k + 1 + Count(s.resets, OfKey(key)));
    } else {
      NoFirst(s.grants, p, |s.grants|);
      CountZero(s.grants, p);
      IntMulMono(c.budget, 0, k + 1 + Count(s.resets, OfKey(key)));
    }
  }

  /** From the first grant of the interval on, all its grants are within `k + 1` windows. */
  lemma AllNear(c: Config, s: Sys, key: string, a: real, k: nat, i: nat)
    requires Inv(c, s) && c.window > 0.0 && i < |s.grants|
    requires During(key, a, a + Span(k, c.window))(s.grants[i])
    requires forall n | 0 <= n < i :: !During(key, a, a + Span(k, c.window))(s.grants[n])
    ensures forall n | 0 <= n < |s.grants| && During(key, a, a + Span(k, c.window))(s.grants[n]) ::
              InEpochs(key, s.grants[i].epoch, k + 1)(s.grants[n])
  {
    hide Span;
    forall n | 0 <= n < |s.grants| && During(key, a, a + Span(k, c.window))(s.grants[n])
      ensures InEpochs(key, s.grants[i].epoch, k + 1)(s.grants[n])
    {
      CloseGrantsCloseWindows(c, s, i, n, k);
    }
  }

  lemma IntMulMono(c: nat, a: nat, b: nat)
    requires a <= b
    ensures c * a <= c * b
  {
  }

  /** A property without a first index holds nowhere. */
  lemma {:induction false} NoFirst<T>(s: seq<T>, p: T -> bool, n: nat)
    requires n <= |s|
    requires !exists i :: 0 <= i < |s| && p(s[i]) && forall m | 0 <= m < i :: !p(s[m])
    ensures forall i | 0 <= i < n :: !p(s[i])
  {
    if n > 0 {
      NoFirst(s, p, n - 1);
    }
  }

  // ---------------------------------------------------------------- the exact decision

  /** When the window in force before step `j` began, told from the checks alone: a check a full window or
      more after the last start begins a new one. */
  function StartBefore(c: Config, t0: real, actions: seq<Action>, j: nat): real
    requires j <= |actions|
    decreases j, 0
  {
    if j == 0 then t0
    else if Begins(c, t0, actions, j - 1) then actions[j - 1].now else StartBefore(c, t0, actions, j - 1)
  }

  predicate Begins(c: Config, t0: real, actions: seq<Action>, j: nat)
    requires j < |actions|
    decreases j, 1
  {
    actions[j].Checking? && actions[j].now - StartBefore(c, t0, actions, j) >= c.window
  }

  /** Whether step `j` granted a retry. */
  predicate Grants(states: seq<Sys>, j: nat)
    requires j + 1 < |states|
  {
    |states[j + 1].grants| > |states[j].grants|
  }

  /** The retries granted to `key` before step `j`, since the window in force began or the key was reset. */
  function GrantedBefore(c: Config, t0: real, states: seq<Sys>, actions: seq<Action>, key: string, j: nat): nat
    requires j <= |actions| && |states| == |actions| + 1
  {
    if j == 0 || actions[j - 1] == Resetting(key, actions[j - 1].now) then 0
    else
      (if Begins(c, t0, actions, j - 1) then 0 else GrantedBefore(c, t0, states, actions, key, j - 1))
      + if actions[j - 1].key == key && Grants(states, j - 1) then 1 else 0
  }

  /** Those that count against a check made in step `j`. */
  function GrantedAt(c: Config, t0: real, states: seq<Sys>, actions: seq<Action>, key: string, j: nat): nat
    requires j < |actions| && |states| == |actions| + 1
  {
    if Begins(c, t0, actions, j) then 0 else GrantedBefore(c, t0, states, actions, key, j)
  }

  lemma DecisionStep(c: Config, s: Sys, a: Action, key: string)
    requires Enabled(s, a)
    ensures var t := Step(c, s, a);
            var anew := a.Checking? && a.now - s.b.windowStart >= c.window;
            var counted := if anew then 0 else Used(s.b, key);
            var granted := |t.grants| > |s.grants|;
            t.b.windowStart == (if anew then a.now else s.b.windowStart)
            && |t.starts| == |s.starts| + (if anew then 1 else 0)
            && (a.Resetting? ==> !granted)
            && (a.Checking? && a.key == key ==> (granted <==> counted < c.budget))
            && Used(t.b, key) == if a == Resetting(key, a.now) then 0
                                 else counted + if a.key == key && granted then 1 else 0
  {
  }

  lemma {:induction false} BudgetCounts(c: Config, t0: real, states: seq<Sys>, actions: seq<Action>,
                                        key: string, j: nat)
    requires IsRun(c, states, actions) && states[0] == Begin(t0) && j < |states|
    ensures states[j].b.windowStart == StartBefore(c, t0, actions, j)
    ensures Used(states[j].b, key) == GrantedBefore(c, t0, states, actions, key, j)
  {
    hide Step, Enabled;
    if j > 0 {
      BudgetCounts(c, t0, states, actions, key, j - 1);
      DecisionStep(c, states[j - 1], actions[j - 1], key);
      assert states[j] == Step(c, states[j - 1], actions[j - 1]);
      hide Used;
    }
  }

  /** A check of a key is granted if and only if fewer retries than the budget were granted to it since the
      window began or the key was last reset; and a window begins exactly with a check that comes a full
      window or more after the last one began. */
  lemma GrantedExactlyWithinBudget(c: Config, t0: real, states: seq<Sys>, actions: seq<Action>, j: nat)
    requires IsRun(c, states, actions) && states[0] == Begin(t0) && j < |actions|
    ensures actions[j].Checking? ==>
              (Grants(states, j) <==> GrantedAt(c, t0, states, actions, actions[j].key, j) < c.budget)
    ensures actions[j].Resetting? ==> !Grants(states, j)
    ensures |states[j + 1].starts| > |states[j].starts| <==> Begins(c, t0, actions, j)
  {
    hide Step, Enabled, GrantedBefore, StartBefore;
    BudgetCounts(c, t0, states, actions, actions[j].key, j);
    DecisionStep(c, states[j], actions[j], actions[j].key);
    assert states[j + 1] == Step(c, states[j], actions[j]);
  }
}
