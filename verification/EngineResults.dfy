/** The aggregate figures of a run: percentiles, counts and the breakdown of errors. */
module EngineResults {
  import opened Common

  datatype Result = Result(status: nat, latency: real, error: Option<string>)

  // ---------------------------------------------------------------- sorting

  predicate Sorted(s: seq<real>) { forall i, j | 0 <= i < j < |s| :: s[i] <= s[j] }

  function Insert(x: real, s: seq<real>): seq<real> {
    if s == [] || x <= s[0] then [x] + s else [s[0]] + Insert(x, s[1..])
  }

  /** What `sorted` returns. */
  function Sort(s: seq<real>): seq<real> {
    if s == [] then [] else Insert(s[0], Sort(s[1..]))
  }

  lemma {:induction false} InsertKeeps(x: real, s: seq<real>, p: real -> bool)
    requires Sorted(s)
    ensures Sorted(Insert(x, s)) && |Insert(x, s)| == |s| + 1
    ensures Insert(x, s)[0] == if s == [] || x <= s[0] then x else s[0]
    ensures Count(Insert(x, s), p) == Count(s, p) + if p(x) then 1 else 0
  {
    if s == [] || x <= s[0] {
      CountAppend([x], s, p);
      CountOne(x, p);
    } else {
      InsertKeeps(x, s[1..], p);
      CountAppend([s[0]], Insert(x, s[1..]), p);
      CountOne(s[0], p);
      var t := Insert(x, s[1..]);
      assert t[0] >= s[0];
    }
  }

  /** Sorting orders the values and keeps how many satisfy any property. */
  lemma {:induction false} SortKeeps(s: seq<real>, p: real -> bool)
    ensures Sorted(Sort(s)) && |Sort(s)| == |s|
    ensures Count(Sort(s), p) == Count(s, p)
  {
    if s != [] {
      SortKeeps(s[1..], p);
      InsertKeeps(s[0], Sort(s[1..]), p);
    }
  }

  // ---------------------------------------------------------------- percentiles

  /** The position of quantile `p`, and the two neighbours it falls between. */
  function Position(n: nat, p: real): real
    requires n >= 1
  {
    (n - 1) as real * p
  }

  lemma PositionBounds(n: nat, p: real)
    requires n >= 1 && 0.0 <= p <= 1.0
    ensures 0.0 <= Position(n, p) <= (n - 1) as real
    ensures 0 <= Position(n, p).Floor <= n - 1
  {
    Fraction((n - 1) as real, p);
  }

  lemma Fraction(d: real, p: real)
    requires d >= 0.0 && 0.0 <= p <= 1.0
    ensures 0.0 <= d * p <= d
  {
    assert d * p >= 0.0;
    assert d * (1.0 - p) >= 0.0;
    assert d * (1.0 - p) == d - d * p;
  }

  lemma Fractions(d: real, p: real, q: real)
    requires d >= 0.0 && p <= q
    ensures d * p <= d * q
  {
    assert d * (q - p) >= 0.0;
    assert d * (q - p) == d * q - d * p;
  }

  function Interpolate(s: seq<real>, k: real): real
    requires s != [] && 0.0 <= k <= (|s| - 1) as real
  {
    var f := k.Floor;
    var c := if f + 1 < |s| then f + 1 else f;
    s[f] + (k - f as real) * (s[c] - s[f])
  }

  /** `_percentile` of sorted data. */
  function Percentile(s: seq<real>, p: real): real
    requires 0.0 <= p <= 1.0
  {
    if s == [] then 0.0
    else
      PositionBounds(|s|, p);
      Interpolate(s, Position(|s|, p))
  }

  /** `statistics.median` of sorted data. */
  function Median(s: seq<real>): real
    requires s != []
  {
    if |s| % 2 == 1 then s[|s| / 2] else (s[|s| / 2 - 1] + s[|s| / 2]) / 2.0
  }

  lemma BetweenNeighbours(x: real, y: real, t: real)
    requires x <= y && 0.0 <= t <= 1.0
    ensures x <= x + t * (y - x) <= y
  {
    var d := y - x;
    assert 0.0 <= t * d;
    assert 0.0 <= (1.0 - t) * d == d - t * d;
  }

  lemma InterpolateBetween(s: seq<real>, k: real)
    requires Sorted(s) && s != [] && 0.0 <= k <= (|s| - 1) as real
    ensures s[k.Floor] <= Interpolate(s, k)
    ensures Interpolate(s, k) <= s[if k.Floor + 1 < |s| then k.Floor + 1 else k.Floor]
  {
    var f := k.Floor;
    var c := if f + 1 < |s| then f + 1 else f;
    BetweenNeighbours(s[f], s[c], k - f as real);
  }

  lemma InterpolateMonotone(s: seq<real>, k: real, m: real)
    requires Sorted(s) && s != [] && 0.0 <= k <= m <= (|s| - 1) as real
    ensures Interpolate(s, k) <= Interpolate(s, m)
  {
    if k.Floor == m.Floor {
      var f := k.Floor;
      var c := if f + 1 < |s| then f + 1 else f;
      var d := s[c] - s[f];
      Scale(k - f as real, m - f as real, d);
      assert Interpolate(s, k) == s[f] + (k - f as real) * d;
      assert Interpolate(s, m) == s[f] + (m - f as real) * d;
    } else {
      InterpolateBetween(s, k);
      InterpolateBetween(s, m);
      assert k.Floor + 1 <= m.Floor < |s|;
      assert s[k.Floor + 1] <= s[m.Floor];
    }
  }

  lemma Scale(a: real, b: real, d: real)
    requires a <= b && d >= 0.0
    ensures a * d <= b * d
  {
    assert (b - a) * d >= 0.0;
  }

  /** Quantiles grow with `p`, from the least value at 0 to the greatest at 1. */
  lemma PercentileMonotone(s: seq<real>, p: real, q: real)
    requires Sorted(s) && s != [] && 0.0 <= p <= q <= 1.0
    ensures s[0] == Percentile(s, 0.0) <= Percentile(s, p) <= Percentile(s, q) <= Percentile(s, 1.0) == s[|s| - 1]
  {
    var n := |s|;
    PositionBounds(n, p);
    PositionBounds(n, q);
    PositionOrder(n, 0.0, p);
    PositionOrder(n, p, q);
    PositionOrder(n, q, 1.0);
    assert Position(n, 0.0) == 0.0 && Position(n, 1.0) == (n - 1) as real;
    InterpolateMonotone(s, Position(n, 0.0), Position(n, p));
    InterpolateMonotone(s, Position(n, p), Position(n, q));
    InterpolateMonotone(s, Position(n, q), Position(n, 1.0));
  }

  lemma PositionOrder(n: nat, p: real, q: real)
    requires n >= 1 && 0.0 <= p <= q <= 1.0
    ensures 0.0 <= Position(n, p) <= Position(n, q) <= (n - 1) as real
  {
    Fractions((n - 1) as real, p, q);
    PositionBounds(n, p);
    PositionBounds(n, q);
  }

  function AtMost(v: real): real -> bool { (x: real) => x <= v }

  function AtLeast(v: real): real -> bool { (x: real) => x >= v }

  /** At least floor((n - 1) p) + 1 values are at or below the quantile, and all from the upper
      neighbour on are at or above it. */
  lemma PercentileRank(s: seq<real>, p: real)
    requires Sorted(s) && s != [] && 0.0 <= p <= 1.0
    ensures 0 <= Position(|s|, p).Floor < |s|
    ensures Count(s, AtMost(Percentile(s, p))) >= Position(|s|, p).Floor + 1
    ensures Count(s, AtLeast(Percentile(s, p))) >= |s| - Position(|s|, p).Floor - 1
  {
    PositionBounds(|s|, p);
    var k, v := Position(|s|, p), Percentile(s, p);
    var f := k.Floor;
    InterpolateBetween(s, k);
    PrefixCount(s, f + 1, AtMost(v));
    SuffixCount(s, f + 1, AtLeast(v));
  }

  lemma PrefixCount(s: seq<real>, n: nat, p: real -> bool)
    requires n <= |s| && forall i | 0 <= i < n :: p(s[i])
    ensures Count(s, p) >= n
  {
    assert s == s[..n] + s[n..];
    CountAppend(s[..n], s[n..], p);
    CountBound(s[..n], p);
  }

  lemma SuffixCount(s: seq<real>, n: nat, p: real -> bool)
    requires n <= |s| && forall i | n <= i < |s| :: p(s[i])
    ensures Count(s, p) >= |s| - n
  {
    assert s == s[..n] + s[n..];
    CountAppend(s[..n], s[n..], p);
    CountBound(s[n..], p);
  }

  /** The interpolated quantile at one half is the median that p50 reports. */
  lemma HalfIsMedian(s: seq<real>)
    requires s != []
    ensures Percentile(s, 0.5) == Median(s)
  {
    var n := |s|;
    PositionBounds(n, 0.5);
    var k := Position(n, 0.5);
    if n % 2 == 1 {
      assert k == (n / 2) as real;
    } else {
      assert k == (n / 2 - 1) as real + 0.5;
      assert k.Floor == n / 2 - 1;
    }
  }

  function Latencies(rs: seq<Result>): seq<real> { seq(|rs|, i requires 0 <= i < |rs| => rs[i].latency) }

  function P50(rs: seq<Result>): real {
    if rs == [] then 0.0 else SortKeeps(Latencies(rs), AtMost(0.0)); Median(Sort(Latencies(rs)))
  }

  function P95(rs: seq<Result>): real {
    if rs == [] then 0.0 else Percentile(Sort(Latencies(rs)), 0.95)
  }

  function P99(rs: seq<Result>): real {
    if rs == [] then 0.0 else Percentile(Sort(Latencies(rs)), 0.99)
  }

  /** `q` lies at position `k` of sorted data: as far above the value at floor(k) as the fraction of `k`
      says, on the way to the next one. */
  predicate LiesAt(s: seq<real>, k: real, q: real)
    requires s != [] && 0.0 <= k <= (|s| - 1) as real
  {
    var f := k.Floor;
    var gap := if f + 1 < |s| then s[f + 1] - s[f] else 0.0;
    q - s[f] == (k - f as real) * gap
  }

  /** Between two neighbours the quantile moves linearly with the position. */
  lemma QuantileIsLinear(s: seq<real>, p: real)
    requires s != [] && 0.0 <= p <= 1.0
    ensures 0.0 <= (|s| - 1) as real * p <= (|s| - 1) as real
    ensures LiesAt(s, (|s| - 1) as real * p, Percentile(s, p))
  {
    PositionBounds(|s|, p);
  }

  /** At least floor((n - 1) p) + 1 of the values are at or below `q`, and at least n - floor((n - 1) p) - 1
      at or above it. */
  ghost predicate HasRank(values: seq<real>, p: real, q: real)
    requires values != []
  {
    var f := ((|values| - 1) as real * p).Floor;
    Count(values, AtMost(q)) >= f + 1 && Count(values, AtLeast(q)) >= |values| - f - 1
  }

  lemma RankUnsorted(values: seq<real>, p: real)
    requires values != [] && 0.0 <= p <= 1.0
    ensures Sorted(Sort(values)) && |Sort(values)| == |values|
    ensures HasRank(values, p, Percentile(Sort(values), p))
  {
    hide Percentile, Sorted, Count, AtMost, AtLeast;
    var s := Sort(values);
    SortKeeps(values, AtMost(0.0));
    var q := Percentile(s, p);
    SortKeeps(values, AtMost(q));
    SortKeeps(values, AtLeast(q));
    PercentileRank(s, p);
  }

  /** The reported percentiles are ordered, and each has its rank among the results, in whatever order they
      came. */
  lemma PercentilesOrdered(rs: seq<Result>)
    requires rs != []
    ensures P50(rs) <= P95(rs) <= P99(rs)
    ensures HasRank(Latencies(rs), 0.5, P50(rs))
    ensures HasRank(Latencies(rs), 0.95, P95(rs))
    ensures HasRank(Latencies(rs), 0.99, P99(rs))
  {
    var s := Sort(Latencies(rs));
    RankUnsorted(Latencies(rs), 0.5);
    RankUnsorted(Latencies(rs), 0.95);
    RankUnsorted(Latencies(rs), 0.99);
    hide HasRank, Percentile, Sorted, Median;
    HalfIsMedian(s);
    PercentileMonotone(s, 0.5, 0.95);
    PercentileMonotone(s, 0.95, 0.99);
  }

  /** On the sorted values the quantile lies at its share of the last position. */
  predicate IsQuantile(s: seq<real>, p: real, q: real)
    requires 0.0 <= p <= 1.0
  {
    s != [] && (PositionBounds(|s|, p); LiesAt(s, (|s| - 1) as real * p, q))
  }

  /** On the sorted latencies p50, p95 and p99 lie at 0.5, 0.95 and 0.99 of the last position; without
      results they are zero. */
  lemma ReportedAtTheirPositions(rs: seq<Result>)
    ensures rs == [] ==> P50(rs) == P95(rs) == P99(rs) == 0.0
    ensures rs != [] ==>
              var s := Sort(Latencies(rs));
              Sorted(s) && |s| == |rs|
              && IsQuantile(s, 0.5, P50(rs)) && IsQuantile(s, 0.95, P95(rs)) && IsQuantile(s, 0.99, P99(rs))
  {
    if rs != [] {
      var s := Sort(Latencies(rs));
      SortKeeps(Latencies(rs), AtMost(0.0));
      IsLinear(s, 0.5);
      IsLinear(s, 0.95);
      IsLinear(s, 0.99);
      hide Percentile, IsQuantile, Median, Sorted;
      HalfIsMedian(s);
    }
  }

  lemma IsLinear(s: seq<real>, p: real)
    requires s != [] && 0.0 <= p <= 1.0
    ensures IsQuantile(s, p, Percentile(s, p))
  {
    QuantileIsLinear(s, p);
    hide LiesAt, Percentile;
  }

  // ---------------------------------------------------------------- counts

  predicate IsSuccess(r: Result) { 200 <= r.status < 300 }

  predicate IsError(r: Result) { r.error.Some? || r.status >= 400 }

  /** What the documentation calls a success, a 2xx without an error, and a failure, all the rest. */
  predicate DocumentedSuccess(r: Result) { 200 <= r.status < 300 && r.error.None? }

  predicate DocumentedError(r: Result) { r.error.Some? || r.status < 200 || 300 <= r.status }

  /** A 2xx status with an error, and a status below 200 or in 300..399 without one. */
  predicate FailedDespite2xx(r: Result) { 200 <= r.status < 300 && r.error.Some? }

  predicate Overlooked(r: Result) { r.error.None? && (r.status < 200 || 300 <= r.status < 400) }

  lemma {:induction false} CountSplits(rs: seq<Result>)
    ensures Count(rs, IsSuccess) == Count(rs, DocumentedSuccess) + Count(rs, FailedDespite2xx)
    ensures Count(rs, IsError) + Count(rs, Overlooked) == Count(rs, DocumentedError)
    ensures Count(rs, DocumentedSuccess) + Count(rs, DocumentedError) == |rs|
  {
    if rs != [] {
      CountSplits(rs[1..]);
    }
  }

  /** The success count is the documented one exactly when no 2xx result carries an error, the error
      count exactly when no result without an error has a 1xx or 3xx status; they add up to the results
      exactly when there are as many of the one kind as of the other. */
  lemma CountsAreAsDocumentedExactly(rs: seq<Result>)
    ensures Count(rs, IsSuccess) == Count(rs, DocumentedSuccess) <==> forall r | r in rs :: !FailedDespite2xx(r)
    ensures Count(rs, IsError) == Count(rs, DocumentedError) <==> forall r | r in rs :: !Overlooked(r)
    ensures Count(rs, IsSuccess) + Count(rs, IsError) == |rs| <==> Count(rs, FailedDespite2xx) == Count(rs, Overlooked)
  {
    CountSplits(rs);
    CountBound(rs, FailedDespite2xx);
    CountBound(rs, Overlooked);
  }

  /** A redirect is neither a success nor an error, and a 200 with an error is both. */
  lemma CountsNeedNotAddUp(latency: real)
    ensures var redirect := [Result(301, latency, None)];
            Count(redirect, IsSuccess) + Count(redirect, IsError) == 0
    ensures var broken := [Result(200, latency, Some("TimeoutError"))];
            Count(broken, IsSuccess) + Count(broken, IsError) == 2
  {
    CountOne(Result(301, latency, None), IsSuccess);
    CountOne(Result(301, latency, None), IsError);
    CountOne(Result(200, latency, Some("TimeoutError")), IsSuccess);
    CountOne(Result(200, latency, Some("TimeoutError")), IsError);
  }

  // ---------------------------------------------------------------- the breakdown

  function BeforeColon(s: string): string {
    if s == [] || s[0] == ':' then [] else [s[0]] + BeforeColon(s[1..])
  }

  function Decimal(n: nat): string {
    (if n < 10 then [] else Decimal(n / 10)) + ["0123456789"[n % 10]]
  }

  function HttpKey(status: nat): string { "HTTP " + Decimal(status) }

  /** Whether an error message is there and not empty. */
  predicate HasMessage(r: Result) { r.error.Some? && r.error.value != "" }

  /** The key a result is filed under, if any. */
  function Key(r: Result): Option<string> {
    if HasMessage(r) then Some(BeforeColon(r.error.value))
    else if r.status >= 400 then Some(HttpKey(r.status))
    else None
  }

  /** Everything before the first colon. */
  lemma {:induction false} BeforeColonMeans(s: string)
    ensures BeforeColon(s) <= s && ':' !in BeforeColon(s)
    ensures |BeforeColon(s)| < |s| ==> s[|BeforeColon(s)|] == ':'
  {
    if s != [] && s[0] != ':' {
      BeforeColonMeans(s[1..]);
      assert s == [s[0]] + s[1..];
    }
  }

  predicate IsDigit(c: char) { '0' <= c <= '9' }

  /** The number that a string of digits denotes. */
  function ValueOf(d: string): nat
    requires forall i | 0 <= i < |d| :: IsDigit(d[i])
  {
    if d == [] then 0
    else
      assert IsDigit(d[|d| - 1]);
      10 * ValueOf(d[..|d| - 1]) + (d[|d| - 1] as int - '0' as int)
  }

  /** Reading the digits back gives the number, and there is no leading zero. */
  lemma {:induction false} DecimalReadsBack(n: nat)
    ensures Decimal(n) != [] && forall i | 0 <= i < |Decimal(n)| :: IsDigit(Decimal(n)[i])
    ensures ValueOf(Decimal(n)) == n
    ensures n > 0 ==> Decimal(n)[0] != '0'
  {
    var d := Decimal(n);
    assert d[|d| - 1] as int == '0' as int + n % 10;
    if n >= 10 {
      DecimalReadsBack(n / 10);
      assert d[..|d| - 1] == Decimal(n / 10);
    } else {
      assert d[..|d| - 1] == [];
    }
  }

  /** An error message files a result under what stands before its first colon; otherwise a status from 400
      files it under "HTTP" and its digits; any other result is not filed. */
  lemma KeyMeans(r: Result)
    ensures Key(r).None? <==> (r.error.None? || r.error.value == []) && r.status < 400
    ensures r.error.Some? && r.error.value != [] ==>
              Key(r).Some? && var k, m := Key(r).value, r.error.value;
              k <= m && ':' !in k && (|k| < |m| ==> m[|k|] == ':')
    ensures (r.error.None? || r.error.value == []) && r.status >= 400 ==>
              Key(r).Some? && IsHttpKey(Key(r).value, r.status)
  {
    if HasMessage(r) {
      BeforeColonMeans(r.error.value);
    } else {
      HttpKeyMeans(r.status);
    }
  }

  predicate IsHttpKey(k: string, status: nat) {
    |k| > 5 && k[..5] == "HTTP " && (forall i | 5 <= i < |k| :: IsDigit(k[i]))
    && ValueOf(k[5..]) == status && (status > 0 ==> k[5] != '0')
  }

  lemma HttpKeyMeans(status: nat)
    ensures IsHttpKey(HttpKey(status), status)
  {
    DecimalReadsBack(status);
    var k := HttpKey(status);
    assert k[..5] == "HTTP " && k[5..] == Decimal(status);
  }

  predicate IsFiled(r: Result) { Key(r).Some? }

  predicate IsSilent(r: Result) { r.error == Some("") && r.status < 400 }

  function FiledUnder(key: string): Result -> bool { (r: Result) => Key(r) == Some(key) }

  ghost function Sum(m: map<string, nat>): nat {
    if m == map[] then 0 else var k :| k in m; m[k] + Sum(m - {k})
  }

  lemma {:induction false} SumRemove(m: map<string, nat>, k: string)
    requires k in m
    ensures Sum(m) == m[k] + Sum(m - {k})
  {
    var j :| j in m && Sum(m) == m[j] + Sum(m - {j});
    if j != k {
      SumRemove(m - {j}, k);
      SumRemove(m - {k}, j);
      assert (m - {j}) - {k} == (m - {k}) - {j};
    }
  }

  function Bump(m: map<string, nat>, k: string): map<string, nat> {
    m[k := (if k in m then m[k] else 0) + 1]
  }

  lemma SumBump(m: map<string, nat>, k: string)
    ensures Sum(Bump(m, k)) == Sum(m) + 1
  {
    var n := Bump(m, k);
    SumRemove(n, k);
    assert n - {k} == m - {k};
    if k in m {
      SumRemove(m, k);
    } else {
      assert m - {k} == m;
    }
  }

  /** `m` counts exactly the results filed under each key. */
  ghost predicate Files(m: map<string, nat>, rs: seq<Result>) {
    forall k :: (k in m <==> Count(rs, FiledUnder(k)) > 0) && (k in m ==> m[k] == Count(rs, FiledUnder(k)))
  }

  lemma FileOne(m: map<string, nat>, rs: seq<Result>, r: Result)
    requires Files(m, rs)
    ensures Files(if Key(r).Some? then Bump(m, Key(r).value) else m, rs + [r])
  {
    var n := if Key(r).Some? then Bump(m, Key(r).value) else m;
    forall k
      ensures (k in n <==> Count(rs + [r], FiledUnder(k)) > 0) && (k in n ==> n[k] == Count(rs + [r], FiledUnder(k)))
    {
      CountSnoc(rs, r, FiledUnder(k));
      assert k in m <==> Count(rs, FiledUnder(k)) > 0;
    }
  }

  /** `error_breakdown`: every key with its exact count; in total the errors that are not both silent
      (an empty message) and below 400. */
  method ErrorBreakdown(rs: seq<Result>) returns (m: map<string, nat>)
    ensures Files(m, rs)
    ensures Sum(m) + Count(rs, IsSilent) == Count(rs, IsError)
  {
    m := map[];
    var i := 0;
    while i < |rs|
      invariant 0 <= i <= |rs|
      invariant Files(m, rs[..i])
      invariant Sum(m) == Count(rs[..i], IsFiled)
    {
      var r := rs[i];
      assert rs[..i + 1] == rs[..i] + [r];
      FileOne(m, rs[..i], r);
      CountSnoc(rs[..i], r, IsFiled);
      if HasMessage(r) {
        SumBump(m, BeforeColon(r.error.value));
        m := Bump(m, BeforeColon(r.error.value));
      } else if r.status >= 400 {
        SumBump(m, HttpKey(r.status));
        m := Bump(m, HttpKey(r.status));
      }
      i := i + 1;
    }
    assert rs[..i] == rs;
    FiledOrSilent(rs);
  }

  lemma {:induction false} FiledOrSilent(rs: seq<Result>)
    ensures Count(rs, IsFiled) + Count(rs, IsSilent) == Count(rs, IsError)
  {
    if rs != [] {
      FiledOrSilent(rs[1..]);
    }
  }

  // ---------------------------------------------------------------- the streaming tallies

  function StreamKey(r: Result): string {
    if HasMessage(r) then BeforeColon(r.error.value) else HttpKey(r.status)
  }

  /** While streaming every error is filed, by its message or else by its status. */
  lemma StreamKeyMeans(r: Result)
    ensures r.error.Some? && r.error.value != [] ==>
              var k, m := StreamKey(r), r.error.value;
              k <= m && ':' !in k && (|k| < |m| ==> m[|k|] == ':')
    ensures r.error.None? || r.error.value == [] ==> IsHttpKey(StreamKey(r), r.status)
  {
    if HasMessage(r) {
      BeforeColonMeans(r.error.value);
    }
    HttpKeyMeans(r.status);
  }

  /** The tallies `run` keeps while streaming are the documented ones and add up, and every error is filed. */
  method TallyStream(rs: seq<Result>) returns (successes: nat, errors: nat, m: map<string, nat>)
    ensures successes == Count(rs, DocumentedSuccess) && errors == Count(rs, DocumentedError)
    ensures successes + errors == |rs| && Sum(m) == errors
    ensures forall k :: (if k in m then m[k] else 0) == Count(rs, StreamFiledUnder(k))
  {
    successes, errors, m := 0, 0, map[];
    var i := 0;
    while i < |rs|
      invariant 0 <= i <= |rs|
      invariant successes == Count(rs[..i], DocumentedSuccess) && errors == Count(rs[..i], DocumentedError)
      invariant successes + errors == i && Sum(m) == errors
      invariant StreamFiles(m, rs[..i])
    {
      var r := rs[i];
      assert rs[..i + 1] == rs[..i] + [r];
      CountSnoc(rs[..i], r, DocumentedSuccess);
      CountSnoc(rs[..i], r, DocumentedError);
      StreamFileOne(m, rs[..i], r);
      if r.error.None? && 200 <= r.status < 300 {
        successes := successes + 1;
      } else {
        errors := errors + 1;
        SumBump(m, StreamKey(r));
        m := Bump(m, StreamKey(r));
      }
      i := i + 1;
    }
    assert rs[..i] == rs;
  }

  function StreamFiledUnder(key: string): Result -> bool { (r: Result) => DocumentedError(r) && StreamKey(r) == key }

  ghost predicate StreamFiles(m: map<string, nat>, rs: seq<Result>) {
    forall k :: (if k in m then m[k] else 0) == Count(rs, StreamFiledUnder(k))
  }

  lemma StreamFileOne(m: map<string, nat>, rs: seq<Result>, r: Result)
    requires StreamFiles(m, rs)
    ensures StreamFiles(if DocumentedError(r) then Bump(m, StreamKey(r)) else m, rs + [r])
  {
    var n := if DocumentedError(r) then Bump(m, StreamKey(r)) else m;
    forall k
      ensures (if k in n then n[k] else 0) == Count(rs + [r], StreamFiledUnder(k))
    {
      CountSnoc(rs, r, StreamFiledUnder(k));
      assert (if k in m then m[k] else 0) == Count(rs, StreamFiledUnder(k));
    }
  }
}
