/** The parts shared by the two ways the engine runs its workers. */
module Workers {
  import opened Common

  /** The outcome for one URL; `unexpected` marks the result made up for an exception. */
  datatype Result<U> = Result(url: U, unexpected: bool)

  /** A worker is at the head of its loop, in `fetch`, waiting to hand on a result, or done. */
  datatype Worker<U> = Ready | Fetching(url: U) | Putting(result: Result<U>) | Finished

  predicate IsFetching<U>(w: Worker<U>) { w.Fetching? || w.Putting? }

  ghost function One<U>(w: Worker<U>): multiset<U> {
    match w
    case Fetching(u) => multiset{u}
    case Putting(r) => multiset{r.url}
    case _ => multiset{}
  }

  /** The URLs in the hands of the workers. */
  ghost function InHand<U>(ws: seq<Worker<U>>): multiset<U> {
    if ws == [] then multiset{} else One(ws[0]) + InHand(ws[1..])
  }

  lemma {:induction false} InHandUpdate<U>(ws: seq<Worker<U>>, i: nat, w: Worker<U>)
    requires i < |ws|
    ensures InHand(ws[i := w]) + One(ws[i]) == InHand(ws) + One(w)
  {
    hide One;
    if i == 0 {
      assert ws[i := w][1..] == ws[1..];
    } else {
      InHandUpdate(ws[1..], i - 1, w);
      assert ws[i := w][1..] == ws[1..][i - 1 := w];
      AddBoth(One(ws[0]), InHand(ws[1..][i - 1 := w]), One(ws[i]), InHand(ws[1..]), One(w));
    }
  }

  lemma AddBoth<U>(a: multiset<U>, b: multiset<U>, c: multiset<U>, d: multiset<U>, e: multiset<U>)
    requires b + c == d + e
    ensures (a + b) + c == (a + d) + e
  {
    assert (a + b) + c == a + (b + c);
    assert (a + d) + e == a + (d + e);
  }

  lemma {:induction false} InHandSize<U>(ws: seq<Worker<U>>)
    ensures |InHand(ws)| == Count(ws, IsFetching)
  {
    if ws != [] {
      InHandSize(ws[1..]);
      assert |One(ws[0])| == if IsFetching(ws[0]) then 1 else 0;
    }
  }

  lemma NobodyBusy<U>(ws: seq<Worker<U>>)
    requires forall w | 0 <= w < |ws| :: !IsFetching(ws[w])
    ensures InHand(ws) == multiset{} && Count(ws, IsFetching) == 0
  {
    InHandSize(ws);
    CountZero(ws, IsFetching);
  }

  function Urls<U>(rs: seq<Result<U>>): (us: seq<U>)
    ensures |us| == |rs|
  {
    seq(|rs|, i requires 0 <= i < |rs| => rs[i].url)
  }

  lemma UrlsSnoc<U>(rs: seq<Result<U>>, r: Result<U>)
    ensures Urls(rs + [r]) == Urls(rs) + [r.url]
  {
  }

  lemma UrlsAppend<U>(a: seq<Result<U>>, b: seq<Result<U>>)
    ensures Urls(a + b) == Urls(a) + Urls(b)
  {
  }

  lemma UrlsHead<U>(rs: seq<Result<U>>)
    requires rs != []
    ensures Urls(rs) == [rs[0].url] + Urls(rs[1..])
  {
  }

  function Weight<U>(w: Worker<U>): nat {
    match w
    case Ready => 1
    case Fetching(_) => 4
    case Putting(_) => 3
    case Finished => 0
  }

  function Weights<U>(ws: seq<Worker<U>>): nat {
    if ws == [] then 0 else Weight(ws[0]) + Weights(ws[1..])
  }

  lemma {:induction false} WeightsUpdate<U>(ws: seq<Worker<U>>, i: nat, w: Worker<U>)
    requires i < |ws|
    ensures Weights(ws[i := w]) + Weight(ws[i]) == Weights(ws) + Weight(w)
  {
    if i == 0 {
      assert ws[i := w][1..] == ws[1..];
    } else {
      WeightsUpdate(ws[1..], i - 1, w);
      assert ws[i := w][1..] == ws[1..][i - 1 := w];
    }
  }

  function Min(a: nat, b: nat): nat { if a < b then a else b }
}
