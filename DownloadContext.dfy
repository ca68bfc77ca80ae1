/**
 * The shared download-progress list (`DownloadProvider`): one item per
 * requested report date, moved through pending, downloading and success,
 * or all marked as failed when the request throws.
 */
module DownloadContext {

  datatype Status = Pending | Downloading | Success | Error

  datatype Item = Item(date: string, status: Status, progress: int)

  /** What `clearCompleted` keeps: items that are neither `success` nor `error`. */
  predicate IsActive(it: Item)
    ensures IsActive(it) <==> it.status == Pending || it.status == Downloading
  {
    it.status != Success && it.status != Error
  }

  /** Every progress value the provider ever writes is 0, 50 or 100. */
  predicate ProgressOk(items: seq<Item>) {
    forall i :: 0 <= i < |items| ==> items[i].progress == 0 || items[i].progress == 50 || items[i].progress == 100
  }

  /** `dates.map(date => ({ date, status: 'pending', progress: 0 }))`. */
  function Queued(dates: seq<string>): (r: seq<Item>)
    ensures |r| == |dates|
    ensures forall i :: 0 <= i < |dates| ==> r[i] == Item(dates[i], Pending, 0)
  {
    seq(|dates|, i requires 0 <= i < |dates| => Item(dates[i], Pending, 0))
  }

  /** `prev.map(d => d.date === date ? { ...d, status, progress } : d)`. */
  function SetStatus(items: seq<Item>, date: string, status: Status, progress: int): (r: seq<Item>)
    ensures |r| == |items|
    ensures forall i :: 0 <= i < |items| ==>
              r[i] == if items[i].date == date then Item(date, status, progress) else items[i]
  {
    seq(|items|, i requires 0 <= i < |items| =>
      if items[i].date == date then Item(date, status, progress) else items[i])
  }

  /** `prev.map(d => ({ ...d, status: 'error' }))`. */
  function MarkFailed(items: seq<Item>): (r: seq<Item>)
    ensures |r| == |items|
    ensures forall i :: 0 <= i < |items| ==>
              r[i].status == Error && r[i].date == items[i].date && r[i].progress == items[i].progress
  {
    seq(|items|, i requires 0 <= i < |items| => items[i].(status := Error))
  }

  /** `s` can be obtained from `t` by deleting elements. */
  predicate IsSubsequence<T(==)>(s: seq<T>, t: seq<T>)
    decreases |t|
  {
    if s == [] then true
    else if t == [] then false
    else if s[0] == t[0] then IsSubsequence(s[1..], t[1..])
    else IsSubsequence(s, t[1..])
  }

  /** `prev.filter(d => d.status !== 'success' && d.status !== 'error')`. */
  function ClearCompleted(items: seq<Item>): (r: seq<Item>)
    ensures IsSubsequence(r, items)
    ensures forall x :: multiset(r)[x] == if IsActive(x) then multiset(items)[x] else 0
  {
    if items == [] then []
    else
      var rest := ClearCompleted(items[1..]);
      assert items == [items[0]] + items[1..];
      if IsActive(items[0]) then [items[0]] + rest else (SubsequenceDropHead(rest, items); rest)
  }

  /** `downloads.some(d => d.status === 'downloading')`. */
  function IsDownloading(items: seq<Item>): (b: bool)
    ensures b <==> exists i :: 0 <= i < |items| && items[i].status == Downloading
  {
    if items == [] then false
    else items[0].status == Downloading || (assert forall i :: 1 <= i < |items| ==> items[i] == items[1..][i - 1]; IsDownloading(items[1..]))
  }

  /**
   * The list once the first `n` dates have each been set downloading
   * (progress 50) and then successful (progress 100), in order.
   */
  function Run(items: seq<Item>, dates: seq<string>, n: nat): (r: seq<Item>)
    requires n <= |dates|
    ensures |r| == |items|
  {
    if n == 0 then items
    else SetStatus(SetStatus(Run(items, dates, n - 1), dates[n - 1], Downloading, 50), dates[n - 1], Success, 100)
  }

  /** The lists published while the first `n` dates are processed: two per date. */
  function Trace(items: seq<Item>, dates: seq<string>, n: nat): (r: seq<seq<Item>>)
    requires n <= |dates|
    ensures |r| == 2 * n
  {
    if n == 0 then []
    else
      Trace(items, dates, n - 1)
      + [SetStatus(Run(items, dates, n - 1), dates[n - 1], Downloading, 50), Run(items, dates, n)]
  }

  lemma SubsequenceDropHead<T>(s: seq<T>, t: seq<T>)
    requires t != [] && IsSubsequence(s, t[1..])
    ensures IsSubsequence(s, t)
    decreases |t|, 0
  {
    if s != [] && s[0] == t[0] {
      SubsequenceTail(s, t[1..]);
    }
  }

  lemma SubsequenceTail<T>(s: seq<T>, t: seq<T>)
    requires s != [] && IsSubsequence(s, t)
    ensures IsSubsequence(s[1..], t)
    decreases |t|, 1
  {
    if s[0] != t[0] {
      SubsequenceTail(s, t[1..]);
    }
    if s[1..] != [] {
      SubsequenceDropHead(s[1..], t);
    }
  }

  // ---------------------------------------------------------------------------
  // Properties

  /** Right after `startDownload` queues the dates nothing is downloading yet. */
  lemma QueuedIsNotDownloading(dates: seq<string>)
    ensures !IsDownloading(Queued(dates))
    ensures ProgressOk(Queued(dates))
  {
  }

  /** A list holding a downloading item is reported as downloading. */
  lemma DownloadingItemIsReported(items: seq<Item>, date: string)
    requires exists i :: 0 <= i < |items| && items[i].date == date
    ensures IsDownloading(SetStatus(items, date, Downloading, 50))
  {
    var i :| 0 <= i < |items| && items[i].date == date;
    assert SetStatus(items, date, Downloading, 50)[i].status == Downloading;
  }

  /** `clearCompleted` twice is `clearCompleted` once. */
  lemma {:induction false} ClearCompletedIdempotent(items: seq<Item>)
    ensures ClearCompleted(ClearCompleted(items)) == ClearCompleted(items)
  {
    if items != [] {
      ClearCompletedIdempotent(items[1..]);
      ClearCompletedOnActive(ClearCompleted(items[1..]));
    }
  }

  lemma {:induction false} ClearCompletedOnActive(items: seq<Item>)
    requires forall i :: 0 <= i < |items| ==> IsActive(items[i])
    ensures ClearCompleted(items) == items
  {
    if items != [] {
      ClearCompletedOnActive(items[1..]);
      assert items == [items[0]] + items[1..];
    }
  }

  /** After the first `n` dates the first `n` items are successful; every item is pending or successful. */
  lemma {:induction false} RunOfQueued(dates: seq<string>, n: nat, j: int)
    requires n <= |dates| && 0 <= j < |dates|
    ensures var it := Run(Queued(dates), dates, n)[j];
            (it == Item(dates[j], Pending, 0) || it == Item(dates[j], Success, 100))
            && (j < n ==> it == Item(dates[j], Success, 100))
  {
    if n > 0 {
      RunOfQueued(dates, n - 1, j);
      var prev := Run(Queued(dates), dates, n - 1);
      var mid := SetStatus(prev, dates[n - 1], Downloading, 50);
      assert mid[j].date == dates[j];
    }
  }

  /** Once every date has been processed, every item is successful with progress 100. */
  lemma RunCompletesAll(dates: seq<string>)
    ensures |Run(Queued(dates), dates, |dates|)| == |dates|
    ensures forall j :: 0 <= j < |dates| ==> Run(Queued(dates), dates, |dates|)[j] == Item(dates[j], Success, 100)
    ensures ProgressOk(Run(Queued(dates), dates, |dates|))
    ensures !IsDownloading(Run(Queued(dates), dates, |dates|))
  {
    forall j | 0 <= j < |dates|
      ensures Run(Queued(dates), dates, |dates|)[j] == Item(dates[j], Success, 100)
    {
      RunOfQueued(dates, |dates|, j);
    }
  }

  /**
   * The dates are processed in input order: the `k`-th date is set
   * downloading at step 2k and successful at step 2k + 1, on top of the
   * list left by the dates before it.
   */
  lemma {:induction false} TraceSteps(items: seq<Item>, dates: seq<string>, n: nat, k: nat)
    requires k < n <= |dates|
    ensures Trace(items, dates, n)[2 * k] == SetStatus(Run(items, dates, k), dates[k], Downloading, 50)
    ensures Trace(items, dates, n)[2 * k + 1] == Run(items, dates, k + 1)
  {
    if k < n - 1 {
      TraceSteps(items, dates, n - 1, k);
    }
  }

  /** When the request fails, every item is failed, keeping its date and its progress 0. */
  lemma FailedRequest(dates: seq<string>)
    ensures |MarkFailed(Queued(dates))| == |dates|
    ensures forall j :: 0 <= j < |dates| ==> MarkFailed(Queued(dates))[j] == Item(dates[j], Error, 0)
    ensures ProgressOk(MarkFailed(Queued(dates)))
    ensures !IsDownloading(MarkFailed(Queued(dates)))
  {
  }

  /** Every update of the provider keeps progress within 0, 50 and 100. */
  lemma ProgressStaysOk(items: seq<Item>, date: string, status: Status, progress: int)
    requires ProgressOk(items)
    requires progress == 0 || progress == 50 || progress == 100
    ensures ProgressOk(SetStatus(items, date, status, progress))
    ensures ProgressOk(MarkFailed(items))
    ensures ProgressOk(ClearCompleted(items))
  {
    var r := ClearCompleted(items);
    forall i | 0 <= i < |r|
      ensures r[i].progress == 0 || r[i].progress == 50 || r[i].progress == 100
    {
      assert multiset(r)[r[i]] > 0;
      assert r[i] in multiset(items);
    }
  }

  lemma AppendTwo<T>(a: seq<T>, b: seq<T>, x: T, y: T)
    ensures a + b + [x] + [y] == a + (b + [x, y])
  {
  }

  lemma AppendPair<T>(a: seq<T>, x: T, y: T)
    ensures a + [x] + [y] == a + [x, y]
  {
  }

  lemma AppendNothing<T>(a: seq<T>)
    ensures a + [] == a
  {
  }

  class Provider {
    var downloads: seq<Item>
    /** Every list the provider has published, oldest first. */
    ghost var published: seq<seq<Item>>

    constructor ()
      ensures downloads == [] && published == []
    {
      downloads := [];
      published := [];
    }

    /**
     * `startDownload` with the timers dropped: queue every date, then (when
     * the backend accepts the request) mark each date downloading and then
     * successful in input order; when the request fails, mark every item failed.
     */
    method StartDownload(dates: seq<string>, requestOk: bool)
      modifies this
      ensures requestOk ==> downloads == Run(Queued(dates), dates, |dates|)
                            && published == old(published) + [Queued(dates)] + Trace(Queued(dates), dates, |dates|)
      ensures !requestOk ==> downloads == MarkFailed(Queued(dates))
                             && published == old(published) + [Queued(dates), MarkFailed(Queued(dates))]
    {
      ghost var before := published;
      downloads := Queued(dates);
      published := published + [downloads];
      if !requestOk {
        downloads := MarkFailed(downloads);
        published := published + [downloads];
        AppendPair(before, Queued(dates), downloads);
        return;
      }
      ghost var start := published;
      AppendNothing(start);
      for i := 0 to |dates|
        invariant downloads == Run(Queued(dates), dates, i)
        invariant published == start + Trace(Queued(dates), dates, i)
      {
        ghost var trace := Trace(Queued(dates), dates, i);
        ProcessDate(dates[i]);
        AppendTwo(start, trace, published[|published| - 2], downloads);
      }
    }

    /** One pass of the loop: the date's items go downloading, then successful; both lists are published. */
    method ProcessDate(date: string)
      modifies this
      ensures downloads == SetStatus(SetStatus(old(downloads), date, Downloading, 50), date, Success, 100)
      ensures published == old(published) + [SetStatus(old(downloads), date, Downloading, 50)] + [downloads]
    {
      downloads := SetStatus(downloads, date, Downloading, 50);
      published := published + [downloads];
      downloads := SetStatus(downloads, date, Success, 100);
      published := published + [downloads];
    }

    method ClearCompletedDownloads()
      modifies this
      ensures downloads == ClearCompleted(old(downloads))
      ensures published == old(published) + [downloads]
    {
      downloads := ClearCompleted(downloads);
      published := published + [downloads];
    }
  }
}
