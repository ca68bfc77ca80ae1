/**
 * The report-download view: a selection of trading days, kept as a JavaScript
 * `Set` of DDMMYYYY strings (insertion ordered, no duplicates), filled one day
 * or one range at a time, and handed to the download provider.
 */
module DownloadClient {
  import opened Options
  import opened CivilDate
  import opened ApiDate
  import DownloadContext

  const WeekendError := "Cannot select weekends."
  const RangeError := "Please select a valid date range."

  /** `isWeekend`: day of week 0 (Sunday) or 6 (Saturday). */
  predicate IsWeekend(d: Date)
    requires Valid(d)
    ensures !IsWeekend(d) <==> 1 <= WeekDay(d) <= 5
  {
    WeekDay(d) == 0 || WeekDay(d) == 6
  }

  predicate NoDuplicates(s: seq<string>) {
    forall i, j :: 0 <= i < j < |s| ==> s[i] != s[j]
  }

  /** `Set.prototype.add`: a new key goes to the end, a present key stays where it is. */
  function Add(sel: seq<string>, k: string): (r: seq<string>)
    ensures forall x :: x in r <==> x in sel || x == k
    ensures |sel| <= |r| <= |sel| + 1 && r[..|sel|] == sel
    ensures NoDuplicates(sel) ==> NoDuplicates(r)
  {
    if k in sel then sel else sel + [k]
  }

  /** `Set.prototype.delete`: the other keys stay, in their insertion order. */
  function Delete(sel: seq<string>, k: string): (r: seq<string>)
    ensures forall x :: x in r <==> x in sel && x != k
    ensures DownloadContext.IsSubsequence(r, sel)
    ensures k !in sel ==> r == sel
    ensures NoDuplicates(sel) ==> NoDuplicates(r)
  {
    if sel == [] then []
    else if sel[0] == k then
      var rest := Delete(sel[1..], k);
      DownloadContext.SubsequenceDropHead(rest, sel);
      rest
    else
      var rest := Delete(sel[1..], k);
      assert NoDuplicates(sel) ==> sel[0] !in sel[1..];
      assert ([sel[0]] + rest)[1..] == rest;
      [sel[0]] + rest
  }

  /** Adds the keys one after the other. */
  function AddAll(sel: seq<string>, keys: seq<string>): (r: seq<string>)
    ensures forall x :: x in r <==> x in sel || x in keys
    ensures |sel| <= |r| && r[..|sel|] == sel
    ensures NoDuplicates(sel) ==> NoDuplicates(r)
    decreases |keys|
  {
    if keys == [] then sel else AddAll(Add(sel, keys[0]), keys[1..])
  }

  /** The non-weekend days from `from` to `to` inclusive, in calendar order. */
  function TradingDays(from: Date, to: Date): (r: seq<Date>)
    requires Valid(from) && Valid(to)
    ensures forall i :: 0 <= i < |r| ==> Valid(r[i])
    decreases DayNumber(to) - DayNumber(from)
  {
    if !NotAfter(from, to) then []
    else (if IsWeekend(from) then [] else [from]) + TradingDays(Succ(from), to)
  }

  // ---------------------------------------------------------------------------
  // Display order: `Array.from(selectedDates).sort()`

  /** The default `sort` order on strings: code unit by code unit, a prefix first. */
  predicate LexLe(a: string, b: string)
    ensures a <= b ==> LexLe(a, b)
  {
    a == [] || (b != [] && (a[0] < b[0] || (a[0] == b[0] && LexLe(a[1..], b[1..]))))
  }

  predicate Sorted(s: seq<string>) {
    forall i, j :: 0 <= i < j < |s| ==> LexLe(s[i], s[j])
  }

  lemma {:induction false} LexLeTotal(a: string, b: string)
    ensures LexLe(a, b) || LexLe(b, a)
  {
    if a != [] && b != [] && a[0] == b[0] {
      LexLeTotal(a[1..], b[1..]);
    }
  }

  lemma {:induction false} LexLeAntisymmetric(a: string, b: string)
    requires LexLe(a, b) && LexLe(b, a)
    ensures a == b
  {
    if a != [] && b != [] {
      LexLeAntisymmetric(a[1..], b[1..]);
      assert a == [a[0]] + a[1..] && b == [b[0]] + b[1..];
    }
  }

  lemma {:induction false} LexLeTransitive(a: string, b: string, c: string)
    requires LexLe(a, b) && LexLe(b, c)
    ensures LexLe(a, c)
  {
    if a != [] && a[0] == b[0] && b[0] == c[0] {
      LexLeTransitive(a[1..], b[1..], c[1..]);
    }
  }

  function InsertSorted(x: string, s: seq<string>): (r: seq<string>)
    requires Sorted(s)
    ensures Sorted(r)
    ensures multiset(r) == multiset(s) + multiset{x}
  {
    if s == [] then [x]
    else if LexLe(x, s[0]) then
      assert forall j :: 0 <= j < |s| ==> LexLe(x, s[j]) by {
        forall j | 0 <= j < |s| ensures LexLe(x, s[j]) {
          if j > 0 { LexLeTransitive(x, s[0], s[j]); }
        }
      }
      SortedCons(x, s);
      [x] + s
    else
      var rest := InsertSorted(x, s[1..]);
      assert s == [s[0]] + s[1..];
      LexLeTotal(x, s[0]);
      HeadBoundsInsert(x, s, rest);
      SortedCons(s[0], rest);
      [s[0]] + rest
  }

  /** A key below every key of a sorted list can go in front of it. */
  lemma SortedCons(h: string, s: seq<string>)
    requires Sorted(s)
    requires forall j :: 0 <= j < |s| ==> LexLe(h, s[j])
    ensures Sorted([h] + s)
  {
    var r := [h] + s;
    forall i, j | 0 <= i < j < |r| ensures LexLe(r[i], r[j]) {
      if i == 0 {
        assert r[j] == s[j - 1];
      } else {
        assert r[i] == s[i - 1] && r[j] == s[j - 1];
      }
    }
  }

  /** The head of a sorted list bounds the tail with one more key above the head inserted. */
  lemma HeadBoundsInsert(x: string, s: seq<string>, rest: seq<string>)
    requires Sorted(s) && s != [] && LexLe(s[0], x)
    requires multiset(rest) == multiset(s[1..]) + multiset{x}
    ensures forall j :: 0 <= j < |rest| ==> LexLe(s[0], rest[j])
  {
    forall j | 0 <= j < |rest| ensures LexLe(s[0], rest[j]) {
      assert rest[j] in multiset(rest);
      if rest[j] != x {
        assert rest[j] in multiset(s[1..]);
        var k :| 0 <= k < |s[1..]| && s[1..][k] == rest[j];
        assert s[k + 1] == rest[j];
      }
    }
  }

  /** The chips' order: the selection sorted as strings. */
  function DisplayOrder(sel: seq<string>): (r: seq<string>)
    ensures Sorted(r)
    ensures multiset(r) == multiset(sel)
  {
    if sel == [] then []
    else
      assert sel == [sel[0]] + sel[1..];
      InsertSorted(sel[0], DisplayOrder(sel[1..]))
  }

  // ---------------------------------------------------------------------------
  // Properties of the selection

  /** Adding the same key twice is adding it once. */
  lemma AddIdempotent(sel: seq<string>, k: string)
    ensures Add(Add(sel, k), k) == Add(sel, k)
  {
  }

  /** Removing a key removes exactly that key (the selection has no duplicates). */
  lemma {:induction false} DeleteRemovesOne(sel: seq<string>, k: string)
    requires NoDuplicates(sel) && k in sel
    ensures |Delete(sel, k)| == |sel| - 1
  {
    if sel[0] == k {
      assert k !in sel[1..];
    } else {
      DeleteRemovesOne(sel[1..], k);
    }
  }

  /** The range holds exactly the non-weekend days between its endpoints. */
  lemma {:induction false} TradingDaysExactly(from: Date, to: Date, d: Date)
    requires Valid(from) && Valid(to) && Valid(d)
    ensures d in TradingDays(from, to) <==> NotAfter(from, d) && NotAfter(d, to) && !IsWeekend(d)
    decreases DayNumber(to) - DayNumber(from)
  {
    if NotAfter(from, to) {
      TradingDaysExactly(Succ(from), to, d);
      if d != from && NotAfter(from, d) {
        SuccIsNext(from, d);
      }
    }
  }

  /** A day the range loop adds: a weekday between the endpoints. */
  predicate InRange(from: Date, to: Date, d: Date)
    requires Valid(from) && Valid(to)
  {
    Valid(d) && NotAfter(from, d) && NotAfter(d, to) && !IsWeekend(d)
  }

  lemma RangeKeyHasDay(from: Date, to: Date, k: string)
    requires Valid(from) && Valid(to)
    requires k in FormatAll(TradingDays(from, to))
    ensures exists d :: InRange(from, to, d) && FormatToApiDate(d) == k
  {
    var days := TradingDays(from, to);
    var i :| 0 <= i < |days| && FormatAll(days)[i] == k;
    TradingDaysExactly(from, to, days[i]);
    assert InRange(from, to, days[i]);
  }

  lemma RangeDayHasKey(from: Date, to: Date, d: Date)
    requires Valid(from) && Valid(to)
    requires InRange(from, to, d)
    ensures FormatToApiDate(d) in FormatAll(TradingDays(from, to))
  {
    var days := TradingDays(from, to);
    TradingDaysExactly(from, to, d);
    var i :| 0 <= i < |days| && days[i] == d;
    assert FormatAll(days)[i] == FormatToApiDate(d);
  }

  /**
   * After the range, a key is selected exactly when it was selected before or
   * is the formatted form of a non-weekend day between the endpoints.
   */
  lemma RangeAddsExactly(sel: seq<string>, from: Date, to: Date, k: string)
    requires Valid(from) && Valid(to)
    ensures k in AddAll(sel, FormatAll(TradingDays(from, to))) <==>
            k in sel || exists d :: InRange(from, to, d) && FormatToApiDate(d) == k
  {
    if k in FormatAll(TradingDays(from, to)) {
      RangeKeyHasDay(from, to, k);
    }
    if exists d :: InRange(from, to, d) && FormatToApiDate(d) == k {
      var d :| InRange(from, to, d) && FormatToApiDate(d) == k;
      RangeDayHasKey(from, to, d);
    }
  }

  /** One iteration of the range loop: the current day's key, then the rest of the range. */
  lemma AddRangeStep(sel: seq<string>, current: Date, last: Date)
    requires Valid(current) && Valid(last) && NotAfter(current, last)
    ensures AddAll(sel, FormatAll(TradingDays(current, last)))
            == AddAll(if IsWeekend(current) then sel else Add(sel, FormatToApiDate(current)),
                      FormatAll(TradingDays(Succ(current), last)))
  {
    var rest := TradingDays(Succ(current), last);
    TradingDaysStep(current, last);
    if IsWeekend(current) {
      assert TradingDays(current, last) == rest;
    } else {
      assert TradingDays(current, last) == [current] + rest;
      FormatAllCons(current, rest);
      AddAllCons(sel, FormatToApiDate(current), FormatAll(rest));
    }
  }

  lemma FormatAllCons(d: Date, ds: seq<Date>)
    requires Valid(d) && forall i :: 0 <= i < |ds| ==> Valid(ds[i])
    ensures FormatAll([d] + ds) == [FormatToApiDate(d)] + FormatAll(ds)
  {
    assert ([d] + ds)[1..] == ds;
  }

  lemma AddAllCons(sel: seq<string>, k: string, keys: seq<string>)
    ensures AddAll(sel, [k] + keys) == AddAll(Add(sel, k), keys)
  {
    assert ([k] + keys)[1..] == keys;
  }

  /** An empty or reversed range holds no day. */
  lemma ReversedRangeIsEmpty(from: Date, to: Date)
    requires Valid(from) && Valid(to) && !NotAfter(from, to)
    ensures TradingDays(from, to) == []
  {
  }

  /** Every day of the range that starts a day later comes after `from`. */
  lemma TradingDaysAfter(from: Date, to: Date, d: Date)
    requires Valid(from) && Valid(to) && Valid(d)
    requires d in TradingDays(Succ(from), to)
    ensures DayNumber(from) < DayNumber(d)
  {
    TradingDaysExactly(Succ(from), to, d);
  }

  /** The days of a range are in strictly increasing calendar order. */
  lemma TradingDaysAscending(from: Date, to: Date, i: int, j: int)
    requires Valid(from) && Valid(to)
    requires 0 <= i < j < |TradingDays(from, to)|
    ensures DayNumber(TradingDays(from, to)[i]) < DayNumber(TradingDays(from, to)[j])
  {
    var all := TradingDays(from, to);
    TradingDaysSuffix(from, to, i);
    assert all[j] == all[i + 1..][j - i - 1];
    TradingDaysAfter(all[i], to, all[j]);
  }

  /** What follows the `i`-th day of a range is the range that starts the day after it. */
  lemma {:induction false} TradingDaysSuffix(from: Date, to: Date, i: int)
    requires Valid(from) && Valid(to)
    requires 0 <= i < |TradingDays(from, to)|
    ensures TradingDays(from, to)[i + 1..] == TradingDays(Succ(TradingDays(from, to)[i]), to)
    decreases DayNumber(to) - DayNumber(from)
  {
    var all := TradingDays(from, to);
    var rest := TradingDays(Succ(from), to);
    TradingDaysStep(from, to);
    if IsWeekend(from) {
      assert all == rest;
      TradingDaysSuffix(Succ(from), to, i);
    } else {
      assert all == [from] + rest;
      if i == 0 {
        assert all[0] == from && all[1..] == rest;
      } else {
        TradingDaysSuffix(Succ(from), to, i - 1);
        ConsSuffix(from, rest, i);
      }
    }
  }

  /** Indexing past the head of `[x] + rest`. */
  lemma ConsSuffix(x: Date, rest: seq<Date>, i: int)
    requires 0 < i <= |rest|
    ensures ([x] + rest)[i] == rest[i - 1] && ([x] + rest)[i + 1..] == rest[i..]
  {
  }

  /** The range adds no key that names a weekend. */
  lemma RangeAddsNoWeekend(from: Date, to: Date, d: Date)
    requires Valid(from) && Valid(to) && Valid(d)
    requires IsWeekend(d)
    ensures FormatToApiDate(d) !in FormatAll(TradingDays(from, to))
  {
    var days := TradingDays(from, to);
    if FormatToApiDate(d) in FormatAll(days) {
      var i :| 0 <= i < |days| && FormatAll(days)[i] == FormatToApiDate(d);
      var e := days[i];
      TradingDaysExactly(from, to, e);
      FormatInjective(d, e);
      assert false;
    }
  }

  lemma TradingDaysStep(current: Date, last: Date)
    requires Valid(current) && Valid(last) && NotAfter(current, last)
    ensures TradingDays(current, last)
            == (if IsWeekend(current) then [] else [current]) + TradingDays(Succ(current), last)
  {
  }

  /** A range from a Monday to the following Sunday adds exactly its five weekdays. */
  lemma MondayToSunday(monday: Date)
    requires Valid(monday) && WeekDay(monday) == 1
    ensures var tue := Succ(monday); var wed := Succ(tue); var thu := Succ(wed); var fri := Succ(thu);
            TradingDays(monday, AddDays(monday, 6)) == [monday, tue, wed, thu, fri]
  {
    var sun := AddDays(monday, 6);
    var tue := Succ(monday);
    var wed := Succ(tue);
    var thu := Succ(wed);
    var fri := Succ(thu);
    var sat := Succ(fri);
    var sun' := Succ(sat);
    WeekDayShift(monday, tue, 1);
    WeekDayShift(monday, wed, 2);
    WeekDayShift(monday, thu, 3);
    WeekDayShift(monday, fri, 4);
    WeekDayShift(monday, sat, 5);
    WeekDayShift(monday, sun', 6);
    DayNumberInjective(sun', sun);
    TradingDaysStep(sun, sun);
    TradingDaysStep(sat, sun);
    TradingDaysStep(fri, sun);
    TradingDaysStep(thu, sun);
    TradingDaysStep(wed, sun);
    TradingDaysStep(tue, sun);
    TradingDaysStep(monday, sun);
  }

  /** Two keys out of string order are displayed swapped. */
  lemma DisplayOrderOfTwo(a: string, b: string)
    requires !LexLe(a, b)
    ensures DisplayOrder([a, b]) == [b, a]
  {
    assert [a, b][1..] == [b] && [b][1..] == [];
    assert DisplayOrder([b]) == [b];
    assert InsertSorted(a, [b]) == [b] + InsertSorted(a, []);
  }

  /** The chips are not in calendar order: 1 Feb 2024 sorts before 2 Jan 2024. */
  lemma DisplayOrderIsNotChronological()
    ensures DayNumber(Date(2024, 1, 2)) < DayNumber(Date(2024, 2, 1))
    ensures DisplayOrder([FormatToApiDate(Date(2024, 1, 2)), FormatToApiDate(Date(2024, 2, 1))])
            == [FormatToApiDate(Date(2024, 2, 1)), FormatToApiDate(Date(2024, 1, 2))]
  {
    var jan2 := FormatToApiDate(Date(2024, 1, 2));
    var feb1 := FormatToApiDate(Date(2024, 2, 1));
    assert jan2[0] == '0' && jan2[1] == '2';
    assert feb1[0] == '0' && feb1[1] == '1';
    assert !LexLe(jan2, feb1);
    DisplayOrderOfTwo(jan2, feb1);
  }

  class Panel {
    var selectedDates: seq<string>
    var error: Option<string>
    const downloads: DownloadContext.Provider

    ghost predicate Invariant()
      reads this
    {
      NoDuplicates(selectedDates)
    }

    constructor (provider: DownloadContext.Provider)
      ensures Invariant()
      ensures selectedDates == [] && error == None && downloads == provider
    {
      selectedDates := [];
      error := None;
      downloads := provider;
    }

    /** `handleAddDate`: add the picked day unless it is missing or a weekend. */
    method HandleAddDate(date: Option<Date>)
      requires Invariant()
      requires date.Some? ==> Valid(date.value)
      modifies this`selectedDates, this`error
      ensures Invariant()
      ensures date.Some? && !IsWeekend(date.value) ==>
                selectedDates == Add(old(selectedDates), FormatToApiDate(date.value)) && error == None
      ensures !(date.Some? && !IsWeekend(date.value)) ==>
                selectedDates == old(selectedDates) && error == Some(WeekendError)
    {
      if date.Some? && !IsWeekend(date.value) {
        selectedDates := Add(selectedDates, FormatToApiDate(date.value));
        error := None;
      } else {
        error := Some(WeekendError);
      }
    }

    /** `handleAddRange`: walk the range day by day, adding the weekdays. */
    method HandleAddRange(from: Option<Date>, to: Option<Date>)
      requires Invariant()
      requires from.Some? ==> Valid(from.value)
      requires to.Some? ==> Valid(to.value)
      modifies this`selectedDates, this`error
      ensures Invariant()
      ensures from.Some? && to.Some? ==>
                selectedDates == AddAll(old(selectedDates), FormatAll(TradingDays(from.value, to.value)))
                && error == None
      ensures !(from.Some? && to.Some?) ==>
                selectedDates == old(selectedDates) && error == Some(RangeError)
    {
      if from.Some? && to.Some? {
        var last := to.value;
        var newDates := selectedDates;
        var current := from.value;
        ghost var target := AddAll(selectedDates, FormatAll(TradingDays(current, last)));
        while NotAfter(current, last)
          invariant Valid(current)
          invariant NoDuplicates(newDates)
          invariant AddAll(newDates, FormatAll(TradingDays(current, last))) == target
          decreases DayNumber(last) - DayNumber(current)
        {
          AddRangeStep(newDates, current, last);
          if !IsWeekend(current) {
            newDates := Add(newDates, FormatToApiDate(current));
          }
          current := Succ(current);
        }
        assert TradingDays(current, last) == [];
        assert FormatAll([]) == [];
        selectedDates := newDates;
        error := None;
      } else {
        error := Some(RangeError);
      }
    }

    /** `handleRemoveDate`. */
    method HandleRemoveDate(dateToRemove: string)
      requires Invariant()
      modifies this`selectedDates
      ensures Invariant()
      ensures selectedDates == Delete(old(selectedDates), dateToRemove)
    {
      selectedDates := Delete(selectedDates, dateToRemove);
    }

    /**
     * `handleDownload`: hand the selection, in insertion order, to the
     * provider and then clear it; an empty selection does nothing.
     */
    method HandleDownload(requestOk: bool)
      requires Invariant()
      modifies this`selectedDates, downloads
      ensures Invariant()
      ensures old(selectedDates) != [] ==>
                selectedDates == []
                && DownloadContext.ProgressOk(downloads.downloads)
                && (requestOk ==>
                      && |downloads.downloads| == |old(selectedDates)|
                      && forall j :: 0 <= j < |old(selectedDates)| ==>
                           downloads.downloads[j] == DownloadContext.Item(old(selectedDates)[j], DownloadContext.Success, 100))
                && (!requestOk ==> downloads.downloads
                                   == DownloadContext.MarkFailed(DownloadContext.Queued(old(selectedDates))))
      ensures old(selectedDates) == [] ==>
                selectedDates == old(selectedDates) && downloads.downloads == old(downloads.downloads)
    {
      var datesToDownload := selectedDates;
      if |datesToDownload| > 0 {
        downloads.StartDownload(datesToDownload, requestOk);
        DownloadContext.RunCompletesAll(datesToDownload);
        DownloadContext.FailedRequest(datesToDownload);
        selectedDates := [];
      }
    }
  }
}
