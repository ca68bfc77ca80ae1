/**
 * The stocks analysis page: the top gainers and losers of the picked day,
 * fetched whenever the day changes, and the volume differences over a list
 * of days, fetched on demand once at least two days are given.
 */
module StocksPage {
  import opened Options
  import opened CivilDate
  import opened ApiDate
  import opened MarketData

  const PerformanceError := "Failed to fetch stock performance data."
  const VolumeError := "Failed to fetch stock volume data."
  const TooFewDates := "Please select at least two dates."

  /** The volume request: none below two days, else every day formatted, count and order kept. */
  function VolumeRequest(dates: seq<Date>): (c: Option<Call>)
    requires forall i :: 0 <= i < |dates| ==> Valid(dates[i])
    ensures c.Some? <==> |dates| >= 2
    ensures c.Some? ==> c.value.GetStockVolumeDifferences? && |c.value.dates| == |dates|
                        && forall i :: 0 <= i < |dates| ==> c.value.dates[i] == FormatToApiDate(dates[i])
  {
    if |dates| < 2 then None else Some(GetStockVolumeDifferences(FormatAll(dates)))
  }

  /** The backend can read every day of the request back, in order, for 4-digit years. */
  lemma VolumeRequestKeepsDays(dates: seq<Date>)
    requires |dates| >= 2
    requires forall i :: 0 <= i < |dates| ==> Valid(dates[i]) && 1000 <= dates[i].year <= 9999
    ensures var ss := VolumeRequest(dates).value.dates;
            (forall i :: 0 <= i < |ss| ==> IsWireDate(ss[i])) && ParseAll(ss) == dates
  {
    ParseAllFormatAll(dates);
  }

  /** Different days give different strings in the request. */
  lemma VolumeRequestIsInjective(dates: seq<Date>, i: int, j: int)
    requires |dates| >= 2
    requires forall k :: 0 <= k < |dates| ==> Valid(dates[k])
    requires 0 <= i < |dates| && 0 <= j < |dates| && dates[i] != dates[j]
    ensures VolumeRequest(dates).value.dates[i] != VolumeRequest(dates).value.dates[j]
  {
    if FormatToApiDate(dates[i]) == FormatToApiDate(dates[j]) {
      FormatInjective(dates[i], dates[j]);
    }
  }

  class Page {
    var date: Date
    var stockPerformance: Option<StockPerformance>
    var loadingPerformance: bool
    var errorPerformance: Option<string>
    var dates: seq<Date>
    var stockVolume: Option<seq<StockVolume>>
    var loadingVolume: bool
    var errorVolume: Option<string>

    ghost predicate Invariant()
      reads this
    {
      Valid(date) && forall i :: 0 <= i < |dates| ==> Valid(dates[i])
    }

    /** The initial state; `today` is the clock's day when the page mounts. */
    constructor (today: Date)
      requires Valid(today)
      ensures Invariant()
      ensures date == today && stockPerformance == None && loadingPerformance && errorPerformance == None
      ensures dates == [] && stockVolume == None && !loadingVolume && errorVolume == None
    {
      date := today;
      stockPerformance := None;
      loadingPerformance := true;
      errorPerformance := None;
      dates := [];
      stockVolume := None;
      loadingVolume := false;
      errorVolume := None;
    }

    /** The date input's `onChange`. */
    method SetDate(d: Date)
      requires Invariant() && Valid(d)
      modifies this`date
      ensures Invariant() && date == d
    {
      date := d;
    }

    /** The multiple-date input's `onChange`; the days are given. */
    method SetDates(ds: seq<Date>)
      requires Invariant()
      requires forall i :: 0 <= i < |ds| ==> Valid(ds[i])
      modifies this`dates
      ensures Invariant() && dates == ds
    {
      dates := ds;
    }

    /** The start of the performance effect: loading on, error cleared, the day's request. */
    method BeginPerformanceFetch() returns (call: Call)
      requires Invariant()
      modifies this`loadingPerformance, this`errorPerformance
      ensures loadingPerformance && errorPerformance == None
      ensures call == GetTopGainersLosers(FormatToApiDate(date))
    {
      loadingPerformance := true;
      errorPerformance := None;
      var apiDate := FormatToApiDate(date);
      call := GetTopGainersLosers(apiDate);
    }

    /** The end of the performance effect: a failure keeps the old data. */
    method FinishPerformanceFetch(response: Option<StockPerformance>)
      modifies this`stockPerformance, this`errorPerformance, this`loadingPerformance
      ensures !loadingPerformance
      ensures response.Some? ==> stockPerformance == response && errorPerformance == old(errorPerformance)
      ensures response.None? ==> stockPerformance == old(stockPerformance)
                                 && errorPerformance == Some(PerformanceError)
    {
      if response.Some? {
        stockPerformance := response;
      } else {
        errorPerformance := Some(PerformanceError);
      }
      loadingPerformance := false;
    }

    /**
     * The start of `handleVolumeFetch`: below two days only the error is set
     * and nothing is requested; otherwise the error is cleared and loading on.
     */
    method BeginVolumeFetch() returns (call: Option<Call>)
      requires Invariant()
      modifies this`loadingVolume, this`errorVolume
      ensures call == VolumeRequest(dates)
      ensures |dates| < 2 ==> errorVolume == Some(TooFewDates) && loadingVolume == old(loadingVolume)
      ensures |dates| >= 2 ==> errorVolume == None && loadingVolume
    {
      if |dates| < 2 {
        errorVolume := Some(TooFewDates);
        return None;
      }
      loadingVolume := true;
      errorVolume := None;
      var apiDates := FormatAll(dates);
      call := Some(GetStockVolumeDifferences(apiDates));
    }

    /** The end of `handleVolumeFetch`: a failure keeps the previous volumes. */
    method FinishVolumeFetch(response: Option<seq<StockVolume>>)
      modifies this`stockVolume, this`errorVolume, this`loadingVolume
      ensures !loadingVolume
      ensures response.Some? ==> stockVolume == response && errorVolume == old(errorVolume)
      ensures response.None? ==> stockVolume == old(stockVolume) && errorVolume == Some(VolumeError)
    {
      if response.Some? {
        stockVolume := response;
      } else {
        errorVolume := Some(VolumeError);
      }
      loadingVolume := false;
    }
  }
}
