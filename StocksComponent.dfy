/**
 * The stocks card component: a single-day calendar for the top gainers and
 * losers, and a multi-day calendar whose selection, kept as DDMMYYYY strings,
 * feeds the volume comparison when exactly two days are picked.
 */
module StocksComponent {
  import opened Options
  import opened CivilDate
  import opened ApiDate
  import opened MarketData

  const PerformanceError := "Failed to fetch stock performance. Please try again."
  const VolumeError := "Failed to fetch stock volume differences. Please try again."

  /** The multi-day calendar's `onSelect`: each picked day formatted, in order; nothing picked is []. */
  function OnSelect(dates: Option<seq<Date>>): (r: seq<string>)
    requires dates.Some? ==> forall i :: 0 <= i < |dates.value| ==> Valid(dates.value[i])
    ensures dates.None? ==> r == []
    ensures dates.Some? ==> |r| == |dates.value|
                            && forall i :: 0 <= i < |r| ==> r[i] == FormatToApiDate(dates.value[i])
  {
    match dates
    case None => []
    case Some(ds) => FormatAll(ds)
  }

  /**
   * The days the calendar shows as selected: each stored string read back with
   * `new Date(year, month - 1, day)` on its three fields, which is `parseApiDate`.
   */
  function CalendarSelection(volumeDates: seq<string>): (r: seq<Date>)
    requires forall i :: 0 <= i < |volumeDates| ==> IsWireDate(volumeDates[i])
    ensures |r| == |volumeDates|
    ensures forall i :: 0 <= i < |r| ==> Valid(r[i]) && r[i] == ParseApiDate(volumeDates[i])
    ensures forall i :: 0 <= i < |r| && IsCanonicalWireDate(volumeDates[i]) ==>
              FormatToApiDate(r[i]) == volumeDates[i]
  {
    var r := ParseAll(volumeDates);
    assert forall i :: 0 <= i < |r| && IsCanonicalWireDate(volumeDates[i]) ==>
             FormatToApiDate(r[i]) == volumeDates[i] by {
      forall i | 0 <= i < |r| && IsCanonicalWireDate(volumeDates[i])
        ensures FormatToApiDate(r[i]) == volumeDates[i]
      {
        FormatParse(volumeDates[i]);
      }
    }
    r
  }

  /** The performance request: none without a day, else the top gainers and losers of that day. */
  function PerformanceRequest(performanceDate: Option<Date>): (c: Option<Call>)
    requires performanceDate.Some? ==> Valid(performanceDate.value)
    ensures c.Some? <==> performanceDate.Some?
    ensures c.Some? ==> c.value == GetTopGainersLosers(FormatToApiDate(performanceDate.value))
  {
    if performanceDate.Some? then Some(GetTopGainersLosers(FormatToApiDate(performanceDate.value))) else None
  }

  /**
   * The volume request: only for exactly two selected days, sent as stored,
   * the first as the 'previous' day and the second as the 'current' one.
   */
  function VolumeRequest(volumeDates: seq<string>): (c: Option<Call>)
    ensures c.Some? <==> |volumeDates| == 2
    ensures c.Some? ==> c.value.GetStockVolumeDifferences? && |c.value.dates| == 2
                        && c.value.dates[0] == volumeDates[0] && c.value.dates[1] == volumeDates[1]
  {
    if |volumeDates| == 2 then Some(GetStockVolumeDifferences(volumeDates)) else None
  }

  /** What the calendar shows is what was picked, for days with a 4-digit year. */
  lemma SelectionRoundTrip(dates: seq<Date>)
    requires forall i :: 0 <= i < |dates| ==> Valid(dates[i]) && 1000 <= dates[i].year <= 9999
    ensures forall i :: 0 <= i < |OnSelect(Some(dates))| ==> IsWireDate(OnSelect(Some(dates))[i])
    ensures CalendarSelection(OnSelect(Some(dates))) == dates
  {
    ParseAllFormatAll(dates);
  }

  /** Two picked days reach the backend as their formatted strings, earlier pick first. */
  lemma PickedPairIsSent(first: Date, second: Date)
    requires Valid(first) && Valid(second)
    ensures var c := VolumeRequest(OnSelect(Some([first, second])));
            c == Some(GetStockVolumeDifferences([FormatToApiDate(first), FormatToApiDate(second)]))
  {
    var s := OnSelect(Some([first, second]));
    assert s == [FormatToApiDate(first), FormatToApiDate(second)];
  }

  class Panel {
    var performanceDate: Option<Date>
    var volumeDates: seq<string>
    var stockPerformance: Option<StockPerformance>
    var stockVolume: seq<StockVolume>
    var loadingPerformance: bool
    var loadingVolume: bool
    var errorPerformance: Option<string>
    var errorVolume: Option<string>

    ghost predicate Invariant()
      reads this
    {
      performanceDate.Some? ==> Valid(performanceDate.value)
    }

    /** The initial state; `today` is the clock's day when the card mounts. */
    constructor (today: Date)
      requires Valid(today)
      ensures Invariant()
      ensures performanceDate == Some(today) && volumeDates == []
      ensures stockPerformance == None && stockVolume == []
      ensures !loadingPerformance && !loadingVolume
      ensures errorPerformance == None && errorVolume == None
    {
      performanceDate := Some(today);
      volumeDates := [];
      stockPerformance := None;
      stockVolume := [];
      loadingPerformance := false;
      loadingVolume := false;
      errorPerformance := None;
      errorVolume := None;
    }

    /** The single-day calendar's `onSelect`. */
    method SelectPerformanceDate(date: Option<Date>)
      requires date.Some? ==> Valid(date.value)
      modifies this`performanceDate
      ensures Invariant() && performanceDate == date
    {
      performanceDate := date;
    }

    /** The multi-day calendar's `onSelect`. */
    method SelectVolumeDates(dates: Option<seq<Date>>)
      requires dates.Some? ==> forall i :: 0 <= i < |dates.value| ==> Valid(dates.value[i])
      modifies this`volumeDates
      ensures volumeDates == OnSelect(dates)
    {
      match dates {
        case None => volumeDates := [];
        case Some(ds) => volumeDates := FormatAll(ds);
      }
    }

    /** The start of `handleFetchPerformance`: nothing without a day, else loading on and error cleared. */
    method BeginFetchPerformance() returns (call: Option<Call>)
      requires Invariant()
      modifies this`loadingPerformance, this`errorPerformance
      ensures call == PerformanceRequest(performanceDate)
      ensures call.Some? ==> loadingPerformance && errorPerformance == None
      ensures call.None? ==> loadingPerformance == old(loadingPerformance)
                             && errorPerformance == old(errorPerformance)
    {
      call := None;
      if performanceDate.Some? {
        loadingPerformance := true;
        errorPerformance := None;
        call := Some(GetTopGainersLosers(FormatToApiDate(performanceDate.value)));
      }
    }

    /** The end of `handleFetchPerformance`: the data, or the error and the old data; loading off. */
    method FinishFetchPerformance(response: Option<StockPerformance>)
      modifies this`stockPerformance, this`errorPerformance, this`loadingPerformance
      ensures !loadingPerformance
      ensures response.Some? ==> stockPerformance == response && errorPerformance == old(errorPerformance)
      ensures response.None? ==> stockPerformance == old(stockPerformance)
                                 && errorPerformance == Some(PerformanceError)
    {
      if response.Some? {
        stockPerformance := response;
      } else {
        errorPerformance := Some(PerformanceError);
      }
      loadingPerformance := false;
    }

    /** The start of `handleFetchVolume`: nothing unless exactly two days, and then no error is set. */
    method BeginFetchVolume() returns (call: Option<Call>)
      modifies this`loadingVolume, this`errorVolume
      ensures call == VolumeRequest(volumeDates)
      ensures call.Some? ==> loadingVolume && errorVolume == None
      ensures call.None? ==> loadingVolume == old(loadingVolume) && errorVolume == old(errorVolume)
    {
      call := None;
      if |volumeDates| == 2 {
        loadingVolume := true;
        errorVolume := None;
        call := Some(GetStockVolumeDifferences(volumeDates));
      }
    }

    /** The end of `handleFetchVolume`. */
    method FinishFetchVolume(response: Option<seq<StockVolume>>)
      modifies this`stockVolume, this`errorVolume, this`loadingVolume
      ensures !loadingVolume
      ensures response.Some? ==> stockVolume == response.value && errorVolume == old(errorVolume)
      ensures response.None? ==> stockVolume == old(stockVolume) && errorVolume == Some(VolumeError)
    {
      if response.Some? {
        stockVolume := response.value;
      } else {
        errorVolume := Some(VolumeError);
      }
      loadingVolume := false;
    }
  }
}
