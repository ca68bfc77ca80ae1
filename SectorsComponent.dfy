/**
 * The sectors card component: a single-day calendar for sector performance
 * and a range calendar for the volume-ratio chart.
 */
module SectorsComponent {
  import opened Options
  import opened CivilDate
  import opened ApiDate
  import opened MarketData

  const PerformanceError := "Failed to fetch sector performance. Please try again."
  const VolumeError := "Failed to fetch sector volume ratios. Please try again."

  /** The range calendar's selection; either end may be missing. */
  datatype DayRange = DayRange(from: Option<Date>, to: Option<Date>)

  predicate RangeValid(r: DayRange) {
    (r.from.Some? ==> Valid(r.from.value)) && (r.to.Some? ==> Valid(r.to.value))
  }

  /** The performance request: none without a day. */
  function PerformanceRequest(performanceDate: Option<Date>): (c: Option<Call>)
    requires performanceDate.Some? ==> Valid(performanceDate.value)
    ensures c.Some? <==> performanceDate.Some?
    ensures c.Some? ==> c.value == GetSectorPerformance(FormatToApiDate(performanceDate.value))
  {
    if performanceDate.Some? then Some(GetSectorPerformance(FormatToApiDate(performanceDate.value))) else None
  }

  /**
   * The volume request: only when both ends are picked, and then the range's
   * end goes in the `startDate` slot and its start in the `endDate` slot.
   */
  function VolumeRequest(range: DayRange): (c: Option<Call>)
    requires RangeValid(range)
    ensures c.Some? <==> range.from.Some? && range.to.Some?
    ensures c.Some? ==> c.value.GetSectorVolumeRatio?
                        && c.value.startDate == FormatToApiDate(range.to.value)
                        && c.value.endDate == FormatToApiDate(range.from.value)
  {
    if range.from.Some? && range.to.Some? then
      Some(GetSectorVolumeRatio(FormatToApiDate(range.to.value), FormatToApiDate(range.from.value)))
    else None
  }

  /** The bars of the chart: the highest ratios, in order, then the lowest, in order. */
  function ChartData(v: SectorRatios): (r: seq<SectorRatio>)
    ensures |r| == |v.highest| + |v.lowest|
    ensures r[..|v.highest|] == v.highest && r[|v.highest|..] == v.lowest
  {
    v.highest + v.lowest
  }

  /**
   * For a range picked in calendar order, the backend reads a `startDate`
   * later than the `endDate`: the arguments go in swapped.
   */
  lemma VolumeRequestIsSwapped(from: Date, to: Date)
    requires Valid(from) && 1000 <= from.year <= 9999
    requires Valid(to) && 1000 <= to.year <= 9999
    requires LexBefore(from, to)
    ensures var c := VolumeRequest(DayRange(Some(from), Some(to))).value;
            IsWireDate(c.startDate) && IsWireDate(c.endDate)
            && ParseApiDate(c.startDate) == to && ParseApiDate(c.endDate) == from
            && DayNumber(ParseApiDate(c.endDate)) < DayNumber(ParseApiDate(c.startDate))
  {
    ParseFormat(from);
    ParseFormat(to);
    LexBeforeDayNumber(from, to);
  }

  /** Each bar of the chart comes from the payload, and every bar of the payload is in the chart. */
  lemma ChartDataHasEveryBar(v: SectorRatios, b: SectorRatio)
    ensures b in ChartData(v) <==> b in v.highest || b in v.lowest
  {
    var r := ChartData(v);
    assert r == r[..|v.highest|] + r[|v.highest|..];
  }

  class Panel {
    var performanceDate: Option<Date>
    var volumeRange: DayRange
    var sectorPerformance: Option<SectorPerformance>
    var sectorVolume: Option<SectorRatios>
    var loadingPerformance: bool
    var loadingVolume: bool
    var errorPerformance: Option<string>
    var errorVolume: Option<string>

    ghost predicate Invariant()
      reads this
    {
      (performanceDate.Some? ==> Valid(performanceDate.value)) && RangeValid(volumeRange)
    }

    /** The initial state; `today` is the clock's day when the card mounts. */
    constructor (today: Date)
      requires Valid(today)
      ensures Invariant()
      ensures performanceDate == Some(today) && volumeRange == DayRange(None, None)
      ensures sectorPerformance == None && sectorVolume == None
      ensures !loadingPerformance && !loadingVolume
      ensures errorPerformance == None && errorVolume == None
    {
      performanceDate := Some(today);
      volumeRange := DayRange(None, None);
      sectorPerformance := None;
      sectorVolume := None;
      loadingPerformance := false;
      loadingVolume := false;
      errorPerformance := None;
      errorVolume := None;
    }

    method SelectPerformanceDate(date: Option<Date>)
      requires Invariant()
      requires date.Some? ==> Valid(date.value)
      modifies this`performanceDate
      ensures Invariant() && performanceDate == date
    {
      performanceDate := date;
    }

    method SelectVolumeRange(range: DayRange)
      requires Invariant()
      requires RangeValid(range)
      modifies this`volumeRange
      ensures Invariant() && volumeRange == range
    {
      volumeRange := range;
    }

    /** The start of `handleFetchPerformance`. */
    method BeginFetchPerformance() returns (call: Option<Call>)
      requires Invariant()
      modifies this`loadingPerformance, this`errorPerformance
      ensures call == PerformanceRequest(performanceDate)
      ensures call.Some? ==> loadingPerformance && errorPerformance == None
      ensures call.None? ==> loadingPerformance == old(loadingPerformance)
                             && errorPerformance == old(errorPerformance)
    {
      call := None;
      if performanceDate.Some? {
        loadingPerformance := true;
        errorPerformance := None;
        call := Some(GetSectorPerformance(FormatToApiDate(performanceDate.value)));
      }
    }

    /** The end of `handleFetchPerformance`: a failure keeps the old data. */
    method FinishFetchPerformance(response: Option<SectorPerformance>)
      modifies this`sectorPerformance, this`errorPerformance, this`loadingPerformance
      ensures !loadingPerformance
      ensures response.Some? ==> sectorPerformance == response && errorPerformance == old(errorPerformance)
      ensures response.None? ==> sectorPerformance == old(sectorPerformance)
                                 && errorPerformance == Some(PerformanceError)
    {
      if response.Some? {
        sectorPerformance := response;
      } else {
        errorPerformance := Some(PerformanceError);
      }
      loadingPerformance := false;
    }

    /** The start of `handleFetchVolume`: nothing, and no error, unless both ends are picked. */
    method BeginFetchVolume() returns (call: Option<Call>)
      requires Invariant()
      modifies this`loadingVolume, this`errorVolume
      ensures call == VolumeRequest(volumeRange)
      ensures call.Some? ==> loadingVolume && errorVolume == None
      ensures call.None? ==> loadingVolume == old(loadingVolume) && errorVolume == old(errorVolume)
    {
      call := None;
      if volumeRange.from.Some? && volumeRange.to.Some? {
        loadingVolume := true;
        errorVolume := None;
        call := Some(GetSectorVolumeRatio(FormatToApiDate(volumeRange.to.value),
                                          FormatToApiDate(volumeRange.from.value)));
      }
    }

    /** The end of `handleFetchVolume`: a failure keeps the old chart. */
    method FinishFetchVolume(response: Option<SectorRatios>)
      modifies this`sectorVolume, this`errorVolume, this`loadingVolume
      ensures !loadingVolume
      ensures response.Some? ==> sectorVolume == response && errorVolume == old(errorVolume)
      ensures response.None? ==> sectorVolume == old(sectorVolume) && errorVolume == Some(VolumeError)
    {
      if response.Some? {
        sectorVolume := response;
      } else {
        errorVolume := Some(VolumeError);
      }
      loadingVolume := false;
    }
  }
}
