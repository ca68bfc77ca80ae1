/**
 * The sectors analysis page: sector performance of the picked day and the
 * volume ratios between a start and an end day, each fetched whenever its
 * days change, and the bar chart scaled by the largest ratio.
 */
module SectorsPage {
  import opened Options
  import opened CivilDate
  import opened ApiDate
  import opened MarketData

  const PerformanceError := "Failed to fetch sector performance data."
  const VolumeError := "Failed to fetch sector volume data."

  /** The volume request: the formatted start day, then the formatted end day. */
  function VolumeRequest(startDate: Date, endDate: Date): (c: Call)
    requires Valid(startDate) && Valid(endDate)
    ensures c.GetSectorVolumeRatio?
    ensures c.startDate == FormatToApiDate(startDate) && c.endDate == FormatToApiDate(endDate)
  {
    GetSectorVolumeRatio(FormatToApiDate(startDate), FormatToApiDate(endDate))
  }

  /** `Math.max(...ratios, 0)`: the largest ratio, or 0 when none is larger. */
  function MaxRatio(sectors: seq<SectorVolume>): (m: real)
    ensures m >= 0.0
    ensures forall i :: 0 <= i < |sectors| ==> sectors[i].volumeRatio <= m
    ensures m == 0.0 || exists i :: 0 <= i < |sectors| && sectors[i].volumeRatio == m
  {
    if sectors == [] then 0.0
    else
      var rest := MaxRatio(sectors[1..]);
      assert forall i :: 1 <= i < |sectors| ==> sectors[i] == sectors[1..][i - 1];
      if sectors[0].volumeRatio > rest then sectors[0].volumeRatio else rest
  }

  /** The backend reads the request's days back in the order picked, for 4-digit years. */
  lemma VolumeRequestKeepsOrder(startDate: Date, endDate: Date)
    requires Valid(startDate) && 1000 <= startDate.year <= 9999
    requires Valid(endDate) && 1000 <= endDate.year <= 9999
    ensures var c := VolumeRequest(startDate, endDate);
            IsWireDate(c.startDate) && IsWireDate(c.endDate)
            && ParseApiDate(c.startDate) == startDate && ParseApiDate(c.endDate) == endDate
  {
    ParseFormat(startDate);
    ParseFormat(endDate);
  }

  /** With no sectors the scale is 0, and so it is whenever no ratio is positive. */
  lemma MaxRatioOfNonPositive(sectors: seq<SectorVolume>)
    requires forall i :: 0 <= i < |sectors| ==> sectors[i].volumeRatio <= 0.0
    ensures MaxRatio(sectors) == 0.0
  {
  }

  class Page {
    var date: Date
    var sectorPerformance: Option<SectorPerformance>
    var loadingPerformance: bool
    var errorPerformance: Option<string>
    var startDate: Date
    var endDate: Date
    var sectorVolume: Option<SectorVolumeSummary>
    var loadingVolume: bool
    var errorVolume: Option<string>

    ghost predicate Invariant()
      reads this
    {
      Valid(date) && Valid(startDate) && Valid(endDate)
    }

    /** The initial state; `today` is the clock's day when the page mounts. */
    constructor (today: Date)
      requires Valid(today)
      ensures Invariant()
      ensures date == today && sectorPerformance == None && loadingPerformance && errorPerformance == None
      ensures startDate == today && endDate == today
      ensures sectorVolume == None && loadingVolume && errorVolume == None
    {
      date := today;
      sectorPerformance := None;
      loadingPerformance := true;
      errorPerformance := None;
      startDate := today;
      endDate := today;
      sectorVolume := None;
      loadingVolume := true;
      errorVolume := None;
    }

    method SetDate(d: Date)
      requires Invariant() && Valid(d)
      modifies this`date
      ensures Invariant() && date == d
    {
      date := d;
    }

    method SetStartDate(d: Date)
      requires Invariant() && Valid(d)
      modifies this`startDate
      ensures Invariant() && startDate == d
    {
      startDate := d;
    }

    method SetEndDate(d: Date)
      requires Invariant() && Valid(d)
      modifies this`endDate
      ensures Invariant() && endDate == d
    {
      endDate := d;
    }

    /** The start of the performance effect. */
    method BeginPerformanceFetch() returns (call: Call)
      requires Invariant()
      modifies this`loadingPerformance, this`errorPerformance
      ensures loadingPerformance && errorPerformance == None
      ensures call == GetSectorPerformance(FormatToApiDate(date))
    {
      loadingPerformance := true;
      errorPerformance := None;
      var apiDate := FormatToApiDate(date);
      call := GetSectorPerformance(apiDate);
    }

    /** The end of the performance effect: a failure keeps the old data. */
    method FinishPerformanceFetch(response: Option<SectorPerformance>)
      modifies this`sectorPerformance, this`errorPerformance, this`loadingPerformance
      ensures !loadingPerformance
      ensures response.Some? ==> sectorPerformance == response && errorPerformance == old(errorPerformance)
      ensures response.None? ==> sectorPerformance == old(sectorPerformance)
                                 && errorPerformance == Some(PerformanceError)
    {
      if response.Some? {
        sectorPerformance := response;
      } else {
        errorPerformance := Some(PerformanceError);
      }
      loadingPerformance := false;
    }

    /** The start of the volume effect. */
    method BeginVolumeFetch() returns (call: Call)
      requires Invariant()
      modifies this`loadingVolume, this`errorVolume
      ensures loadingVolume && errorVolume == None
      ensures call == VolumeRequest(startDate, endDate)
    {
      loadingVolume := true;
      errorVolume := None;
      var start := FormatToApiDate(startDate);
      var end := FormatToApiDate(endDate);
      call := GetSectorVolumeRatio(start, end);
    }

    /** The end of the volume effect: a failure keeps the old ratios. */
    method FinishVolumeFetch(response: Option<SectorVolumeSummary>)
      modifies this`sectorVolume, this`errorVolume, this`loadingVolume
      ensures !loadingVolume
      ensures response.Some? ==> sectorVolume == response && errorVolume == old(errorVolume)
      ensures response.None? ==> sectorVolume == old(sectorVolume) && errorVolume == Some(VolumeError)
    {
      if response.Some? {
        sectorVolume := response;
      } else {
        errorVolume := Some(VolumeError);
      }
      loadingVolume := false;
    }
  }
}
