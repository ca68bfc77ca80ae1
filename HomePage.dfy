/**
 * The dashboard's server-rendered home page: today's top stocks and sectors,
 * falling back to the previous calendar day when today's data cannot be had.
 * The backend endpoints are parameters (a response, or None when the call
 * fails), and so are the two readings of the clock.
 */
module HomePage {
  import opened Options
  import opened CivilDate
  import opened ApiDate
  import opened MarketData

  datatype LatestData = LatestData(stockPerformance: Option<StockPerformance>,
                                   sectorPerformance: Option<SectorPerformance>)

  /** One attempt: both requests for the same day; it fails if either fails. */
  function Attempt(apiDate: string,
                   topGainersLosers: string -> Option<StockPerformance>,
                   sectorPerformance: string -> Option<SectorPerformance>): (r: Option<LatestData>)
    ensures r.Some? <==> topGainersLosers(apiDate).Some? && sectorPerformance(apiDate).Some?
    ensures r.Some? ==> r.value == LatestData(topGainersLosers(apiDate), sectorPerformance(apiDate))
  {
    var s := topGainersLosers(apiDate);
    var p := sectorPerformance(apiDate);
    if s.Some? && p.Some? then Some(LatestData(s, p)) else None
  }

  /** The two calls of an attempt, in the order they are issued. */
  function AttemptCalls(apiDate: string): (calls: seq<Call>)
    ensures |calls| == 2 && calls[0].GetTopGainersLosers? && calls[1].GetSectorPerformance?
    ensures forall i :: 0 <= i < |calls| ==> calls[i].date == apiDate
  {
    [GetTopGainersLosers(apiDate), GetSectorPerformance(apiDate)]
  }

  /**
   * `getLatestData`: try today; if that fails, read the clock again, step it
   * back one day and try that day; if that fails too, both results are null.
   */
  method GetLatestData(today: Date, retryClock: Date,
                       topGainersLosers: string -> Option<StockPerformance>,
                       sectorPerformance: string -> Option<SectorPerformance>)
    returns (result: LatestData, calls: seq<Call>)
    requires Valid(today) && Valid(retryClock)
    ensures |calls| == 2 || |calls| == 4
    ensures calls[..2] == AttemptCalls(FormatToApiDate(today))
    ensures |calls| == 4 <==> Attempt(FormatToApiDate(today), topGainersLosers, sectorPerformance).None?
    ensures |calls| == 4 ==> calls[2..] == AttemptCalls(FormatToApiDate(Pred(retryClock)))
    ensures var first := Attempt(FormatToApiDate(today), topGainersLosers, sectorPerformance);
            var second := Attempt(FormatToApiDate(Pred(retryClock)), topGainersLosers, sectorPerformance);
            result == if first.Some? then first.value
                      else if second.Some? then second.value
                      else LatestData(None, None)
  {
    var apiDate := FormatToApiDate(today);
    calls := [GetTopGainersLosers(apiDate), GetSectorPerformance(apiDate)];
    var stocks := topGainersLosers(apiDate);
    var sectors := sectorPerformance(apiDate);
    if stocks.Some? && sectors.Some? {
      return LatestData(stocks, sectors), calls;
    }
    var yesterday := retryClock;
    yesterday := Pred(yesterday);
    var yesterdayApiDate := FormatToApiDate(yesterday);
    calls := calls + [GetTopGainersLosers(yesterdayApiDate), GetSectorPerformance(yesterdayApiDate)];
    stocks := topGainersLosers(yesterdayApiDate);
    sectors := sectorPerformance(yesterdayApiDate);
    if stocks.Some? && sectors.Some? {
      result := LatestData(stocks, sectors);
    } else {
      result := LatestData(None, None);
    }
  }

  /** Every call of an attempt names the same day. */
  lemma AttemptUsesOneDate(apiDate: string, c: Call)
    requires c in AttemptCalls(apiDate)
    ensures (c.GetTopGainersLosers? || c.GetSectorPerformance?) && c.date == apiDate
  {
  }

  /**
   * When the clock has not moved past midnight between the two readings, the
   * retry asks for the calendar day before today, with month and year rolled
   * back, and never for today again (4-digit years).
   */
  lemma RetryIsPreviousDay(today: Date)
    requires Valid(today) && 1000 <= Pred(today).year && today.year <= 9999
    ensures IsWireDate(FormatToApiDate(Pred(today)))
    ensures ParseApiDate(FormatToApiDate(Pred(today))) == Pred(today)
    ensures DayNumber(ParseApiDate(FormatToApiDate(Pred(today)))) == DayNumber(today) - 1
    ensures FormatToApiDate(Pred(today)) != FormatToApiDate(today)
  {
    ParseFormat(Pred(today));
    ParseFormat(today);
  }

  /** On the first of January the retry asks for the 31st of December of the year before. */
  lemma RetryOnNewYear(year: int)
    ensures Pred(Date(year, 1, 1)) == Date(year - 1, 12, 31)
  {
  }
}
