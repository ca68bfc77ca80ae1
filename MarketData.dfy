/**
 * The payloads the views receive from the backend and the backend calls they
 * issue, one constructor per endpoint with the endpoint's arguments in order.
 * Numbers the backend reports are kept as reals; the views only display them.
 */
module MarketData {

  datatype Stock = Stock(symbol: string, percentChange: real)

  datatype StockPerformance = StockPerformance(topGainers: seq<Stock>, topLosers: seq<Stock>)

  datatype StockVolume = StockVolume(symbol: string, volumeDifference: real)

  datatype Sector = Sector(name: string, percentChange: real)

  datatype SectorPerformance = SectorPerformance(topGainers: seq<Sector>, topLosers: seq<Sector>)

  /** A bar of the volume-ratio chart in the component view. */
  datatype SectorRatio = SectorRatio(name: string, ratio: real)

  /** The component view's volume-ratio payload. */
  datatype SectorRatios = SectorRatios(highest: seq<SectorRatio>, lowest: seq<SectorRatio>)

  /** A row of the page view's volume-ratio chart. */
  datatype SectorVolume = SectorVolume(sector: string, volumeRatio: real)

  /** The page view's volume-ratio payload. */
  datatype SectorVolumeSummary = SectorVolumeSummary(topSectors: seq<SectorVolume>, bottomSectors: seq<SectorVolume>)

  /** One row of the bhavcopy table. */
  datatype BhavcopyRow = BhavcopyRow(
    symbol: string, series: string,
    open: real, high: real, low: real, close: real, last: real, prevClose: real,
    timestamp: string)

  /** One page of bhavcopy rows and the number of pages the backend reports. */
  datatype BhavcopyPage = BhavcopyPage(data: seq<BhavcopyRow>, totalPages: int)

  /** A backend call and its arguments. */
  datatype Call =
    | GetSectorPerformance(date: string)
    | GetSectorVolumeRatio(startDate: string, endDate: string)
    | GetTopGainersLosers(date: string)
    | GetStockVolumeDifferences(dates: seq<string>)
    | GetBhavcopy(date: string, page: int, limit: int)
    | SearchBhavcopy(symbol: string, date: string, page: int, limit: int)
}
