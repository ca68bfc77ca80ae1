# marketpulse-ui: a Dafny model of the date, selection and fetch logic

marketpulse-ui is a Next.js front end for an NSE market-data backend. Most
of it is rendering. The logic it does have is modelled here:

- the `DDMMYYYY` wire format that every view uses to name a trading day;
- the calendar arithmetic JavaScript's `Date` performs on the way;
- the download page's set of selected trading days;
- the download provider's status list;
- the bhavcopy viewer's pagination;
- the guards and argument shaping of the stock and sector views;
- the home page's today-then-yesterday fallback.

Modules, one per source file plus two shared ones:

| module | models |
|---|---|
| `CivilDate` | day-granularity ECMAScript `Date`: leap years, day numbers from 1970-01-01, day of week, `setDate(getDate() ± 1)` as `Succ`/`Pred`, `new Date(y, m, d)` with its normalisation as `Construct` |
| `ApiDate` | `formatToApiDate` (the same code in six files) and `parseApiDate` (two files) with their round trips |
| `MarketData` | the response records and the backend calls of `src/lib/api.ts` as a `Call` datatype |
| `DownloadClient` | the selection set and its handlers (`class Panel`) |
| `DownloadContext` | `startDownload`, `clearCompleted` and `isDownloading` (`class Provider`) |
| `BhavcopyViewer` | `visiblePages`, Previous/Next, the page resets and the endpoint choice (`class Viewer`) |
| `StocksComponent`, `SectorsComponent` | the two analysis cards under `src/components/` |
| `StocksPage`, `SectorsPage` | the two pages under `src/app/` |
| `HomePage` | `getLatestData` |

Modelling conventions:

- A JavaScript `Set<string>` is a `seq<string>` without duplicates, kept in insertion order. `Array.from` hands that order to `startDownload`.
- An async handler is split at its `await` into a `Begin…` method and a `Finish…` method. `Begin…` returns the backend `Call` it issues. `Finish…` takes the response as an `Option`, where `None` means the call threw.
- On the home page the two backends are function parameters.
- Clock readings (`new Date()`) are parameters. `getLatestData` reads the clock twice, so it takes two dates.
- Integers are unbounded and dates are whole days.

Where the code behaves differently from what a reader may expect, the model follows the code:

- `formatToApiDate` does not pad the year. The string has 8 digits only for years 1000..9999 (`ApiDate.FormatIsWireDate`). A negative year is printed with a leading '-'.
- `parseApiDate` has no error path. It hands the fields to `new Date`, which normalises them: "31022024" is 2 March 2024 and a two-digit year `00xx` becomes `19xx` (`ApiDate.ParseRollsOver`, `ApiDate.ParseCenturyShift`). Malformed strings are excluded by the precondition `IsWireDate`, which requires 8 digits.
- The selected-day chips are sorted as strings, which is not calendar order (`DownloadClient.DisplayOrderIsNotChronological`).
- The sector volume card passes the range end as `startDate` (`SectorsComponent.VolumeRequestIsSwapped`). The model keeps that order.

## Model

| member | source | states |
|---|---|---|
| CivilDate.DaysInMonth | src/components/DownloadClient.tsx:77 | every month has 28..31 days, and February has 29 exactly in leap years (the Gregorian rule `Date` applies) |
| CivilDate.WeekDay | src/components/DownloadClient.tsx:54 | `getDay()` is in 0..6 |
| CivilDate.Succ | src/components/DownloadClient.tsx:77 | `setDate(getDate() + 1)` gives a valid date whose day number is one more, across month and year ends |
| CivilDate.Pred | src/app/page.tsx:26-27 | `setDate(getDate() - 1)` gives a valid date whose day number is one less |
| CivilDate.AddDays | src/components/DownloadClient.tsx:24 | day overflow in the `Date` constructor lands on a valid date exactly n days further on |
| CivilDate.ConstructorYear | src/components/DownloadClient.tsx:24 | the `Date` constructor maps years 0..99 to 1900..1999 and keeps other years |
| CivilDate.Construct | src/components/DownloadClient.tsx:24 | `new Date(year, monthIndex, day)` is a valid date whose day number is that of the normalised year and month plus day - 1 |
| CivilDate.DayFromYearIsEcma | src/components/DownloadClient.tsx:24 | the year-by-year day count equals the closed-form DayFromYear of the ECMAScript specification |
| CivilDate.DayFromYearMonotone | src/components/DownloadClient.tsx:73 | a date in an earlier year has a smaller day number |
| CivilDate.DayInYear | src/components/DownloadClient.tsx:73 | a date's day number lies inside its year |
| CivilDate.LexBeforeDayNumber | src/components/DownloadClient.tsx:73 | calendar order (year, month, day) implies day-number order |
| CivilDate.DayNumberInjective | src/components/DownloadClient.tsx:73 | two valid dates with the same day number are equal |
| CivilDate.DayNumberIsCalendarOrder | src/components/DownloadClient.tsx:73 | day-number order holds iff the dates are equal or in calendar order |
| CivilDate.NotAfter | src/components/DownloadClient.tsx:73 | the `<=` of the range loop holds iff the dates are equal or in calendar order |
| CivilDate.SuccPred | src/app/page.tsx:26-27 | the day after the day before is the same day, and the other way round |
| CivilDate.SuccIsNext | src/components/DownloadClient.tsx:73-77 | stepping from a date strictly before `to` never overshoots `to` |
| CivilDate.WeekDayShift | src/components/DownloadClient.tsx:54 | n days later the weekday is n further on, mod 7 |
| CivilDate.ConstructValid | src/components/DownloadClient.tsx:24 | the constructor applied to a valid date's own fields (year not in 0..99) gives that date back |
| CivilDate.ThirtyFirstOfFebruary | src/components/DownloadClient.tsx:24 | in a leap year `new Date(y, 1, 31)` is 2 March |
| CivilDate.FirstOfJanuary2024 | src/components/DownloadClient.tsx:54 | 1 January 2024 is a Monday (weekday 1), which anchors the weekday count |
| ApiDate.DigitChar | src/components/DownloadClient.tsx:13 | a number 0..9 prints as a digit |
| ApiDate.DigitValue | src/components/DownloadClient.tsx:21 | a digit reads back as 0..9 |
| ApiDate.DigitsValue | src/components/DownloadClient.tsx:21-23 | `parseInt(digits, 10)` is non-negative and below 10 to the number of digits |
| ApiDate.Decimal | src/components/DownloadClient.tsx:13-15 | `String(n)` is a non-empty string of digits without a leading zero |
| ApiDate.IntToString | src/components/DownloadClient.tsx:13-15 | `String(n)` of a non-negative number is digits that read back as n; of a negative one, '-' followed by such digits of -n |
| ApiDate.IntToStringInjective | src/components/DownloadClient.tsx:15 | different numbers print differently |
| ApiDate.PadStart2 | src/components/DownloadClient.tsx:13-14 | `padStart(2, '0')` leaves two or more characters alone and otherwise left-fills with '0' to length 2 |
| ApiDate.DecimalHasFourDigits | src/components/DownloadClient.tsx:15 | `String(year)` has four characters iff 1000 <= year <= 9999 |
| ApiDate.DigitsValueOfDecimal | src/components/DownloadClient.tsx:21-23 | `parseInt(String(n), 10) == n` |
| ApiDate.DecimalOfDigitsValue | src/components/DownloadClient.tsx:21-23 | a digit string without a leading zero prints back from its value |
| ApiDate.TwoDigitField | src/components/DownloadClient.tsx:13-14 | a day or month 1..99 is padded to two digits that read back as that number |
| ApiDate.TwoDigitFieldInverse | src/components/DownloadClient.tsx:13-14 | two digits with a non-zero value print back unchanged |
| ApiDate.FormatToApiDate | src/components/DownloadClient.tsx:12-17 | after four characters of day and month comes the year, unpadded, and nothing else |
| ApiDate.FormatFields | src/components/DownloadClient.tsx:12-17 | the string is the padded day, then the padded 1-based month, then the unpadded year |
| ApiDate.FormatIsWireDate | src/components/DownloadClient.tsx:12-17 | the formatted string has 8 digits iff the year has four digits |
| ApiDate.ParseApiDate | src/components/DownloadClient.tsx:20-25 | parsing always yields a valid date |
| ApiDate.ParseFormat | src/components/DownloadClient.tsx:12-25 | parse after format is the identity on valid dates with 4-digit years |
| ApiDate.ParseCanonical | src/components/DownloadClient.tsx:20-25 | a string that names a real date in years 1000..9999 parses to exactly those fields |
| ApiDate.ParseValidFields | src/context/DownloadContext.tsx:8-13 | fields that already form a valid date (year not in 0..99) pass through the constructor unchanged |
| ApiDate.FormatCanonical | src/components/DownloadClient.tsx:12-17 | formatting the fields of a canonical string gives that string |
| ApiDate.FormatParse | src/components/DownloadClient.tsx:12-25 | format after parse is the identity on canonical strings |
| ApiDate.FormatInjective | src/components/DownloadClient.tsx:12-17 | different valid dates have different strings, whatever the year's length |
| ApiDate.FormatAll | src/app/stocks/StocksClient.tsx:61 | `dates.map(formatToApiDate)` keeps the count and formats each element in place |
| ApiDate.ParseAll | src/components/StocksClient.tsx:126 | mapping the parse keeps the count and parses each element in place |
| ApiDate.ParseAllFormatAll | src/app/stocks/StocksClient.tsx:61 | the formatted list parses back to the dates, in order |
| ApiDate.FormatAllParsesBack | src/app/stocks/StocksClient.tsx:61 | each formatted element of the list is a wire date that parses back to its date |
| ApiDate.ParseAllPointwise | src/components/StocksClient.tsx:126 | a list whose strings parse one by one to given dates maps to exactly those dates |
| ApiDate.FormatAllParseAll | src/components/StocksClient.tsx:126-127 | a list of canonical strings survives parse then format |
| ApiDate.ParseCenturyShift | src/context/DownloadContext.tsx:11-12 | "01010050" parses to 1 January 1950, not 50 AD |
| ApiDate.ParseRollsOver | src/components/DownloadClient.tsx:20-25 | in a leap year, "3102yyyy" parses to 2 March |
| DownloadClient.Add | src/components/DownloadClient.tsx:60-61 | `Set.add`: the members are the old ones plus the key, the old order is a prefix, and no duplicate appears |
| DownloadClient.Delete | src/components/DownloadClient.tsx:87-88 | `Set.delete`: the members are the old ones minus the key, the rest keep their insertion order (a subsequence), and an absent key changes nothing |
| DownloadClient.IsWeekend | src/components/DownloadClient.tsx:53-56 | a day is a weekday iff `getDay()` is 1..5 |
| DownloadClient.AddAll | src/components/DownloadClient.tsx:71-78 | adding a list keeps the old members in front and adds exactly the listed keys |
| DownloadClient.TradingDays | src/components/DownloadClient.tsx:72-78 | the days the range loop visits and keeps are valid dates |
| DownloadClient.TradingDaysExactly | src/components/DownloadClient.tsx:72-78 | a day is kept iff from <= day <= to and it is not a weekend |
| DownloadClient.TradingDaysAscending | src/components/DownloadClient.tsx:72-78 | the loop visits the kept days in strictly increasing order |
| DownloadClient.TradingDaysSuffix | src/components/DownloadClient.tsx:73-77 | after any kept day, the loop goes on as a fresh loop from the next day |
| DownloadClient.TradingDaysAfter | src/components/DownloadClient.tsx:77 | every day kept from the next day on comes after the current day |
| DownloadClient.ReversedRangeIsEmpty | src/components/DownloadClient.tsx:73 | with from after to the loop adds nothing |
| DownloadClient.RangeKeyHasDay | src/components/DownloadClient.tsx:73-76 | every key the range adds is the string of a weekday in the range |
| DownloadClient.RangeDayHasKey | src/components/DownloadClient.tsx:73-76 | every weekday in the range contributes its key |
| DownloadClient.RangeAddsExactly | src/components/DownloadClient.tsx:69-80 | after the range, a key is selected iff it was before or it names a weekday in the range |
| DownloadClient.RangeAddsNoWeekend | src/components/DownloadClient.tsx:74-75 | the range adds no key that names a weekend day |
| DownloadClient.AddRangeStep | src/components/DownloadClient.tsx:74-77 | one loop pass preserves the loop invariant: what remains to add after the step equals what remained before |
| DownloadClient.AddIdempotent | src/components/DownloadClient.tsx:58-67 | adding the same day twice is the same as adding it once |
| DownloadClient.DeleteRemovesOne | src/components/DownloadClient.tsx:86-90 | removing a selected key shrinks the selection by exactly one |
| DownloadClient.MondayToSunday | src/components/DownloadClient.tsx:53-56 | over a Monday-to-Sunday week the range keeps Monday to Friday and drops Saturday (6) and Sunday (0) |
| DownloadClient.LexLeTotal | src/components/DownloadClient.tsx:155 | the string order of `sort()` is total |
| DownloadClient.LexLeTransitive | src/components/DownloadClient.tsx:155 | the string order of `sort()` is transitive |
| DownloadClient.LexLe | src/components/DownloadClient.tsx:155 | the string order of `sort()` contains prefix order |
| DownloadClient.LexLeAntisymmetric | src/components/DownloadClient.tsx:155 | two strings each at most the other are equal |
| DownloadClient.InsertSorted | src/components/DownloadClient.tsx:155 | one insertion step keeps the list sorted and adds exactly one copy of the key |
| DownloadClient.DisplayOrder | src/components/DownloadClient.tsx:155 | `Array.from(selectedDates).sort()` is sorted and a permutation of the selection |
| DownloadClient.DisplayOrderOfTwo | src/components/DownloadClient.tsx:155 | two keys out of string order are shown swapped |
| DownloadClient.DisplayOrderIsNotChronological | src/components/DownloadClient.tsx:155 | 2 January 2024 precedes 1 February 2024, yet its chip is shown after it |
| DownloadClient.Panel.constructor | src/components/DownloadClient.tsx:29-35 | an empty selection, no error, and the shared download provider |
| DownloadClient.Panel.HandleAddDate | src/components/DownloadClient.tsx:58-67 | a defined weekday is added and the error cleared; otherwise the selection is unchanged and the error is 'Cannot select weekends.' |
| DownloadClient.Panel.HandleAddRange | src/components/DownloadClient.tsx:69-84 | with both endpoints the loop adds exactly the keys of the range's weekdays and clears the error; with one missing the selection is unchanged and the error is 'Please select a valid date range.' |
| DownloadClient.Panel.HandleRemoveDate | src/components/DownloadClient.tsx:86-90 | the selection loses exactly the given key |
| DownloadClient.Panel.HandleDownload | src/components/DownloadClient.tsx:92-98 | a non-empty selection goes to `startDownload` in insertion order: every day ends successful, or every item is failed when the request fails, and then the selection is cleared; an empty selection changes nothing |
| DownloadContext.Queued | src/context/DownloadContext.tsx:45 | one item per date, in input order, pending with progress 0 |
| DownloadContext.SetStatus | src/context/DownloadContext.tsx:52 | items with the given date take the new status and progress; every other item is untouched |
| DownloadContext.MarkFailed | src/context/DownloadContext.tsx:62 | every item becomes `error` and keeps its date and progress |
| DownloadContext.ClearCompleted | src/context/DownloadContext.tsx:66-68 | the result is a subsequence holding exactly the pending and downloading items, each as often as before |
| DownloadContext.IsActive | src/context/DownloadContext.tsx:67 | the filter keeps an item iff it is pending or downloading |
| DownloadContext.IsDownloading | src/context/DownloadContext.tsx:71 | true iff some item is downloading |
| DownloadContext.Run | src/context/DownloadContext.tsx:50-54 | processing dates never changes the number of items |
| DownloadContext.Trace | src/context/DownloadContext.tsx:50-54 | the loop publishes two lists per date |
| DownloadContext.QueuedIsNotDownloading | src/context/DownloadContext.tsx:45 | while everything is pending, `isDownloading` is false and progress is fine |
| DownloadContext.DownloadingItemIsReported | src/context/DownloadContext.tsx:52 | once a present date is marked downloading, `isDownloading` is true |
| DownloadContext.ClearCompletedIdempotent | src/context/DownloadContext.tsx:66-68 | clearing twice is clearing once |
| DownloadContext.ClearCompletedOnActive | src/context/DownloadContext.tsx:66-68 | a list of pending and downloading items is left as it is |
| DownloadContext.RunOfQueued | src/context/DownloadContext.tsx:45-54 | part way through, the processed dates are successful and every item is pending or successful |
| DownloadContext.RunCompletesAll | src/context/DownloadContext.tsx:45-54 | after the loop every item is successful with progress 100, in input order, and nothing is downloading |
| DownloadContext.TraceSteps | src/context/DownloadContext.tsx:50-54 | the k-th date goes downloading at step 2k and successful at step 2k+1, in input order |
| DownloadContext.FailedRequest | src/context/DownloadContext.tsx:45-62 | when the request fails every item is `error` with progress 0 and nothing is downloading |
| DownloadContext.ProgressStaysOk | src/context/DownloadContext.tsx:45-67 | progress stays 0, 50 or 100 through every update and the filter |
| DownloadContext.Provider.constructor | src/context/DownloadContext.tsx:41 | the list starts empty |
| DownloadContext.Provider.StartDownload | src/context/DownloadContext.tsx:44-64 | the list is queued, then every date processed in order, or all failed when the request fails; the sequence of published lists is stated too |
| DownloadContext.Provider.ProcessDate | src/context/DownloadContext.tsx:51-54 | the date's items go downloading at 50 and then successful at 100 |
| DownloadContext.Provider.ClearCompletedDownloads | src/context/DownloadContext.tsx:66-68 | the list becomes its cleared form |
| BhavcopyViewer.Span | src/components/BhavcopyViewer.tsx:83-85 | the loop's pages are the consecutive integers from lo to hi, empty when hi < lo |
| BhavcopyViewer.WindowStart | src/components/BhavcopyViewer.tsx:81 | the first shown page is the larger of 1 and current - 2 |
| BhavcopyViewer.WindowEnd | src/components/BhavcopyViewer.tsx:82 | the last shown page is the smaller of total and start + 4 |
| BhavcopyViewer.Window | src/components/BhavcopyViewer.tsx:79-87 | the shown pages are exactly those from start to end, in ascending order by one |
| BhavcopyViewer.PrevPage | src/components/BhavcopyViewer.tsx:159 | Previous goes to the larger of 1 and page - 1 |
| BhavcopyViewer.NextPage | src/components/BhavcopyViewer.tsx:177 | Next goes to the smaller of total and page + 1 |
| BhavcopyViewer.VisiblePages | src/components/BhavcopyViewer.tsx:79-87 | the loop builds exactly the window from max(1, current - 2) to min(total, start + 4) |
| BhavcopyViewer.WindowBounds | src/components/BhavcopyViewer.tsx:81-85 | at most 5 pages, all within 1..total, ascending by one |
| BhavcopyViewer.WindowEmpty | src/components/BhavcopyViewer.tsx:81-85 | the window is empty iff total < start, in particular when total < 1 |
| BhavcopyViewer.WindowContainsCurrent | src/components/BhavcopyViewer.tsx:81-82 | a current page in 1..total is in the window |
| BhavcopyViewer.WindowCentred | src/components/BhavcopyViewer.tsx:81-82 | away from both ends the window is current-2..current+2 |
| BhavcopyViewer.WindowAtLastPage | src/components/BhavcopyViewer.tsx:81-82 | on the last page the window is cut short, not shifted left |
| BhavcopyViewer.WindowOfTenPages | src/components/BhavcopyViewer.tsx:81-82 | page 10 of 10 shows [8, 9, 10] |
| BhavcopyViewer.StepsStayInRange | src/components/BhavcopyViewer.tsx:159-177 | Previous and Next move at most one page, stay within 1..total, and stand still exactly at the first and last page |
| BhavcopyViewer.NextWithoutPages | src/components/BhavcopyViewer.tsx:177 | with zero pages Next moves page 1 to page 0 |
| BhavcopyViewer.RequestFor | src/components/BhavcopyViewer.tsx:52-56 | the search endpoint iff the term is non-empty; both pass the date filter, the page and the page size 15 |
| BhavcopyViewer.Viewer.constructor | src/components/BhavcopyViewer.tsx:27-33 | no data, loading, page 1 of 1, empty search, filter 'latest' |
| BhavcopyViewer.Viewer.HandleSearchChange | src/components/BhavcopyViewer.tsx:69-72 | the term is stored and the page reset to 1 |
| BhavcopyViewer.Viewer.HandleDateChange | src/components/BhavcopyViewer.tsx:74-77 | the filter is stored and the page reset to 1 |
| BhavcopyViewer.Viewer.Previous | src/components/BhavcopyViewer.tsx:159 | the page becomes max(1, page - 1) |
| BhavcopyViewer.Viewer.Next | src/components/BhavcopyViewer.tsx:177 | the page becomes min(total, page + 1) |
| BhavcopyViewer.Viewer.SelectPage | src/components/BhavcopyViewer.tsx:165-173 | clicking a shown page selects it, and it is within 1..total |
| BhavcopyViewer.Viewer.BeginFetch | src/components/BhavcopyViewer.tsx:48-56 | loading on, error cleared, and the call chosen from the current term, filter and page |
| BhavcopyViewer.Viewer.FinishFetch | src/components/BhavcopyViewer.tsx:57-63 | the data and page count on success, the error and the old data on failure; loading off |
| StocksComponent.OnSelect | src/components/StocksClient.tsx:127 | each picked day is stored formatted, in order and count; no selection stores [] |
| StocksComponent.CalendarSelection | src/components/StocksClient.tsx:126 | each stored string parses to a valid day, which formats back to the string when canonical |
| StocksComponent.SelectionRoundTrip | src/components/StocksClient.tsx:126-127 | the calendar shows back exactly the days that were picked, for 4-digit years |
| StocksComponent.PerformanceRequest | src/components/StocksClient.tsx:43-48 | a call iff a day is picked, for the top gainers and losers of that formatted day |
| StocksComponent.VolumeRequest | src/components/StocksClient.tsx:58-63 | a call iff exactly two days are stored, carrying both |
| StocksComponent.PickedPairIsSent | src/components/StocksClient.tsx:121-127 | two picked days are sent formatted, first pick first |
| StocksComponent.Panel.constructor | src/components/StocksClient.tsx:34-41 | today as the performance day, nothing else selected or loaded, no flags set |
| StocksComponent.Panel.SelectPerformanceDate | src/components/StocksClient.tsx:34 | the picked performance day is stored |
| StocksComponent.Panel.SelectVolumeDates | src/components/StocksClient.tsx:127 | the picked days are stored formatted |
| StocksComponent.Panel.BeginFetchPerformance | src/components/StocksClient.tsx:43-48 | no day: nothing changes; else loading on and error cleared before the call |
| StocksComponent.Panel.FinishFetchPerformance | src/components/StocksClient.tsx:48-54 | the data on success, the error and the old data on failure; loading off |
| StocksComponent.Panel.BeginFetchVolume | src/components/StocksClient.tsx:58-63 | not exactly two days: nothing changes and no error is set; else loading on and error cleared |
| StocksComponent.Panel.FinishFetchVolume | src/components/StocksClient.tsx:63-69 | the data on success, the error and the old data on failure; loading off |
| SectorsComponent.PerformanceRequest | src/components/SectorsClient.tsx:28-33 | a call iff a day is picked, for that formatted day |
| SectorsComponent.VolumeRequest | src/components/SectorsClient.tsx:43-48 | a volume-ratio call iff both ends of the range are picked |
| SectorsComponent.VolumeRequestIsSwapped | src/components/SectorsClient.tsx:48 | the range end travels as `startDate` and the range start as `endDate`, so the backend sees a reversed range |
| SectorsComponent.ChartData | src/components/SectorsClient.tsx:117 | the bars are `highest` followed by `lowest`, both in order |
| SectorsComponent.ChartDataHasEveryBar | src/components/SectorsClient.tsx:117 | a bar is in the chart iff it is in one of the two lists |
| SectorsComponent.Panel.constructor | src/components/SectorsClient.tsx:19-26 | today as the performance day, an empty range, nothing loaded, no flags set |
| SectorsComponent.Panel.SelectPerformanceDate | src/components/SectorsClient.tsx:19 | the picked day is stored |
| SectorsComponent.Panel.SelectVolumeRange | src/components/SectorsClient.tsx:20 | the picked range is stored |
| SectorsComponent.Panel.BeginFetchPerformance | src/components/SectorsClient.tsx:28-33 | no day: nothing changes; else loading on and error cleared before the call |
| SectorsComponent.Panel.FinishFetchPerformance | src/components/SectorsClient.tsx:33-39 | the data on success, the error and the old data on failure; loading off |
| SectorsComponent.Panel.BeginFetchVolume | src/components/SectorsClient.tsx:43-48 | a missing end: nothing changes and no error is set; else loading on and error cleared |
| SectorsComponent.Panel.FinishFetchVolume | src/components/SectorsClient.tsx:48-54 | the data on success, the error and the old data on failure; loading off |
| StocksPage.VolumeRequest | src/app/stocks/StocksClient.tsx:54-62 | a call iff at least two dates are picked, with one string per date |
| StocksPage.VolumeRequestKeepsDays | src/app/stocks/StocksClient.tsx:61 | the strings parse back to the picked dates in order, for 4-digit years |
| StocksPage.VolumeRequestIsInjective | src/app/stocks/StocksClient.tsx:61 | different picked dates, in any year, are sent as different strings |
| StocksPage.Page.constructor | src/app/stocks/StocksClient.tsx:26-34 | today, nothing loaded, performance loading, volume not loading, no errors |
| StocksPage.Page.SetDate | src/app/stocks/StocksClient.tsx:26 | the picked day is stored |
| StocksPage.Page.SetDates | src/app/stocks/StocksClient.tsx:31 | the picked days are stored |
| StocksPage.Page.BeginPerformanceFetch | src/app/stocks/StocksClient.tsx:38-42 | loading on, error cleared, a call for the formatted day |
| StocksPage.Page.FinishPerformanceFetch | src/app/stocks/StocksClient.tsx:42-48 | the data on success, the error and the old data on failure; loading off |
| StocksPage.Page.BeginVolumeFetch | src/app/stocks/StocksClient.tsx:53-62 | with fewer than two dates the error is 'Please select at least two dates.' and loading is unchanged; else error cleared and loading on |
| StocksPage.Page.FinishVolumeFetch | src/app/stocks/StocksClient.tsx:62-68 | the data on success, the error and the old data on failure; loading off |
| SectorsPage.VolumeRequest | src/app/sectors/SectorsClient.tsx:60-62 | the formatted start goes as `startDate` and the formatted end as `endDate` |
| SectorsPage.VolumeRequestKeepsOrder | src/app/sectors/SectorsClient.tsx:60-62 | the backend reads back the start and end days as picked, for 4-digit years |
| SectorsPage.MaxRatio | src/app/sectors/SectorsClient.tsx:95 | at least 0, at least every ratio, and either 0 or one of the ratios |
| SectorsPage.MaxRatioOfNonPositive | src/app/sectors/SectorsClient.tsx:95 | with no positive ratio, in particular with none at all, the scale is 0 |
| SectorsPage.Page.constructor | src/app/sectors/SectorsClient.tsx:27-36 | today for all three days, nothing loaded, both loading, no errors |
| SectorsPage.Page.SetDate | src/app/sectors/SectorsClient.tsx:27 | the picked day is stored |
| SectorsPage.Page.SetStartDate | src/app/sectors/SectorsClient.tsx:32 | the picked start is stored |
| SectorsPage.Page.SetEndDate | src/app/sectors/SectorsClient.tsx:33 | the picked end is stored |
| SectorsPage.Page.BeginPerformanceFetch | src/app/sectors/SectorsClient.tsx:40-44 | loading on, error cleared, a call for the formatted day |
| SectorsPage.Page.FinishPerformanceFetch | src/app/sectors/SectorsClient.tsx:44-50 | the data on success, the error and the old data on failure; loading off |
| SectorsPage.Page.BeginVolumeFetch | src/app/sectors/SectorsClient.tsx:57-62 | loading on, error cleared, the start-then-end call |
| SectorsPage.Page.FinishVolumeFetch | src/app/sectors/SectorsClient.tsx:62-68 | the data on success, the error and the old data on failure; loading off |
| HomePage.Attempt | src/app/page.tsx:17-22 | an attempt succeeds iff both backends answer, and then returns both answers |
| HomePage.AttemptCalls | src/app/page.tsx:18-21 | an attempt issues the top gainers and losers call, then the sector performance call, both for the same date |
| HomePage.GetLatestData | src/app/page.tsx:13-41 | both calls for today first; a second pair, for the day before the clock's reading, iff the first attempt fails; the result is the first successful attempt or two nulls |
| HomePage.AttemptUsesOneDate | src/app/page.tsx:18-21 | both calls of an attempt name the same day |
| HomePage.RetryIsPreviousDay | src/app/page.tsx:26-28 | the retry string is a wire date naming the previous calendar day, different from today's |
| HomePage.RetryOnNewYear | src/app/page.tsx:26-27 | the retry from 1 January is 31 December of the year before |

## Left out

- The HTTP layer of `src/lib/api.ts`. The model keeps only each endpoint's name and arguments (`MarketData.Call`). A response is data or a failure.
- `getBhavcopy` and `searchBhavcopy` are imported by the bhavcopy viewer, but `src/lib/api.ts` does not export them. They are modelled as calls with the arguments the viewer passes.
- `fetchLastDate` (src/components/DownloadClient.tsx:37-51) only shows the backend's last download date. It is not part of this model.
- The placeholder filter dates (src/components/BhavcopyViewer.tsx:41) drive only the dropdown. The filter is modelled as an input.
- `setTimeout` delays, toasts and `console.error` in src/context/DownloadContext.tsx:51-58. The steps run one after another. What each step publishes is kept as a ghost trace.
- DownloadContext.Provider.StartDownload: a failure is modelled only at the `downloadNseReports` call. The loop body awaits only the two timers. The `toast` call it makes is not awaited, and neither it nor `parseApiDate` throws, so the model does not let the loop fail.
- Rendering, disabled buttons and layout. The disabled Previous and Next buttons are not modelled, so the handlers are total.
- Floating point. Ratios are `real`. `toFixed(2)`, bar widths (src/app/sectors/SectorsClient.tsx:103) and the division by a zero `maxRatio` are left out.
- Time zones, time of day, daylight saving time, `toISOString`, `toDateString` and `toLocaleDateString`. Dates are whole days, so the range loop's `<=` is a comparison of days.
- An ordinal display format such as "24th Oct, 2025" is not part of this model. The core views render with `toDateString`.
- ApiDate.ParseApiDate: its precondition `IsWireDate` admits only strings of 8 digits. The code also accepts other strings. `parseInt` skips leading whitespace and reads an optional sign, and then as many digits as follow. So a 3-digit year is read as it is ("0101999" and "0101 999" are 1 January 999, and so is "0101+999"). A longer year is cut to its first four digits ("010110000" is 1 January 1000). A negative year formatted with its '-' parses back ("0101-5" is 1 January -5). Only a field with no digit after the optional whitespace and sign gives a `NaN` date. None of these inputs is modelled, and the round trips are stated for 4-digit years only.
- `file.lastModified` as a date source (src/app/stocks/StocksClient.tsx:165). The picked dates are inputs.
- Holidays. Only the weekend rule exists.
- Clock reads, `new Date()`, become parameters. The home page takes two, one per read.
- SectorsPage.Page.constructor: one `today` parameter stands for the three `new Date()` calls at src/app/sectors/SectorsClient.tsx:27, 32 and 33. Calls that straddle midnight could differ by a day; the model does not capture that.
- DownloadClient.Panel.HandleDownload: user events during the awaits of `startDownload` are not interleaved. That leaves out a second Download click while every item is pending, when the button is enabled and the selection not yet cleared. It also leaves out Clear Completed in the middle of a run.
- HomePage.GetLatestData: the backends are pure functions of the date. When the second clock read falls a day after the first, the retry names the first attempt's date and gets the same answer. Backends whose answer changes between calls are not modelled.
- The effects' re-run triggers and React batching. Each `useEffect` body is a `Begin…`/`Finish…` pair called by the environment.
- DownloadContext.RunOfQueued: with duplicate dates it asserts only that each item is pending or successful. It does not follow duplicates' individual steps. The selection set never passes duplicates.
