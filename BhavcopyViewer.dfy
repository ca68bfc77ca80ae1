/**
 * The paginated bhavcopy table: the current page, the five-button window of
 * page numbers around it, Previous/Next clamping, the reset to page 1 when the
 * search term or the date filter changes, and the choice between the list and
 * the search endpoint.
 */
module BhavcopyViewer {
  import opened Options
  import opened MarketData

  const PageSize := 15
  const FetchError := "Failed to fetch bhavcopy data."

  /** The first page of the window: two before the current page, but not before page 1. */
  function WindowStart(current: int): (start: int)
    ensures start >= 1 && start >= current - 2
    ensures start == 1 || start == current - 2
  {
    if current - 2 > 1 then current - 2 else 1
  }

  /** The last page of the window: four after its start, but not past the last page. */
  function WindowEnd(current: int, total: int): (end: int)
    ensures end <= total && end <= WindowStart(current) + 4
    ensures end == total || end == WindowStart(current) + 4
  {
    var start := WindowStart(current);
    if total < start + 4 then total else start + 4
  }

  /** The consecutive integers `lo`, `lo + 1`, ..., `hi` (empty when `hi < lo`). */
  function Span(lo: int, hi: int): (r: seq<int>)
    ensures |r| == if hi < lo then 0 else hi - lo + 1
    ensures forall i :: 0 <= i < |r| ==> r[i] == lo + i
    ensures forall p :: p in r <==> lo <= p <= hi
    decreases if hi < lo then 0 else hi - lo + 1
  {
    if hi < lo then [] else [lo] + Span(lo + 1, hi)
  }

  /** The page numbers shown between Previous and Next. */
  function Window(current: int, total: int): (pages: seq<int>)
    ensures forall p :: p in pages <==> WindowStart(current) <= p <= WindowEnd(current, total)
    ensures forall i :: 0 <= i < |pages| ==> pages[i] == WindowStart(current) + i
  {
    Span(WindowStart(current), WindowEnd(current, total))
  }

  /** `visiblePages`: a loop pushing every page from the window's start to its end. */
  method VisiblePages(currentPage: int, totalPages: int) returns (pages: seq<int>)
    ensures pages == Window(currentPage, totalPages)
  {
    var start := if currentPage - 2 > 1 then currentPage - 2 else 1;
    var end := if totalPages < start + 4 then totalPages else start + 4;
    pages := [];
    var i := start;
    while i <= end
      invariant start <= i && (i <= end + 1 || i == start)
      invariant |pages| == i - start
      invariant forall k :: 0 <= k < |pages| ==> pages[k] == start + k
    {
      pages := pages + [i];
      i := i + 1;
    }
  }

  /** The Previous button: one page back, but not before page 1. */
  function PrevPage(p: int): (q: int)
    ensures q >= 1 && q >= p - 1
    ensures q == 1 || q == p - 1
  {
    if p - 1 > 1 then p - 1 else 1
  }

  /** The Next button: one page on, but not past the last page. */
  function NextPage(p: int, total: int): (q: int)
    ensures q <= total && q <= p + 1
    ensures q == total || q == p + 1
  {
    if total < p + 1 then total else p + 1
  }

  /** Which endpoint a fetch calls: the search endpoint exactly when a search term is set. */
  function RequestFor(searchTerm: string, filterDate: string, page: int): (c: Call)
    ensures c.SearchBhavcopy? <==> searchTerm != ""
    ensures c.GetBhavcopy? <==> searchTerm == ""
    ensures c.date == filterDate && c.page == page && c.limit == PageSize
    ensures c.SearchBhavcopy? ==> c.symbol == searchTerm
  {
    if searchTerm != "" then SearchBhavcopy(searchTerm, filterDate, page, PageSize)
    else GetBhavcopy(filterDate, page, PageSize)
  }

  // ---------------------------------------------------------------------------
  // The window of page numbers

  /** At most five pages, ascending by one, all between 1 and the number of pages. */
  lemma WindowBounds(current: int, total: int)
    ensures |Window(current, total)| <= 5
    ensures forall i :: 0 <= i < |Window(current, total)| ==> 1 <= Window(current, total)[i] <= total
    ensures forall i :: 0 < i < |Window(current, total)| ==>
              Window(current, total)[i] == Window(current, total)[i - 1] + 1
  {
  }

  /** The window is empty exactly when there are fewer pages than its start; with no pages it is empty. */
  lemma WindowEmpty(current: int, total: int)
    ensures Window(current, total) == [] <==> total < WindowStart(current)
    ensures total < 1 ==> Window(current, total) == []
  {
  }

  /** A current page that exists is among the buttons. */
  lemma WindowContainsCurrent(current: int, total: int)
    requires 1 <= current <= total
    ensures current in Window(current, total)
  {
    var w := Window(current, total);
    assert w[current - WindowStart(current)] == current;
  }

  /** Away from both ends the window is the current page and two pages on each side. */
  lemma WindowCentred(current: int, total: int)
    requires 3 <= current && current + 2 <= total
    ensures Window(current, total) == [current - 2, current - 1, current, current + 1, current + 2]
  {
  }

  /** On the last page the window is cut short rather than shifted left: the last three pages. */
  lemma WindowAtLastPage(total: int)
    requires total >= 3
    ensures Window(total, total) == [total - 2, total - 1, total]
  {
  }

  /** With ten pages, on page ten, the buttons are 8, 9 and 10. */
  lemma WindowOfTenPages()
    ensures Window(10, 10) == [8, 9, 10]
  {
    WindowAtLastPage(10);
  }

  // ---------------------------------------------------------------------------
  // Previous and Next

  /** Previous and Next keep an existing page in range and move by at most one. */
  lemma StepsStayInRange(p: int, total: int)
    requires 1 <= p <= total
    ensures 1 <= PrevPage(p) <= p && p - PrevPage(p) <= 1
    ensures p <= NextPage(p, total) <= total && NextPage(p, total) - p <= 1
    ensures PrevPage(p) == p <==> p == 1
    ensures NextPage(p, total) == p <==> p == total
  {
  }

  /** With no pages reported, Next (which is not disabled, as 1 differs from 0) moves to page 0. */
  lemma NextWithoutPages()
    ensures NextPage(1, 0) == 0
  {
  }

  class Viewer {
    var data: seq<BhavcopyRow>
    var loading: bool
    var error: Option<string>
    var currentPage: int
    var totalPages: int
    var searchTerm: string
    var filterDate: string

    /** The initial state: loading page 1 of one, no search, the latest report. */
    constructor ()
      ensures data == [] && loading && error == None
      ensures currentPage == 1 && totalPages == 1
      ensures searchTerm == "" && filterDate == "latest"
    {
      data := [];
      loading := true;
      error := None;
      currentPage := 1;
      totalPages := 1;
      searchTerm := "";
      filterDate := "latest";
    }

    /** `handleSearchChange`: a new search term starts again from page 1. */
    method HandleSearchChange(value: string)
      modifies this`searchTerm, this`currentPage
      ensures searchTerm == value && currentPage == 1
    {
      searchTerm := value;
      currentPage := 1;
    }

    /** `handleDateChange`: a new date filter starts again from page 1. */
    method HandleDateChange(value: string)
      modifies this`filterDate, this`currentPage
      ensures filterDate == value && currentPage == 1
    {
      filterDate := value;
      currentPage := 1;
    }

    /** The Previous button. */
    method Previous()
      modifies this`currentPage
      ensures currentPage == PrevPage(old(currentPage))
    {
      currentPage := if currentPage - 1 > 1 then currentPage - 1 else 1;
    }

    /** The Next button. */
    method Next()
      modifies this`currentPage
      ensures currentPage == NextPage(old(currentPage), totalPages)
    {
      currentPage := if totalPages < currentPage + 1 then totalPages else currentPage + 1;
    }

    /** A page-number button: only the pages of the window have one. */
    method SelectPage(page: int)
      requires page in Window(currentPage, totalPages)
      modifies this`currentPage
      ensures currentPage == page && 1 <= page <= totalPages
    {
      WindowBounds(currentPage, totalPages);
      currentPage := page;
    }

    /** The start of `fetchData`: loading on, error cleared, and the call to issue. */
    method BeginFetch() returns (call: Call)
      modifies this`loading, this`error
      ensures loading && error == None
      ensures call == RequestFor(searchTerm, filterDate, currentPage)
    {
      loading := true;
      error := None;
      if searchTerm != "" {
        call := SearchBhavcopy(searchTerm, filterDate, currentPage, PageSize);
      } else {
        call := GetBhavcopy(filterDate, currentPage, PageSize);
      }
    }

    /**
     * The end of `fetchData`: a page replaces the rows and the page count; a
     * failure sets the error and keeps both. Loading ends either way.
     */
    method FinishFetch(response: Option<BhavcopyPage>)
      modifies this`data, this`totalPages, this`error, this`loading
      ensures !loading
      ensures response.Some? ==> data == response.value.data && totalPages == response.value.totalPages
                                 && error == old(error)
      ensures response.None? ==> data == old(data) && totalPages == old(totalPages)
                                 && error == Some(FetchError)
    {
      match response {
        case Some(page) =>
          data := page.data;
          totalPages := page.totalPages;
        case None =>
          error := Some(FetchError);
      }
      loading := false;
    }
  }
}
