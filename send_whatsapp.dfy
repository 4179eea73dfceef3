/**
 * The WhatsApp sending page (src/Components/SendWhatsappMessage.jsx): the
 * batch and date chosen live in the URL, the handlers navigate to new URLs,
 * and the page keeps the name/roll-number filter and the current page of the
 * report list.
 */
module SendWhatsappMessage {
  import opened Wrappers
  import opened JsString
  import opened ReportList
  import opened ViewerLayout

  const PageRoot: string := "/send-whatsapp-message"

  /** `${v}` for a route parameter: its text, or "undefined" when the route has none. */
  function ParamText(v: Option<string>): string {
    match v
    case Some(s) => s
    case None => "undefined"
  }

  /** handleBatchSelect's destination. */
  function BatchUrl(batch: string): string {
    PageRoot + "/" + batch
  }

  /** handleDateSelect's destination, under the batch of the current route. */
  function DateUrl(batchId: Option<string>, selectedDate: string): string {
    PageRoot + "/" + ParamText(batchId) + "/" + selectedDate
  }

  /** handleBack's destination: up from a date to its batch, up from a batch to the root, else nowhere. */
  function BackTarget(batchId: Option<string>, date: Option<string>): (r: Option<string>)
    ensures r.Some? <==> Truthy(batchId) || Truthy(date)
    ensures Truthy(date) ==> r == Some(PageRoot + "/" + ParamText(batchId))
    ensures !Truthy(date) && Truthy(batchId) ==> r == Some(PageRoot)
  {
    if Truthy(date) then Some(PageRoot + "/" + ParamText(batchId))
    else if Truthy(batchId) then Some(PageRoot)
    else None
  }

  // ---------------------------------------------------------------------------
  // Route parameters
  // ---------------------------------------------------------------------------

  /** A URL path segment: non-empty and without "/". */
  predicate IsSegment(s: string) {
    s != "" && forall i | 0 <= i < |s| :: s[i] != '/'
  }

  /** The route parameters of the page (batchId, date) a path names, for the pattern /send-whatsapp-message/:batchId/:date with both parameters optional. */
  function RouteParams(url: string): Option<(Option<string>, Option<string>)> {
    if |url| < |PageRoot| || url[..|PageRoot|] != PageRoot then None
    else
      var rest := url[|PageRoot|..];
      if rest == "" then Some((None, None))
      else if rest[0] != '/' then None
      else
        var parts := Split(rest[1..], "/");
        if |parts| == 1 && parts[0] != "" then Some((Some(parts[0]), None))
        else if |parts| == 2 && parts[0] != "" && parts[1] != "" then Some((Some(parts[0]), Some(parts[1])))
        else None
  }

  lemma RootParams()
    ensures RouteParams(PageRoot) == Some((None, None))
  {
  }

  /** After choosing a batch, the route names that batch and no date. */
  lemma BatchUrlParams(batch: string)
    requires IsSegment(batch)
    ensures RouteParams(BatchUrl(batch)) == Some((Some(batch), None))
  {
    var url := BatchUrl(batch);
    assert url[..|PageRoot|] == PageRoot;
    assert url[|PageRoot|..] == "/" + batch;
    assert ("/" + batch)[1..] == batch;
    SplitNoSeparator(batch, '/');
  }

  /** After choosing a date, the route names the batch and the date. */
  lemma DateUrlParams(batch: string, selectedDate: string)
    requires IsSegment(batch) && IsSegment(selectedDate)
    ensures RouteParams(DateUrl(Some(batch), selectedDate)) == Some((Some(batch), Some(selectedDate)))
  {
    var url := DateUrl(Some(batch), selectedDate);
    assert url[..|PageRoot|] == PageRoot;
    assert url[|PageRoot|..] == "/" + batch + "/" + selectedDate;
    assert ("/" + batch + "/" + selectedDate)[1..] == batch + ['/'] + selectedDate;
    SplitNoSeparator(selectedDate, '/');
    SplitFirstPart(batch, '/', selectedDate);
  }

  /** Choosing a date and then going back leads to the same URL as choosing its batch. */
  lemma BackAfterDateIsBatch(batch: string, selectedDate: string)
    requires IsSegment(batch) && IsSegment(selectedDate)
    ensures RouteParams(DateUrl(Some(batch), selectedDate)).Some?
    ensures var ps := RouteParams(DateUrl(Some(batch), selectedDate)).value;
      BackTarget(ps.0, ps.1) == Some(BatchUrl(batch))
  {
    DateUrlParams(batch, selectedDate);
  }

  /** Choosing a batch and then going back leads to the page root, where going back does nothing. */
  lemma BackAfterBatchIsRoot(batch: string)
    requires IsSegment(batch)
    ensures RouteParams(BatchUrl(batch)).Some? && RouteParams(PageRoot).Some?
    ensures var ps := RouteParams(BatchUrl(batch)).value;
      BackTarget(ps.0, ps.1) == Some(PageRoot)
    ensures var root := RouteParams(PageRoot).value;
      BackTarget(root.0, root.1) == None
  {
    BatchUrlParams(batch);
    RootParams();
  }

  // ---------------------------------------------------------------------------
  // What is shown and fetched
  // ---------------------------------------------------------------------------

  /** The back button is shown exactly when pressing it navigates somewhere. */
  lemma BackButtonMoves(batchId: Option<string>, date: Option<string>)
    ensures BackButton in Shown(batchId, date) <==> BackTarget(batchId, date).Some?
  {
    OneListShown(batchId, date);
  }

  datatype Filter = Filter(name: string, rollNo: string)

  /** The query fetchReports sends. */
  datatype ReportsQuery = ReportsQuery(batch: string, date: string, page: int, name: string, rollNo: string)

  /** fetchReports: a query only when both the batch and the date are in the route. */
  function FetchReportsRequest(batchId: Option<string>, date: Option<string>, page: int, filter: Filter): (r: Option<ReportsQuery>)
    ensures r.Some? <==> Truthy(batchId) && Truthy(date)
    ensures r.Some? ==> r.value == ReportsQuery(batchId.value, date.value, page, filter.name, filter.rollNo)
  {
    if !Truthy(batchId) || !Truthy(date) then None
    else Some(ReportsQuery(batchId.value, date.value, page, filter.name, filter.rollNo))
  }

  /** The dates request: only when the route names a batch. */
  function FetchDatesRequest(batchId: Option<string>): (r: Option<string>)
    ensures r.Some? <==> Truthy(batchId)
    ensures r.Some? ==> r.value == "/batches/" + batchId.value + "/dates"
  {
    if !Truthy(batchId) then None else Some("/batches/" + batchId.value + "/dates")
  }

  /** What the report list hands to `setFilter`: a new filter, or an edit of one field of the previous filter. */
  datatype FilterArg = NewFilter(filter: Filter) | EditName(name: string) | EditRollNo(rollNo: string)

  function ApplyFilterArg(prev: Filter, arg: FilterArg): Filter {
    match arg
    case NewFilter(f) => f
    case EditName(n) => prev.(name := n)
    case EditRollNo(r) => prev.(rollNo := r)
  }

  /** What the report list hands to `setPage`: a page number, or the Previous/Next updater built with its totalPages. */
  datatype PageArg = PageNumber(page: int) | PageUpdater(click: Click, totalPages: int)

  function ApplyPageArg(prev: int, arg: PageArg): int {
    match arg
    case PageNumber(p) => p
    case PageUpdater(c, t) => AfterClick(prev, t, c)
  }

  class Page {
    const batchId: Option<string>
    const date: Option<string>
    var batches: seq<string>
    var dates: seq<string>
    var reports: seq<Report>
    var totalPages: int
    var filter: Filter
    var currentPage: int
    var searchParams: Option<PageArg>

    /** The page as first rendered for a route. */
    constructor (routeBatchId: Option<string>, routeDate: Option<string>)
      ensures batchId == routeBatchId && date == routeDate
      ensures batches == [] && dates == [] && reports == [] && totalPages == 1
      ensures filter == Filter("", "") && currentPage == 1 && searchParams == None
    {
      batchId, date := routeBatchId, routeDate;
      batches, dates, reports := [], [], [];
      totalPages := 1;
      filter := Filter("", "");
      currentPage := 1;
      searchParams := None;
    }

    /** handleFilterChange: the filter takes the new value and the list goes back to page 1. */
    method HandleFilterChange(arg: FilterArg)
      modifies this
      ensures filter == ApplyFilterArg(old(filter), arg)
      ensures currentPage == 1 && searchParams == Some(PageNumber(1))
      ensures batches == old(batches) && dates == old(dates) && reports == old(reports) && totalPages == old(totalPages)
    {
      filter := ApplyFilterArg(filter, arg);
      currentPage := 1;
      searchParams := Some(PageNumber(1));
    }

    /** handlePageChange: the current page takes the new value (an updater is applied to the previous page). */
    method HandlePageChange(arg: PageArg)
      modifies this
      ensures currentPage == ApplyPageArg(old(currentPage), arg)
      ensures searchParams == Some(arg)
      ensures filter == old(filter) && batches == old(batches) && dates == old(dates)
      ensures reports == old(reports) && totalPages == old(totalPages)
    {
      currentPage := ApplyPageArg(currentPage, arg);
      searchParams := Some(arg);
    }

    /** The reports response: the list and the page count. */
    method OnReportsLoaded(loaded: seq<Report>, pages: int)
      modifies this
      ensures reports == loaded && totalPages == pages
      ensures filter == old(filter) && currentPage == old(currentPage) && searchParams == old(searchParams)
      ensures batches == old(batches) && dates == old(dates)
    {
      reports := loaded;
      totalPages := pages;
    }

    /** The batches and dates responses. */
    method OnBatchesLoaded(loaded: seq<string>)
      modifies this
      ensures batches == loaded
      ensures dates == old(dates) && reports == old(reports) && totalPages == old(totalPages)
      ensures filter == old(filter) && currentPage == old(currentPage) && searchParams == old(searchParams)
    {
      batches := loaded;
    }

    method OnDatesLoaded(loaded: seq<string>)
      modifies this
      ensures dates == loaded
      ensures batches == old(batches) && reports == old(reports) && totalPages == old(totalPages)
      ensures filter == old(filter) && currentPage == old(currentPage) && searchParams == old(searchParams)
    {
      dates := loaded;
    }

    /** The request the reports effect makes for the current state. */
    function ReportsRequest(): Option<ReportsQuery>
      reads this
    {
      FetchReportsRequest(batchId, date, currentPage, filter)
    }
  }
}
