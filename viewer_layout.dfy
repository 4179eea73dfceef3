/**
 * The layout shared by the two report browsers (src/Components/AdminReportViewer.jsx
 * and src/Components/SendWhatsappMessage.jsx): a back button while a batch or
 * a date is chosen, then the batch list, the date list or the report list.
 */
module ViewerLayout {
  import opened Wrappers
  import opened JsString

  datatype Element = BackButton | BatchListView | DateListView | ReportListView

  /** The conditional elements, in render order. */
  function Shown(batchId: Option<string>, date: Option<string>): seq<Element> {
    (if Truthy(batchId) || Truthy(date) then [BackButton] else [])
    + (if !Truthy(batchId) then [BatchListView] else [])
    + (if Truthy(batchId) && !Truthy(date) then [DateListView] else [])
    + (if Truthy(batchId) && Truthy(date) then [ReportListView] else [])
  }

  /** The list the page shows: exactly one of the three. */
  function ListOf(batchId: Option<string>, date: Option<string>): Element {
    if !Truthy(batchId) then BatchListView else if !Truthy(date) then DateListView else ReportListView
  }

  /** Exactly one list is shown: batches without a batch, dates with a batch but no date, reports with both; the back button whenever either is set. */
  lemma OneListShown(batchId: Option<string>, date: Option<string>)
    ensures Shown(batchId, date) ==
      (if Truthy(batchId) || Truthy(date) then [BackButton] else []) + [ListOf(batchId, date)]
  {
  }
}
