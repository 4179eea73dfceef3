/**
 * The admin report browser (src/Components/AdminReportViewer.jsx): the chosen
 * batch and date are component state, a batch choice clears the date and the
 * reports, the back button undoes the most recent choice, and responses of the
 * batches, dates and reports requests fill the lists.
 */
module AdminReportViewer {
  import opened Wrappers
  import opened JsString
  import opened ReportList
  import opened ViewerLayout

  /** The URL of the dates request for a batch. */
  function DatesUrl(batch: string): string {
    "/batches/" + batch + "/dates"
  }

  /** `${v}` for a state value that may be null. */
  function NullableText(v: Option<string>): string {
    match v
    case Some(s) => s
    case None => "null"
  }

  /** The URL of the reports request for the chosen batch and a date. */
  function ReportsUrl(selectedBatch: Option<string>, date: string): string {
    "/batches/reports?batch=" + NullableText(selectedBatch) + "&date=" + date
  }

  class Viewer {
    var batches: seq<string>
    var selectedBatch: Option<string>
    var dates: seq<string>
    var selectedDate: Option<string>
    var reports: seq<Report>

    /** A date is only ever chosen under a chosen batch. */
    ghost predicate Valid()
      reads this
    {
      Truthy(selectedDate) ==> Truthy(selectedBatch)
    }

    /** What the component renders for its state. */
    function View(): seq<Element>
      reads this
    {
      Shown(selectedBatch, selectedDate)
    }

    constructor ()
      ensures Valid()
      ensures batches == [] && selectedBatch == None && dates == [] && selectedDate == None && reports == []
      ensures View() == [BatchListView]
    {
      batches, dates, reports := [], [], [];
      selectedBatch, selectedDate := None, None;
    }

    /** handleBatchSelect: choose a batch, forget the date and the reports, and request the batch's dates. */
    method HandleBatchSelect(batch: string) returns (request: string)
      requires Valid()
      modifies this
      ensures Valid()
      ensures selectedBatch == Some(batch) && selectedDate == None && reports == []
      ensures batches == old(batches) && dates == old(dates)
      ensures request == DatesUrl(batch)
      ensures batch != "" ==> View() == [BackButton, DateListView]
    {
      selectedBatch := Some(batch);
      selectedDate := None;
      reports := [];
      request := DatesUrl(batch);
    }

    /**
     * handleDateSelect: choose a date and request its reports. The date list,
     * the only place it is called from, is rendered only while a batch is
     * chosen.
     */
    method HandleDateSelect(date: string) returns (request: string)
      requires Valid() && Truthy(selectedBatch)
      modifies this
      ensures Valid()
      ensures selectedDate == Some(date)
      ensures selectedBatch == old(selectedBatch) && batches == old(batches)
      ensures dates == old(dates) && reports == old(reports)
      ensures request == ReportsUrl(selectedBatch, date)
      ensures date != "" ==> View() == [BackButton, ReportListView]
    {
      selectedDate := Some(date);
      request := ReportsUrl(selectedBatch, date);
    }

    /** handleBack: leave the date if one is chosen, else leave the batch, else do nothing. */
    method HandleBack()
      requires Valid()
      modifies this
      ensures Valid()
      ensures Truthy(old(selectedDate)) ==>
        selectedDate == None && reports == [] && selectedBatch == old(selectedBatch) && dates == old(dates)
      ensures !Truthy(old(selectedDate)) && Truthy(old(selectedBatch)) ==>
        selectedBatch == None && dates == [] && selectedDate == old(selectedDate) && reports == old(reports)
      ensures !Truthy(old(selectedDate)) && !Truthy(old(selectedBatch)) ==>
        selectedBatch == old(selectedBatch) && selectedDate == old(selectedDate) && dates == old(dates) && reports == old(reports)
      ensures batches == old(batches)
    {
      if Truthy(selectedDate) {
        selectedDate := None;
        reports := [];
      } else if Truthy(selectedBatch) {
        selectedBatch := None;
        dates := [];
      }
    }

    /** The batches response. */
    method OnBatchesLoaded(loaded: seq<string>)
      modifies this
      ensures batches == loaded
      ensures selectedBatch == old(selectedBatch) && selectedDate == old(selectedDate)
      ensures dates == old(dates) && reports == old(reports)
    {
      batches := loaded;
    }

    /** The dates response. */
    method OnDatesLoaded(loaded: seq<string>)
      modifies this
      ensures dates == loaded
      ensures batches == old(batches) && selectedBatch == old(selectedBatch)
      ensures selectedDate == old(selectedDate) && reports == old(reports)
    {
      dates := loaded;
    }

    /** The reports response. */
    method OnReportsLoaded(loaded: seq<Report>)
      modifies this
      ensures reports == loaded
      ensures batches == old(batches) && selectedBatch == old(selectedBatch)
      ensures selectedDate == old(selectedDate) && dates == old(dates)
    {
      reports := loaded;
    }
  }

  /** Choosing a batch, then a date, then going back twice returns to the batch list with the date and reports cleared. */
  method BackTwice(viewer: Viewer, batch: string, date: string)
    requires viewer.Valid()
    requires batch != "" && date != ""
    modifies viewer
    ensures viewer.Valid()
    ensures viewer.selectedBatch == None && viewer.selectedDate == None
    ensures viewer.reports == [] && viewer.dates == []
    ensures viewer.View() == [BatchListView]
  {
    var r1 := viewer.HandleBatchSelect(batch);
    var r2 := viewer.HandleDateSelect(date);
    viewer.HandleBack();
    assert viewer.View() == [BackButton, DateListView];
    viewer.HandleBack();
  }
}
