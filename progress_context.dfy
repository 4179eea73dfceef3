/**
 * The application-wide progress store (src/context/ProgressContext.jsx): the
 * progress record of a long upload, the log of its steps, whether the log
 * panel is expanded, and the final summary of the run.
 */
module ProgressContext {
  import opened Wrappers
  import opened JsString

  /** The progress record. */
  datatype Progress = Progress(show: bool, percentage: int, current: int, total: int, message: string, status: string)

  /** The record a fresh or cleared store holds. */
  const InitialProgress: Progress := Progress(false, 0, 0, 0, "", "idle")

  /** The argument of `updateProgress`: every field may be left undefined. */
  datatype ProgressUpdate = ProgressUpdate(
    show: Option<bool>, percentage: Option<int>, current: Option<int>,
    total: Option<int>, message: Option<string>, status: Option<string>)

  /** A supplied value, or the fallback when it is undefined. */
  function Pick<T>(supplied: Option<T>, fallback: T): T {
    if supplied.Some? then supplied.value else fallback
  }

  /** The record `updateProgress` computes from the previous one; an update that leaves `show` undefined shows the bar. */
  function MergeProgress(prev: Progress, data: ProgressUpdate): Progress {
    Progress(
      Pick(data.show, true),
      Pick(data.percentage, prev.percentage),
      Pick(data.current, prev.current),
      Pick(data.total, prev.total),
      Pick(data.message, prev.message),
      Pick(data.status, prev.status))
  }

  /** The single update that does what `first` and then `second` do: the later defined value wins. */
  function ThenUpdate(first: ProgressUpdate, second: ProgressUpdate): ProgressUpdate {
    ProgressUpdate(
      Some(Pick(second.show, true)),
      if second.percentage.Some? then second.percentage else first.percentage,
      if second.current.Some? then second.current else first.current,
      if second.total.Some? then second.total else first.total,
      if second.message.Some? then second.message else first.message,
      if second.status.Some? then second.status else first.status)
  }

  /** One entry of the progress log: its own properties, and the timestamp it may carry. */
  datatype Log = Log(fields: map<string, string>, timestamp: Option<string>)

  /** The entry as stored: a truthy timestamp it carries is kept, otherwise it is stamped with the current time. */
  function Stamp(entry: Log, now: string): Log {
    entry.(timestamp := Some(if Truthy(entry.timestamp) then entry.timestamp.value else now))
  }

  /** The argument of `addLog`: an entry to append, or a function of the whole log list. */
  datatype LogArg = Entry(entry: Log) | Transform(f: seq<Log> -> seq<Log>)

  /** The log list after `addLog`, given the current time. */
  function AddedLogs(prev: seq<Log>, arg: LogArg, now: string): seq<Log> {
    match arg
    case Entry(entry) => prev + [Stamp(entry, now)]
    case Transform(f) => f(prev)
  }

  // ---------------------------------------------------------------------------
  // Properties of the pure parts
  // ---------------------------------------------------------------------------

  /** Each numeric and text field takes the supplied value when it is defined and keeps the previous one otherwise; `show` takes the supplied value or true. */
  lemma MergeFields(prev: Progress, data: ProgressUpdate)
    ensures var r := MergeProgress(prev, data);
      (data.show.Some? ==> r.show == data.show.value) && (data.show.None? ==> r.show)
      && (data.percentage.Some? ==> r.percentage == data.percentage.value)
      && (data.percentage.None? ==> r.percentage == prev.percentage)
      && (data.current.Some? ==> r.current == data.current.value)
      && (data.current.None? ==> r.current == prev.current)
      && (data.total.Some? ==> r.total == data.total.value)
      && (data.total.None? ==> r.total == prev.total)
      && (data.message.Some? ==> r.message == data.message.value)
      && (data.message.None? ==> r.message == prev.message)
      && (data.status.Some? ==> r.status == data.status.value)
      && (data.status.None? ==> r.status == prev.status)
  {
  }

  /** An update with nothing defined only shows the bar. */
  lemma EmptyUpdateShows(prev: Progress)
    ensures MergeProgress(prev, ProgressUpdate(None, None, None, None, None, None)) == prev.(show := true)
  {
  }

  /** Applying the same update twice gives the record applying it once gives. */
  lemma MergeIdempotent(prev: Progress, data: ProgressUpdate)
    ensures MergeProgress(MergeProgress(prev, data), data) == MergeProgress(prev, data)
  {
  }

  /** Two updates in a row are one combined update. */
  lemma MergeCompose(prev: Progress, first: ProgressUpdate, second: ProgressUpdate)
    ensures MergeProgress(MergeProgress(prev, first), second) == MergeProgress(prev, ThenUpdate(first, second))
  {
  }

  /** An update that defines every field forgets the previous record. */
  lemma FullUpdateForgets(a: Progress, b: Progress, data: ProgressUpdate)
    requires data.percentage.Some? && data.current.Some? && data.total.Some?
    requires data.message.Some? && data.status.Some?
    ensures MergeProgress(a, data) == MergeProgress(b, data)
  {
  }

  /** Adding an entry appends exactly one entry at the end and leaves the earlier ones as they were. */
  lemma AddEntryAppends(prev: seq<Log>, entry: Log, now: string)
    ensures var r := AddedLogs(prev, Entry(entry), now);
      |r| == |prev| + 1 && r[..|prev|] == prev && r[|prev|].fields == entry.fields
  {
    var r := AddedLogs(prev, Entry(entry), now);
    assert r[..|prev|] == prev;
  }

  /** A supplied non-empty timestamp is kept as it is; a missing or empty one becomes the current time. */
  lemma AddEntryTimestamp(prev: seq<Log>, entry: Log, now: string)
    ensures var r := AddedLogs(prev, Entry(entry), now);
      r[|prev|].timestamp == Some(if Truthy(entry.timestamp) then entry.timestamp.value else now)
  {
  }

  /** An entry that already carries a timestamp is stored the same whatever the time. */
  lemma StampedEntryIgnoresClock(entry: Log, now1: string, now2: string)
    requires Truthy(entry.timestamp)
    ensures Stamp(entry, now1) == Stamp(entry, now2) == entry
  {
  }

  /** A function argument replaces the list by its result, whatever the time. */
  lemma TransformReplaces(prev: seq<Log>, f: seq<Log> -> seq<Log>, now: string)
    ensures AddedLogs(prev, Transform(f), now) == f(prev)
  {
  }

  // ---------------------------------------------------------------------------
  // The store
  // ---------------------------------------------------------------------------

  class Store<Summary> {
    var progress: Progress
    var progressLogs: seq<Log>
    var isExpanded: bool
    var finalSummary: Option<Summary>

    /** The store as the provider creates it. */
    constructor ()
      ensures progress == InitialProgress && progressLogs == [] && !isExpanded && finalSummary == None
    {
      progress := InitialProgress;
      progressLogs := [];
      isExpanded := false;
      finalSummary := None;
    }

    /** updateProgress: merge the update into the record; nothing else changes. */
    method UpdateProgress(data: ProgressUpdate)
      modifies this
      ensures progress == MergeProgress(old(progress), data)
      ensures progressLogs == old(progressLogs) && isExpanded == old(isExpanded) && finalSummary == old(finalSummary)
    {
      progress := MergeProgress(progress, data);
    }

    /** addLog: append a stamped entry, or replace the list by a function's result; `now` is the clock's reading. */
    method AddLog(arg: LogArg, now: string)
      modifies this
      ensures progressLogs == AddedLogs(old(progressLogs), arg, now)
      ensures progress == old(progress) && isExpanded == old(isExpanded) && finalSummary == old(finalSummary)
    {
      match arg
      case Entry(entry) =>
        progressLogs := progressLogs + [Stamp(entry, now)];
      case Transform(f) =>
        progressLogs := f(progressLogs);
    }

    /** setFinalSummaryData: only the summary changes. */
    method SetFinalSummaryData(summary: Option<Summary>)
      modifies this
      ensures finalSummary == summary
      ensures progress == old(progress) && progressLogs == old(progressLogs) && isExpanded == old(isExpanded)
    {
      finalSummary := summary;
    }

    /** clearProgress: back to the state the provider starts in. */
    method ClearProgress()
      modifies this
      ensures progress == InitialProgress && progressLogs == [] && !isExpanded && finalSummary == None
    {
      progress := InitialProgress;
      progressLogs := [];
      isExpanded := false;
      finalSummary := None;
    }

    /** toggleExpanded: flip the panel; two toggles restore it. */
    method ToggleExpanded()
      modifies this
      ensures isExpanded == !old(isExpanded)
      ensures progress == old(progress) && progressLogs == old(progressLogs) && finalSummary == old(finalSummary)
    {
      isExpanded := !isExpanded;
    }
  }
}
