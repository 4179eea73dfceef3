/**
 * The report grid's pure parts (src/Components/ReportViewer/ReportList.jsx):
 * the name of the downloaded zip archive, the student ids sent for WhatsApp
 * messages, and the Previous/Next page buttons.
 */
module ReportList {
  import opened Wrappers
  import opened JsString

  /** A generated report as the server lists it. */
  datatype Student = Student(id: string, name: string, rollNo: string)
  datatype Report = Report(id: string, student: Student, secureUrl: string, reportDate: string)

  /** The `params` prop: the download's filters, each possibly undefined. */
  datatype DownloadParams = DownloadParams(batchId: Option<string>, rollNo: Option<string>, date: Option<string>)

  /** `params?.batchId`, `params?.rollNo` and `params?.date`, for a params prop that may be absent. */
  function BatchIdOf(params: Option<DownloadParams>): Option<string> {
    if params.Some? then params.value.batchId else None
  }

  function RollNoOf(params: Option<DownloadParams>): Option<string> {
    if params.Some? then params.value.rollNo else None
  }

  function DateOf(params: Option<DownloadParams>): Option<string> {
    if params.Some? then params.value.date else None
  }

  /** The text `if (v) fileName += `${tag}${v}`` adds. */
  function Tagged(tag: string, v: Option<string>): string {
    if Truthy(v) then tag + v.value else ""
  }

  const ZipPrefix: string := "PTM_Reports"
  const ZipSuffix: string := ".zip"

  /** The three filters in the order their parts are appended. */
  function ZipNameSpec(params: Option<DownloadParams>): string {
    ZipPrefix
    + Tagged("_Batch_", BatchIdOf(params))
    + Tagged("_RollNo_", RollNoOf(params))
    + Tagged("_Date_", DateOf(params))
    + ZipSuffix
  }

  /** Appending keeps every prefix of the left-hand side. */
  lemma PrefixKept(a: string, b: string, k: nat)
    requires k <= |a|
    ensures (a + b)[..k] == a[..k]
  {
  }

  /** Whatever the params, the name keeps the fixed prefix and suffix; with no truthy param it is just the two. */
  lemma ZipNameShape(params: Option<DownloadParams>)
    ensures var name := ZipNameSpec(params);
      |name| >= |ZipPrefix| + |ZipSuffix| &&
      name[..|ZipPrefix|] == ZipPrefix && name[|name| - |ZipSuffix|..] == ZipSuffix
    ensures !Truthy(BatchIdOf(params)) && !Truthy(RollNoOf(params)) && !Truthy(DateOf(params))
            ==> ZipNameSpec(params) == "PTM_Reports.zip"
  {
    var k := |ZipPrefix|;
    var s1 := ZipPrefix + Tagged("_Batch_", BatchIdOf(params));
    var s2 := s1 + Tagged("_RollNo_", RollNoOf(params));
    var s3 := s2 + Tagged("_Date_", DateOf(params));
    var name := s3 + ZipSuffix;
    assert name == ZipNameSpec(params);
    PrefixKept(ZipPrefix, Tagged("_Batch_", BatchIdOf(params)), k);
    PrefixKept(s1, Tagged("_RollNo_", RollNoOf(params)), k);
    PrefixKept(s2, Tagged("_Date_", DateOf(params)), k);
    PrefixKept(s3, ZipSuffix, k);
    assert ZipPrefix[..k] == ZipPrefix;
    assert name[|name| - |ZipSuffix|..] == ZipSuffix;
  }

  /** The name the archive is saved under, built part by part as handleDownloadAll does. */
  method ZipFileName(params: Option<DownloadParams>) returns (fileName: string)
    ensures fileName == ZipNameSpec(params)
    ensures |fileName| >= |ZipPrefix| + |ZipSuffix|
    ensures fileName[..|ZipPrefix|] == ZipPrefix && fileName[|fileName| - |ZipSuffix|..] == ZipSuffix
    ensures !Truthy(BatchIdOf(params)) && !Truthy(RollNoOf(params)) && !Truthy(DateOf(params))
            ==> fileName == "PTM_Reports.zip"
  {
    fileName := ZipPrefix;
    var batchId := BatchIdOf(params);
    var rollNo := RollNoOf(params);
    var date := DateOf(params);
    if Truthy(batchId) {
      fileName := fileName + "_Batch_" + batchId.value;
    }
    assert fileName == ZipPrefix + Tagged("_Batch_", batchId);
    if Truthy(rollNo) {
      fileName := fileName + "_RollNo_" + rollNo.value;
    }
    assert fileName == ZipPrefix + Tagged("_Batch_", batchId) + Tagged("_RollNo_", rollNo);
    if Truthy(date) {
      fileName := fileName + "_Date_" + date.value;
    }
    assert fileName == ZipPrefix + Tagged("_Batch_", batchId) + Tagged("_RollNo_", rollNo) + Tagged("_Date_", date);
    fileName := fileName + ZipSuffix;
    ZipNameShape(params);
  }

  /** The words a tagged part contributes when the name is read back at "_". */
  function TagWords(tag: string, v: Option<string>): seq<string> {
    if Truthy(v) then [tag, v.value] else []
  }

  predicate NoUnderscore(v: Option<string>) {
    v.Some? ==> forall i | 0 <= i < |v.value| :: v.value[i] != '_'
  }

  lemma TaggedJoin(words: seq<string>, tag: string, v: Option<string>)
    requires words != []
    ensures Join(words + TagWords(tag, v), "_") == Join(words, "_") + Tagged("_" + tag + "_", v)
  {
    if Truthy(v) {
      JoinSnoc(words, tag, "_");
      JoinSnoc(words + [tag], v.value, "_");
      assert words + TagWords(tag, v) == words + [tag] + [v.value];
    } else {
      assert words + TagWords(tag, v) == words;
    }
  }

  /** The words of the name before ".zip", as they are joined with "_". */
  function ZipWords(params: Option<DownloadParams>): seq<string> {
    ["PTM", "Reports"] + TagWords("Batch", BatchIdOf(params))
    + TagWords("RollNo", RollNoOf(params)) + TagWords("Date", DateOf(params))
  }

  lemma PrefixWords()
    ensures Join(["PTM", "Reports"], "_") == ZipPrefix
  {
    assert ["PTM", "Reports"][1..] == ["Reports"];
  }

  /** The name is its words joined with "_", then ".zip". */
  lemma ZipNameIsJoin(params: Option<DownloadParams>)
    ensures ZipNameSpec(params) == Join(ZipWords(params), "_") + ZipSuffix
  {
    var b, r, d := BatchIdOf(params), RollNoOf(params), DateOf(params);
    var w0 := ["PTM", "Reports"];
    var w1 := w0 + TagWords("Batch", b);
    var w2 := w1 + TagWords("RollNo", r);
    var t1, t2, t3 := Tagged("_Batch_", b), Tagged("_RollNo_", r), Tagged("_Date_", d);
    PrefixWords();
    TaggedJoin(w0, "Batch", b);
    assert Join(w1, "_") == ZipPrefix + t1;
    TaggedJoin(w1, "RollNo", r);
    assert Join(w2, "_") == ZipPrefix + t1 + t2;
    TaggedJoin(w2, "Date", d);
    assert Join(w2 + TagWords("Date", d), "_") == ZipPrefix + t1 + t2 + t3;
    assert ZipWords(params) == w2 + TagWords("Date", d);
  }

  /**
   * Read back at "_", the name before ".zip" lists "PTM", "Reports" and then,
   * for each filter that is set, in the order batch, roll number, date, its
   * tag and its value: a part is present exactly when its filter is truthy.
   */
  lemma ZipNameReadsBack(params: Option<DownloadParams>)
    requires NoUnderscore(BatchIdOf(params))
    requires NoUnderscore(RollNoOf(params))
    requires NoUnderscore(DateOf(params))
    ensures var name := ZipNameSpec(params);
      Split(name[..|name| - |ZipSuffix|], "_") == ZipWords(params)
  {
    var w := ZipWords(params);
    var stem := Join(w, "_");
    ZipNameIsJoin(params);
    assert (stem + ZipSuffix)[..|stem + ZipSuffix| - |ZipSuffix|] == stem;
    forall k, i | 0 <= k < |w| && 0 <= i < |w[k]| ensures w[k][i] != '_' {
      WordsAvoidUnderscore(BatchIdOf(params), RollNoOf(params), DateOf(params), k, i);
    }
    SplitJoin(w, '_');
  }

  lemma WordsAvoidUnderscore(b: Option<string>, r: Option<string>, d: Option<string>, k: int, i: int)
    requires NoUnderscore(b) && NoUnderscore(r) && NoUnderscore(d)
    requires var w := ["PTM", "Reports"] + TagWords("Batch", b) + TagWords("RollNo", r) + TagWords("Date", d);
      0 <= k < |w| && 0 <= i < |w[k]|
    ensures var w := ["PTM", "Reports"] + TagWords("Batch", b) + TagWords("RollNo", r) + TagWords("Date", d);
      w[k][i] != '_'
  {
  }

  /** `reports.map((r) => r.student._id)`: one id per report, in report order. */
  function ReportIds(reports: seq<Report>): (ids: seq<string>)
    ensures |ids| == |reports|
    ensures forall i | 0 <= i < |reports| :: ids[i] == reports[i].student.id
  {
    seq(|reports|, i requires 0 <= i < |reports| => reports[i].student.id)
  }

  /** The WhatsApp button is disabled while there is no report id to send. */
  function SendDisabled(reportIds: seq<string>): bool {
    |reportIds| == 0
  }

  /** The send button is disabled exactly when the list holds no report. */
  lemma SendDisabledIffNoReports(reports: seq<Report>)
    ensures SendDisabled(ReportIds(reports)) <==> reports == []
  {
  }

  // ---------------------------------------------------------------------------
  // Pages
  // ---------------------------------------------------------------------------

  /** Previous: `Math.max(1, prev - 1)` */
  function PreviousPage(prev: int): (p: int)
    ensures p >= 1
    ensures prev > 1 ==> p == prev - 1
    ensures prev <= 1 ==> p == 1
  {
    if 1 >= prev - 1 then 1 else prev - 1
  }

  /** Next: `Math.min(totalPages, prev + 1)` */
  function NextPage(prev: int, totalPages: int): (p: int)
    ensures p <= totalPages
    ensures prev < totalPages ==> p == prev + 1
    ensures prev >= totalPages ==> p == totalPages
  {
    if totalPages <= prev + 1 then totalPages else prev + 1
  }

  /** Previous is disabled on the first page and while loading. */
  function PreviousDisabled(page: int, loading: bool): bool { page == 1 || loading }

  /** Next is disabled on the last page and while loading. */
  function NextDisabled(page: int, totalPages: int, loading: bool): bool { page == totalPages || loading }

  /** The pagination bar is shown when totalPages is truthy (defined and not 0). */
  function PaginationShown(totalPages: Option<int>): bool { totalPages.Some? && totalPages.value != 0 }

  /** The bar is hidden exactly when totalPages is undefined or 0. */
  lemma PaginationHiddenWithoutPages(totalPages: Option<int>)
    ensures !PaginationShown(totalPages) <==> totalPages == None || totalPages == Some(0)
  {
  }

  /** On a list of one page, whatever the loading flag, neither button can be pressed. */
  lemma SinglePageButtonsDisabled(loading: bool)
    ensures PaginationShown(Some(1))
    ensures PreviousDisabled(1, loading) && NextDisabled(1, 1, loading)
  {
  }

  datatype Click = Previous | Next

  /** The page after a click. */
  function AfterClick(page: int, totalPages: int, c: Click): int {
    match c
    case Previous => PreviousPage(page)
    case Next => NextPage(page, totalPages)
  }

  /** The page after a series of clicks, first click first. */
  function AfterClicks(page: int, totalPages: int, clicks: seq<Click>): int
    decreases |clicks|
  {
    if clicks == [] then page else AfterClicks(AfterClick(page, totalPages, clicks[0]), totalPages, clicks[1..])
  }

  /** Starting on a page between 1 and totalPages, no series of clicks leaves that range. */
  lemma {:induction false} ClicksStayInRange(page: int, totalPages: int, clicks: seq<Click>)
    requires 1 <= page <= totalPages
    ensures 1 <= AfterClicks(page, totalPages, clicks) <= totalPages
    decreases |clicks|
  {
    if clicks != [] {
      ClicksStayInRange(AfterClick(page, totalPages, clicks[0]), totalPages, clicks[1..]);
    }
  }

  /** An enabled Previous moves back exactly one page, an enabled Next forward exactly one. */
  lemma EnabledButtonsStepOnePage(page: int, totalPages: int)
    requires 1 <= page <= totalPages
    ensures !PreviousDisabled(page, false) ==> PreviousPage(page) == page - 1
    ensures !NextDisabled(page, totalPages, false) ==> NextPage(page, totalPages) == page + 1
  {
  }
}
