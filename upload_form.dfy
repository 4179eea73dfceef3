/**
 * The upload form's state and event handlers: choosing a file, the result
 * of reading it, the validation that fills the error, warning and preview
 * lists, the invalid-cell highlight and the submit gate.
 */
module UploadForm {
  import opened Wrappers
  import opened JsString
  import opened SheetData
  import opened UploadHeaders
  import opened UploadRows

  /** The selected file as the handlers see it. */
  datatype FileInfo = FileInfo(name: string, size: nat)

  /** Files above 50 MiB are refused before reading. */
  const MaxFileSize: nat := 50 * 1024 * 1024

  const TooLargeMessage := "\U{274C} File too large. Please upload a file smaller than 50MB."
  const UnsupportedMessage := "\U{274C} Unsupported file format"
  const ReadErrorMessage := "\U{274C} Error reading the file. Please try again."
  const SelectFileMessage := "Please select a file."
  const SelectDateMessage := "Please select PTM date."
  const CannotSubmitHeading := "\U{274C} Cannot submit due to the following errors:"
  const WarningsHeading := "\U{26A0}\U{FE0F} Some warnings were detected:\n"
  const ProceedQuestion := "\n\nDo you still want to proceed?"
  const UploadUrl := "/ptm/upload"
  const UploadType := "generate"

  /** The file extension the form acts on: the text after the last dot, lower-cased (the whole name when there is no dot). */
  function Extension(name: string): string {
    var parts := Split(name, ".");
    ToLowerAsciiString(parts[|parts| - 1])
  }

  lemma ExtensionAfterLastDot(base: string, ext: string)
    requires forall i | 0 <= i < |ext| :: ext[i] != '.'
    ensures Extension(base + "." + ext) == ToLowerAsciiString(ext)
  {
    var name := base + "." + ext;
    assert name == base + ['.'] + ext;
    SplitLastPart(base, '.', ext);
    var parts := Split(name, ['.']);
    assert parts[|parts| - 1] == ext;
  }

  lemma ExtensionWithoutDot(name: string)
    requires forall i | 0 <= i < |name| :: name[i] != '.'
    ensures Extension(name) == ToLowerAsciiString(name)
  {
    SplitNoSeparator(name, '.');
  }

  /** Which read the file chooser starts: none, or one for a csv or xlsx extension. */
  datatype ReadRequest = NoRead | Read(ext: string, asText: bool)

  /** What the spreadsheet parser hands back: the rows, or a thrown error. */
  datatype Parsed = Rows(data: seq<Row>) | ParseError

  /** How a submit ends: an alert before the upload, a declined warnings prompt, or the upload request. */
  datatype SubmitOutcome =
    | Alert(message: string)
    | Declined(prompt: string)
    | Upload(asked: Option<string>, csvFile: FileInfo, ptmDate: string, kind: string, url: string)

  /** The alert listing blocking errors, one per line under the heading. */
  function ErrorsAlert(errors: seq<string>): string {
    Join([CannotSubmitHeading] + errors, "\n")
  }

  /** The confirmation prompt listing warnings, one per line. */
  function WarningsPrompt(warnings: seq<string>): string {
    WarningsHeading + Join(warnings, "\n") + ProceedQuestion
  }

  /** Each error can be read back, line by line, from the alert, as long as none spans several lines. */
  lemma ErrorsAlertLines(errors: seq<string>)
    requires forall k, i | 0 <= k < |errors| && 0 <= i < |errors[k]| :: errors[k][i] != '\n'
    ensures Split(ErrorsAlert(errors), "\n") == [CannotSubmitHeading] + errors
  {
    var parts := [CannotSubmitHeading] + errors;
    forall k, i | 0 <= k < |parts| && 0 <= i < |parts[k]| ensures parts[k][i] != '\n' {
      if k > 0 {
        assert parts[k] == errors[k - 1];
      }
    }
    SplitJoin(parts, '\n');
  }

  class Form {
    var file: Option<FileInfo>
    var ptmDate: string
    var uploading: bool
    var allErrors: seq<string>
    var allWarnings: seq<string>
    var dataPreview: seq<Row>
    var headers: seq<string>
    var invalidCells: seq<CellRef>

    /** Nothing chosen, no date, nothing to show. */
    constructor ()
      ensures file == None && ptmDate == "" && !uploading
      ensures allErrors == [] && allWarnings == [] && dataPreview == [] && headers == [] && invalidCells == []
    {
      file := None;
      ptmDate := "";
      uploading := false;
      allErrors := [];
      allWarnings := [];
      dataPreview := [];
      headers := [];
      invalidCells := [];
    }

    /** The date input's change handler. */
    method SetPtmDate(date: string)
      modifies this
      ensures ptmDate == date
      ensures file == old(file) && uploading == old(uploading)
      ensures allErrors == old(allErrors) && allWarnings == old(allWarnings)
      ensures dataPreview == old(dataPreview) && headers == old(headers) && invalidCells == old(invalidCells)
    {
      ptmDate := date;
    }

    /**
     * The file input's change handler: stores the choice and clears every
     * earlier finding; refuses a file over the size limit with an alert;
     * otherwise starts a read only for a csv (as text) or xlsx (as bytes)
     * extension.
     */
    method HandleFileChange(selected: Option<FileInfo>) returns (alert: Option<string>, read: ReadRequest)
      modifies this
      ensures file == selected
      ensures allErrors == [] && allWarnings == [] && invalidCells == [] && dataPreview == [] && headers == []
      ensures ptmDate == old(ptmDate) && uploading == old(uploading)
      ensures alert.Some? <==> selected.Some? && selected.value.size > MaxFileSize
      ensures alert.Some? ==> alert.value == TooLargeMessage
      ensures read.Read? <==>
        selected.Some? && selected.value.size <= MaxFileSize && Extension(selected.value.name) in {"csv", "xlsx"}
      ensures read.Read? ==> read.ext == Extension(selected.value.name) && (read.asText <==> read.ext == "csv")
    {
      file := selected;
      allErrors := [];
      allWarnings := [];
      invalidCells := [];
      dataPreview := [];
      headers := [];
      alert := None;
      read := NoRead;
      if selected.None? {
        return;
      }
      if selected.value.size > MaxFileSize {
        alert := Some(TooLargeMessage);
        return;
      }
      var ext := Extension(selected.value.name);
      if ext == "csv" {
        read := Read(ext, true);
      } else if ext == "xlsx" {
        read := Read(ext, false);
      }
    }

    /**
     * validateAndPreview: with no rows only the no-data error is set;
     * otherwise the four lists and the headers take the report's values.
     */
    method ValidateAndPreview(data: seq<Row>)
      modifies this
      ensures file == old(file) && ptmDate == old(ptmDate) && uploading == old(uploading)
      ensures data == [] ==>
        allErrors == [NoDataMessage] && allWarnings == old(allWarnings)
        && invalidCells == old(invalidCells) && dataPreview == old(dataPreview) && headers == old(headers)
      ensures data != [] ==>
        ExpectedReport(data) == Checked(allErrors, allWarnings, invalidCells, dataPreview, headers)
    {
      if data == [] {
        allErrors := [NoDataMessage];
      } else {
        var report := Validate(data);
        ShowReport(report);
      }
    }

    /** Puts a sheet's findings, preview and headers on show. */
    method ShowReport(report: Report)
      requires report.Checked?
      modifies this
      ensures file == old(file) && ptmDate == old(ptmDate) && uploading == old(uploading)
      ensures Checked(allErrors, allWarnings, invalidCells, dataPreview, headers) == report
    {
      invalidCells := report.invalids;
      dataPreview := report.preview;
      headers := report.headers;
      allErrors := report.errors;
      allWarnings := report.warnings;
    }

    /**
     * The reader's load handler for the extension a read was started with:
     * a parsed csv or xlsx sheet is validated, a parse failure raises an
     * alert, any other extension sets the unsupported-format error; the
     * busy flag is off when it ends.
     */
    method OnLoad(ext: string, parsed: Parsed) returns (alert: Option<string>)
      modifies this
      ensures !uploading && file == old(file) && ptmDate == old(ptmDate)
      ensures alert.Some? <==> ext in {"csv", "xlsx"} && parsed.ParseError?
      ensures alert.Some? ==> alert.value == ReadErrorMessage
      ensures ext !in {"csv", "xlsx"} ==>
        allErrors == [UnsupportedMessage] && allWarnings == old(allWarnings)
        && invalidCells == old(invalidCells) && dataPreview == old(dataPreview) && headers == old(headers)
      ensures ext in {"csv", "xlsx"} && parsed.ParseError? ==>
        allErrors == old(allErrors) && allWarnings == old(allWarnings)
        && invalidCells == old(invalidCells) && dataPreview == old(dataPreview) && headers == old(headers)
      ensures ext in {"csv", "xlsx"} && parsed.Rows? && parsed.data == [] ==>
        allErrors == [NoDataMessage] && allWarnings == old(allWarnings)
        && invalidCells == old(invalidCells) && dataPreview == old(dataPreview) && headers == old(headers)
      ensures ext in {"csv", "xlsx"} && parsed.Rows? && parsed.data != [] ==>
        ExpectedReport(parsed.data) == Checked(allErrors, allWarnings, invalidCells, dataPreview, headers)
    {
      uploading := true;
      alert := None;
      if ext == "csv" || ext == "xlsx" {
        match parsed {
          case ParseError =>
            alert := Some(ReadErrorMessage);
          case Rows(data) =>
            ValidateAndPreview(data);
        }
      } else {
        allErrors := [UnsupportedMessage];
      }
      uploading := false;
    }

    /** Whether the preview highlights the cell under `header` on preview row `rowIndex`. */
    predicate IsCellInvalid(rowIndex: nat, header: string)
      reads this
    {
      exists c | c in invalidCells :: c.row == rowIndex && c.field == header
    }

    /**
     * The submit handler's gate, checked in order: a file, a date, no
     * blocking error, then no warning or the user's consent (`proceed`).
     * The upload is requested only when every check passes.
     */
    method HandleSubmit(proceed: bool) returns (outcome: SubmitOutcome)
      ensures file.None? ==> outcome == Alert(SelectFileMessage)
      ensures file.Some? && ptmDate == "" ==> outcome == Alert(SelectDateMessage)
      ensures file.Some? && ptmDate != "" && allErrors != [] ==> outcome == Alert(ErrorsAlert(allErrors))
      ensures file.Some? && ptmDate != "" && allErrors == [] && allWarnings != [] && !proceed ==>
        outcome == Declined(WarningsPrompt(allWarnings))
      ensures outcome.Upload? <==> file.Some? && ptmDate != "" && allErrors == [] && (allWarnings == [] || proceed)
      ensures outcome.Upload? ==>
        outcome == Upload(if allWarnings == [] then None else Some(WarningsPrompt(allWarnings)),
                          file.value, ptmDate, UploadType, UploadUrl)
    {
      if file.None? {
        return Alert(SelectFileMessage);
      }
      if ptmDate == "" {
        return Alert(SelectDateMessage);
      }
      if |allErrors| > 0 {
        return Alert(ErrorsAlert(allErrors));
      }
      var prompt: Option<string> := None;
      if |allWarnings| > 0 {
        prompt := Some(WarningsPrompt(allWarnings));
        if !proceed {
          return Declined(prompt.value);
        }
      }
      outcome := Upload(prompt, file.value, ptmDate, UploadType, UploadUrl);
    }
  }

  /**
   * Choosing a csv file and reading a sheet without rows leaves the form with
   * the one no-data error and nothing else on show: the file change cleared
   * the earlier findings and the load keeps them cleared.
   */
  method EmptySheetAfterFileChange(name: string, size: nat) returns (form: Form, alert: Option<string>)
    requires size <= MaxFileSize && Extension(name) == "csv"
    ensures form.file == Some(FileInfo(name, size)) && !form.uploading && alert == None
    ensures form.allErrors == [NoDataMessage]
    ensures form.allWarnings == [] && form.invalidCells == [] && form.dataPreview == [] && form.headers == []
  {
    form := new Form();
    var tooLarge, read := form.HandleFileChange(Some(FileInfo(name, size)));
    assert read == Read("csv", true);
    alert := form.OnLoad(read.ext, Rows([]));
  }

  /**
   * After a sheet is validated, the preview highlights exactly the required
   * cells left empty and the blank pattern cells.
   */
  lemma HighlightedCells(form: Form, data: seq<Row>, rowIndex: nat, header: string)
    requires data != [] && form.invalidCells == ExpectedReport(data).invalids
    ensures var hm := HeaderMapOf(data[0].columns);
      form.IsCellInvalid(rowIndex, header) <==>
        rowIndex < |data| && (RequiredEmptyAt(hm, data[rowIndex], header) ||
                              (header in data[rowIndex].columns && BlankPatternCell(data[rowIndex], header)))
  {
    ReportInvalidCells(data, CellRef(rowIndex, header));
  }
}
