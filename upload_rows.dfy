/**
 * The row half of the upload form's spreadsheet check
 * (src/Components/UploadForm.jsx, validateAndPreview): every row is checked
 * for empty required cells and a repeated roll number, which block the
 * upload, and for blank attendance and result columns, which only warn. The
 * declarative functions below say what the check reports; the method
 * Validate computes it with the loops and the seen-set of the form.
 */
module UploadRows {
  import opened JsString
  import opened Decimal
  import opened SheetData
  import opened UploadHeaders

  /** An entry of invalidCells: the row index (from 0) and the header of the cell to highlight. */
  datatype CellRef = CellRef(row: nat, field: string)

  // ---------------------------------------------------------------------------
  // Blank cells
  // ---------------------------------------------------------------------------

  /** `val === undefined || val.toString().trim() === ""`: the test on a required cell. */
  predicate IsEmptyRequired(v: Cell) {
    v == Undefined || Trim(Render(v)) == ""
  }

  /** `val === "" || val === undefined`: the test on an attendance or result cell. */
  predicate IsBlank(v: Cell) {
    v == Text("") || v == Undefined
  }

  /** A blank cell is an empty required cell, but a cell of spaces is only the latter. */
  lemma BlankIsEmptyRequired(v: Cell)
    ensures IsBlank(v) ==> IsEmptyRequired(v)
    ensures IsEmptyRequired(Text(" ")) && !IsBlank(Text(" "))
  {
    assert AllWhitespace(" ");
  }

  /** A number or a boolean is never an empty required cell. */
  lemma NumbersAndBooleansAreNotEmpty(t: string, b: bool)
    requires t != "" && !AllWhitespace(t)
    ensures !IsEmptyRequired(Number(t)) && !IsEmptyRequired(Boolean(b))
  {
    assert !AllWhitespace("true") by { assert !IsWhitespace("true"[0]); }
    assert !AllWhitespace("false") by { assert !IsWhitespace("false"[0]); }
  }

  // ---------------------------------------------------------------------------
  // The dynamic column patterns (regular expressions with the i flag)
  // ---------------------------------------------------------------------------

  predicate IsWordChar(c: char) { IsAsciiAlnum(c) || c == '_' }
  predicate AllWordChars(s: string) { forall i | 0 <= i < |s| :: IsWordChar(s[i]) }

  /** `/^Attendance_[A-Za-z]+_[PA]$/i` */
  predicate IsAttendanceColumn(c: string) {
    |c| >= 14 && EqualsIgnoreCase(c[..11], "Attendance_")
    && AllLetters(c[11..|c| - 2]) && c[|c| - 2] == '_'
    && ToLowerAscii(c[|c| - 1]) in {'p', 'a'}
  }

  /** `/^Result_[A-Za-z0-9]+_[A-Za-z]+$/i` */
  predicate IsResultColumn(c: string) {
    |c| >= 10 && EqualsIgnoreCase(c[..7], "Result_")
    && exists k | 7 < k < |c| - 1 :: c[k] == '_' && AllAlnum(c[7..k]) && AllLetters(c[k + 1..])
  }

  /** `/^Board_Result_[A-Za-z0-9_]+_[A-Za-z]+$/i` */
  predicate IsBoardResultColumn(c: string) {
    |c| >= 16 && EqualsIgnoreCase(c[..13], "Board_Result_")
    && exists k | 13 < k < |c| - 1 :: c[k] == '_' && AllWordChars(c[13..k]) && AllLetters(c[k + 1..])
  }

  predicate IsDynamicColumn(c: string) {
    IsAttendanceColumn(c) || IsResultColumn(c) || IsBoardResultColumn(c)
  }

  /** The three patterns start with different letters, so a column matches at most one of them. */
  lemma PatternsExclusive(c: string)
    ensures !(IsAttendanceColumn(c) && IsResultColumn(c))
    ensures !(IsAttendanceColumn(c) && IsBoardResultColumn(c))
    ensures !(IsResultColumn(c) && IsBoardResultColumn(c))
  {
    if IsAttendanceColumn(c) {
      assert ToLowerAscii(c[..11][0]) == 'a';
    }
    if IsResultColumn(c) {
      assert ToLowerAscii(c[..7][0]) == 'r';
    }
    if IsBoardResultColumn(c) {
      assert ToLowerAscii(c[..13][0]) == 'b';
    }
  }

  // ---------------------------------------------------------------------------
  // Messages
  // ---------------------------------------------------------------------------

  const NoDataMessage: string := "\U{274C} No data found in file."

  /** `Row ${rowIndex + 1}: ` */
  function RowLabel(rowIndex: nat): string {
    "Row " + NatToString(rowIndex + 1) + ": "
  }

  function RequiredEmptyMessage(rowIndex: nat, hdr: string, k: FieldKey): string {
    RowLabel(rowIndex) + "\"" + hdr + "\" (mapped from \"" + KeyText(k) + "\") is required but empty."
  }

  function DuplicateMessage(rowIndex: nat, rollVal: Cell): string {
    RowLabel(rowIndex) + "\U{26A0}\U{FE0F} Duplicate Roll No \"" + Render(rollVal) + "\" detected."
  }

  /** The three dynamic patterns, in the order the form tests them. */
  datatype Pattern = Attendance | ResultPattern | BoardResult

  function PatternWarning(rowIndex: nat, col: string, p: Pattern): string {
    var reason := match p
      case Attendance => "attendance might be incomplete"
      case ResultPattern => "result field missing"
      case BoardResult => "board result missing";
    RowLabel(rowIndex) + "\"" + col + "\" is empty (" + reason + ")."
  }

  // ---------------------------------------------------------------------------
  // What one row contributes
  // ---------------------------------------------------------------------------

  /** The error a required key raises on a row: its mapped header is truthy and the cell under it is empty. */
  function KeyErrors(hm: map<FieldKey, string>, row: Row, rowIndex: nat, k: FieldKey): seq<string> {
    if Mapped(hm, k) && IsEmptyRequired(Get(row, hm[k])) then [RequiredEmptyMessage(rowIndex, hm[k], k)] else []
  }

  function KeyInvalids(hm: map<FieldKey, string>, row: Row, rowIndex: nat, k: FieldKey): seq<CellRef> {
    if Mapped(hm, k) && IsEmptyRequired(Get(row, hm[k])) then [CellRef(rowIndex, hm[k])] else []
  }

  /** The errors of the first q required keys on a row, in key order. */
  function RequiredErrors(hm: map<FieldKey, string>, row: Row, rowIndex: nat, q: nat): seq<string>
    requires q <= |RequiredNormalized|
  {
    if q == 0 then [] else RequiredErrors(hm, row, rowIndex, q - 1) + KeyErrors(hm, row, rowIndex, RequiredNormalized[q - 1])
  }

  function RequiredInvalids(hm: map<FieldKey, string>, row: Row, rowIndex: nat, q: nat): seq<CellRef>
    requires q <= |RequiredNormalized|
  {
    if q == 0 then [] else RequiredInvalids(hm, row, rowIndex, q - 1) + KeyInvalids(hm, row, rowIndex, RequiredNormalized[q - 1])
  }

  /** The three tests on one column of a row, one after the other: a warning for each pattern the column matches, when its cell is blank. */
  function ColumnWarnings(row: Row, rowIndex: nat, col: string): seq<string> {
    var blank := IsBlank(Get(row, col));
    (if IsAttendanceColumn(col) && blank then [PatternWarning(rowIndex, col, Attendance)] else [])
    + (if IsResultColumn(col) && blank then [PatternWarning(rowIndex, col, ResultPattern)] else [])
    + (if IsBoardResultColumn(col) && blank then [PatternWarning(rowIndex, col, BoardResult)] else [])
  }

  function ColumnInvalids(row: Row, rowIndex: nat, col: string): seq<CellRef> {
    var blank := IsBlank(Get(row, col));
    (if IsAttendanceColumn(col) && blank then [CellRef(rowIndex, col)] else [])
    + (if IsResultColumn(col) && blank then [CellRef(rowIndex, col)] else [])
    + (if IsBoardResultColumn(col) && blank then [CellRef(rowIndex, col)] else [])
  }

  /** A column of the row that matches one of the patterns and whose cell is blank. */
  predicate BlankPatternCell(row: Row, col: string) {
    IsDynamicColumn(col) && IsBlank(Get(row, col))
  }

  /** The pattern a dynamic column matches (there is only one, by PatternsExclusive). */
  function PatternOf(col: string): Pattern
    requires IsDynamicColumn(col)
  {
    if IsAttendanceColumn(col) then Attendance
    else if IsResultColumn(col) then ResultPattern
    else BoardResult
  }

  /** The warning a column raises on a row, if any. */
  function ColumnWarning(row: Row, rowIndex: nat, col: string): seq<string> {
    if BlankPatternCell(row, col) then [PatternWarning(rowIndex, col, PatternOf(col))] else []
  }

  /** The cell a column marks on a row, if any. */
  function ColumnMark(row: Row, rowIndex: nat, col: string): seq<CellRef> {
    if BlankPatternCell(row, col) then [CellRef(rowIndex, col)] else []
  }

  /**
   * Since the patterns exclude each other, the three tests raise at most one
   * warning and mark at most the column's own cell, and only when the column
   * matches a pattern and its cell is blank.
   */
  lemma ColumnFindings(row: Row, rowIndex: nat, col: string)
    ensures ColumnWarnings(row, rowIndex, col) == ColumnWarning(row, rowIndex, col)
    ensures ColumnInvalids(row, rowIndex, col) == ColumnMark(row, rowIndex, col)
  {
    PatternsExclusive(col);
  }

  /** The warnings of the row's first n own keys, in Object.keys order. */
  function DynamicWarnings(row: Row, rowIndex: nat, n: nat): seq<string>
    requires n <= |row.columns|
  {
    if n == 0 then [] else DynamicWarnings(row, rowIndex, n - 1) + ColumnWarning(row, rowIndex, row.columns[n - 1])
  }

  function DynamicInvalids(row: Row, rowIndex: nat, n: nat): seq<CellRef>
    requires n <= |row.columns|
  {
    if n == 0 then [] else DynamicInvalids(row, rowIndex, n - 1) + ColumnMark(row, rowIndex, row.columns[n - 1])
  }

  /** The roll numbers of the first n rows: what seenRollNos holds when row n is checked. */
  function SeenBefore(data: seq<Row>, rollHdr: string, n: nat): set<Cell>
    requires n <= |data|
  {
    set j | 0 <= j < n :: Get(data[j], rollHdr)
  }

  /** A row's roll number repeats when the roll-number key is mapped and an earlier row has the same value. */
  predicate IsDuplicateRow(hm: map<FieldKey, string>, data: seq<Row>, i: nat)
    requires i < |data|
  {
    Mapped(hm, RollNo) && Get(data[i], hm[RollNo]) in SeenBefore(data, hm[RollNo], i)
  }

  function DuplicateErrors(hm: map<FieldKey, string>, data: seq<Row>, i: nat): seq<string>
    requires i < |data|
  {
    if IsDuplicateRow(hm, data, i) then [DuplicateMessage(i, Get(data[i], hm[RollNo]))] else []
  }

  function RowErrors(hm: map<FieldKey, string>, data: seq<Row>, i: nat): seq<string>
    requires i < |data|
  {
    RequiredErrors(hm, data[i], i, |RequiredNormalized|) + DuplicateErrors(hm, data, i)
  }

  function RowWarnings(row: Row, i: nat): seq<string> {
    DynamicWarnings(row, i, |row.columns|)
  }

  function RowInvalids(hm: map<FieldKey, string>, row: Row, i: nat): seq<CellRef> {
    RequiredInvalids(hm, row, i, |RequiredNormalized|) + DynamicInvalids(row, i, |row.columns|)
  }

  // ---------------------------------------------------------------------------
  // What the first n rows contribute
  // ---------------------------------------------------------------------------

  function ErrorsUpTo(hm: map<FieldKey, string>, data: seq<Row>, n: nat): seq<string>
    requires n <= |data|
  {
    if n == 0 then [] else ErrorsUpTo(hm, data, n - 1) + RowErrors(hm, data, n - 1)
  }

  function WarningsUpTo(data: seq<Row>, n: nat): seq<string>
    requires n <= |data|
  {
    if n == 0 then [] else WarningsUpTo(data, n - 1) + RowWarnings(data[n - 1], n - 1)
  }

  function InvalidsUpTo(hm: map<FieldKey, string>, data: seq<Row>, n: nat): seq<CellRef>
    requires n <= |data|
  {
    if n == 0 then [] else InvalidsUpTo(hm, data, n - 1) + RowInvalids(hm, data[n - 1], n - 1)
  }

  // ---------------------------------------------------------------------------
  // The whole check
  // ---------------------------------------------------------------------------

  /** What validateAndPreview hands to the form's state. */
  datatype Report =
    | NoData
    | Checked(errors: seq<string>, warnings: seq<string>, invalids: seq<CellRef>, preview: seq<Row>, headers: seq<string>)

  function Min(a: int, b: int): int { if a <= b then a else b }

  /** The report on a parsed sheet: the keys of the first row are the headers every row is checked against. */
  function ExpectedReport(data: seq<Row>): Report
  {
    if |data| == 0 then NoData
    else
      var rawHeaders := data[0].columns;
      var hm := HeaderMapOf(rawHeaders);
      Checked(MissingColumnsIssues(hm) + ErrorsUpTo(hm, data, |data|),
              WarningsUpTo(data, |data|),
              InvalidsUpTo(hm, data, |data|),
              data[..Min(100, |data|)],
              rawHeaders)
  }

  /** The per-row loop over the required keys. */
  method CheckRequiredCells(headerMap: map<FieldKey, string>, row: Row, rowIndex: nat)
    returns (issues: seq<string>, invalids: seq<CellRef>)
    ensures issues == RequiredErrors(headerMap, row, rowIndex, |RequiredNormalized|)
    ensures invalids == RequiredInvalids(headerMap, row, rowIndex, |RequiredNormalized|)
  {
    issues, invalids := [], [];
    for q := 0 to |RequiredNormalized|
      invariant issues == RequiredErrors(headerMap, row, rowIndex, q)
      invariant invalids == RequiredInvalids(headerMap, row, rowIndex, q)
    {
      var normKey := RequiredNormalized[q];
      if normKey in headerMap && headerMap[normKey] != "" {
        var hdr := headerMap[normKey];
        var val := Get(row, hdr);
        if val == Undefined || Trim(Render(val)) == "" {
          invalids := invalids + [CellRef(rowIndex, hdr)];
          issues := issues + [RequiredEmptyMessage(rowIndex, hdr, normKey)];
        }
      }
    }
  }

  /** The three pattern tests on one column of a row. */
  method CheckColumn(row: Row, rowIndex: nat, col: string) returns (warnings: seq<string>, invalids: seq<CellRef>)
    ensures warnings == ColumnWarnings(row, rowIndex, col)
    ensures invalids == ColumnInvalids(row, rowIndex, col)
  {
    var val := Get(row, col);
    var blank := val == Text("") || val == Undefined;
    var attendance, result, boardResult := IsAttendanceColumn(col), IsResultColumn(col), IsBoardResultColumn(col);
    warnings, invalids := [], [];
    if attendance && blank {
      warnings := warnings + [PatternWarning(rowIndex, col, Attendance)];
      invalids := invalids + [CellRef(rowIndex, col)];
    }
    if result && blank {
      warnings := warnings + [PatternWarning(rowIndex, col, ResultPattern)];
      invalids := invalids + [CellRef(rowIndex, col)];
    }
    if boardResult && blank {
      warnings := warnings + [PatternWarning(rowIndex, col, BoardResult)];
      invalids := invalids + [CellRef(rowIndex, col)];
    }
  }

  /** The per-row loop over the row's own keys. */
  method CheckDynamicCells(row: Row, rowIndex: nat) returns (warnings: seq<string>, invalids: seq<CellRef>)
    ensures warnings == DynamicWarnings(row, rowIndex, |row.columns|)
    ensures invalids == DynamicInvalids(row, rowIndex, |row.columns|)
  {
    warnings, invalids := [], [];
    for n := 0 to |row.columns|
      invariant warnings == DynamicWarnings(row, rowIndex, n)
      invariant invalids == DynamicInvalids(row, rowIndex, n)
    {
      var colWarnings, colInvalids := CheckColumn(row, rowIndex, row.columns[n]);
      ColumnFindings(row, rowIndex, row.columns[n]);
      warnings := warnings + colWarnings;
      invalids := invalids + colInvalids;
    }
  }

  /** The duplicate test of one row against the roll numbers seen so far, which it then extends. */
  method CheckRollNumber(headerMap: map<FieldKey, string>, data: seq<Row>, rowIndex: nat, seenRollNos: set<Cell>)
    returns (issues: seq<string>, seen: set<Cell>)
    requires rowIndex < |data|
    requires Mapped(headerMap, RollNo) ==> seenRollNos == SeenBefore(data, headerMap[RollNo], rowIndex)
    ensures issues == DuplicateErrors(headerMap, data, rowIndex)
    ensures Mapped(headerMap, RollNo) ==> seen == SeenBefore(data, headerMap[RollNo], rowIndex + 1)
  {
    issues, seen := [], seenRollNos;
    if RollNo in headerMap && headerMap[RollNo] != "" {
      var rollHdr := headerMap[RollNo];
      var rollVal := Get(data[rowIndex], rollHdr);
      if rollVal in seen {
        issues := [DuplicateMessage(rowIndex, rollVal)];
      } else {
        seen := seen + {rollVal};
      }
      assert SeenBefore(data, rollHdr, rowIndex + 1) == SeenBefore(data, rollHdr, rowIndex) + {rollVal};
    }
  }

  /** `data.forEach((row, rowIndex) => ...)`: every row in order, with the roll numbers seen so far. */
  method CheckRows(headerMap: map<FieldKey, string>, data: seq<Row>)
    returns (issues: seq<string>, warnings: seq<string>, invalids: seq<CellRef>)
    ensures issues == ErrorsUpTo(headerMap, data, |data|)
    ensures warnings == WarningsUpTo(data, |data|)
    ensures invalids == InvalidsUpTo(headerMap, data, |data|)
  {
    issues, warnings, invalids := [], [], [];
    var seenRollNos: set<Cell> := {};
    for rowIndex := 0 to |data|
      invariant issues == ErrorsUpTo(headerMap, data, rowIndex)
      invariant warnings == WarningsUpTo(data, rowIndex)
      invariant invalids == InvalidsUpTo(headerMap, data, rowIndex)
      invariant Mapped(headerMap, RollNo) ==> seenRollNos == SeenBefore(data, headerMap[RollNo], rowIndex)
    {
      var row := data[rowIndex];
      var rowIssues, rowInvalids := CheckRequiredCells(headerMap, row, rowIndex);
      var duplicateIssues;
      duplicateIssues, seenRollNos := CheckRollNumber(headerMap, data, rowIndex, seenRollNos);
      var rowWarnings, dynamicInvalids := CheckDynamicCells(row, rowIndex);
      issues := issues + (rowIssues + duplicateIssues);
      warnings := warnings + rowWarnings;
      invalids := invalids + (rowInvalids + dynamicInvalids);
    }
  }

  /** validateAndPreview's computation: the header map, the missing columns, then every row in order. */
  method Validate(data: seq<Row>) returns (report: Report)
    ensures report == ExpectedReport(data)
  {
    if |data| == 0 {
      return NoData;
    }
    var rawHeaders := data[0].columns;
    var headerMap := BuildHeaderMap(rawHeaders, RequiredNormalized, Aliases);
    var rowIssues, optionalWarnings, invalids := CheckRows(headerMap, data);
    var requiredIssues := MissingColumnsIssues(headerMap) + rowIssues;
    report := Checked(requiredIssues, optionalWarnings, invalids, data[..Min(100, |data|)], rawHeaders);
  }

  // ---------------------------------------------------------------------------
  // Properties of the check
  // ---------------------------------------------------------------------------

  /** A required key mapped to `field` whose cell on the row is empty. */
  predicate RequiredEmptyAt(hm: map<FieldKey, string>, row: Row, field: string) {
    exists k | k in RequiredNormalized :: Mapped(hm, k) && hm[k] == field && IsEmptyRequired(Get(row, field))
  }

  lemma {:induction false} DynamicInvalidsMembers(row: Row, rowIndex: nat, n: nat, c: CellRef)
    requires n <= |row.columns|
    ensures c in DynamicInvalids(row, rowIndex, n) <==>
      c.row == rowIndex && c.field in row.columns[..n] && BlankPatternCell(row, c.field)
  {
    if n > 0 {
      DynamicInvalidsMembers(row, rowIndex, n - 1, c);
      assert row.columns[..n] == row.columns[..n - 1] + [row.columns[n - 1]];
    }
  }

  /** A row's first n keys raise as many warnings as they mark cells, and none exactly when none of them is a blank pattern column. */
  lemma {:induction false} DynamicWarningsCount(row: Row, rowIndex: nat, n: nat)
    requires n <= |row.columns|
    ensures |DynamicWarnings(row, rowIndex, n)| == |DynamicInvalids(row, rowIndex, n)|
    ensures DynamicWarnings(row, rowIndex, n) == [] <==> forall j | 0 <= j < n :: !BlankPatternCell(row, row.columns[j])
  {
    if n > 0 {
      DynamicWarningsCount(row, rowIndex, n - 1);
      var col := row.columns[n - 1];
      var wp, wl := DynamicWarnings(row, rowIndex, n - 1), ColumnWarning(row, rowIndex, col);
      var ip, il := DynamicInvalids(row, rowIndex, n - 1), ColumnMark(row, rowIndex, col);
      assert DynamicWarnings(row, rowIndex, n) == wp + wl;
      assert DynamicInvalids(row, rowIndex, n) == ip + il;
      assert |wp + wl| == |wp| + |wl| && |ip + il| == |ip| + |il|;
      assert |wl| == |il| && (wl == [] <==> !BlankPatternCell(row, col));
      if wp == [] && wl == [] {
        forall j | 0 <= j < n ensures !BlankPatternCell(row, row.columns[j]) {
          if j == n - 1 {
            assert row.columns[j] == col;
          }
        }
      }
    }
  }

  lemma {:induction false} RequiredInvalidsMembers(hm: map<FieldKey, string>, row: Row, rowIndex: nat, q: nat, c: CellRef)
    requires q <= |RequiredNormalized|
    ensures c in RequiredInvalids(hm, row, rowIndex, q) <==>
      c.row == rowIndex && exists k | k in RequiredNormalized[..q] :: Mapped(hm, k) && hm[k] == c.field && IsEmptyRequired(Get(row, c.field))
  {
    if q > 0 {
      RequiredInvalidsMembers(hm, row, rowIndex, q - 1, c);
      assert RequiredNormalized[..q] == RequiredNormalized[..q - 1] + [RequiredNormalized[q - 1]];
    }
  }

  /** Whether a required key has an empty cell on the row. */
  predicate KeyCellEmpty(hm: map<FieldKey, string>, row: Row, k: FieldKey) {
    Mapped(hm, k) && IsEmptyRequired(Get(row, hm[k]))
  }

  /** A row's first q required keys raise as many errors as they mark cells, and none exactly when none of them has an empty cell. */
  lemma {:induction false} RequiredErrorsCount(hm: map<FieldKey, string>, row: Row, rowIndex: nat, q: nat)
    requires q <= |RequiredNormalized|
    ensures |RequiredErrors(hm, row, rowIndex, q)| == |RequiredInvalids(hm, row, rowIndex, q)|
    ensures RequiredErrors(hm, row, rowIndex, q) == [] <==> forall j | 0 <= j < q :: !KeyCellEmpty(hm, row, RequiredNormalized[j])
  {
    if q > 0 {
      RequiredErrorsCount(hm, row, rowIndex, q - 1);
      var k := RequiredNormalized[q - 1];
      assert RequiredErrors(hm, row, rowIndex, q) == RequiredErrors(hm, row, rowIndex, q - 1) + KeyErrors(hm, row, rowIndex, k);
      assert RequiredInvalids(hm, row, rowIndex, q) == RequiredInvalids(hm, row, rowIndex, q - 1) + KeyInvalids(hm, row, rowIndex, k);
      assert |KeyErrors(hm, row, rowIndex, k)| == |KeyInvalids(hm, row, rowIndex, k)|;
      assert KeyErrors(hm, row, rowIndex, k) == [] <==> !KeyCellEmpty(hm, row, k);
    }
  }

  /** No mapped required key has an empty cell on the row. */
  predicate RequiredCellsFilled(hm: map<FieldKey, string>, row: Row) {
    forall k | k in RequiredNormalized :: !KeyCellEmpty(hm, row, k)
  }

  lemma RowRequiredErrorsEmpty(hm: map<FieldKey, string>, row: Row, rowIndex: nat)
    ensures RequiredErrors(hm, row, rowIndex, |RequiredNormalized|) == [] <==> RequiredCellsFilled(hm, row)
  {
    RequiredErrorsCount(hm, row, rowIndex, |RequiredNormalized|);
    if !RequiredCellsFilled(hm, row) {
      var k :| k in RequiredNormalized && KeyCellEmpty(hm, row, k);
      var j :| 0 <= j < |RequiredNormalized| && RequiredNormalized[j] == k;
    }
  }

  /**
   * invalidCells marks a cell exactly when its row is among those checked and
   * the cell is either under a mapped required header and empty, or under a
   * pattern column of the row and blank.
   */
  lemma {:induction false} InvalidsUpToMembers(hm: map<FieldKey, string>, data: seq<Row>, n: nat, c: CellRef)
    requires n <= |data|
    ensures c in InvalidsUpTo(hm, data, n) <==>
      c.row < n && (RequiredEmptyAt(hm, data[c.row], c.field) ||
                    (c.field in data[c.row].columns && BlankPatternCell(data[c.row], c.field)))
  {
    if n > 0 {
      InvalidsUpToMembers(hm, data, n - 1, c);
      RowInvalidsMembers(hm, data[n - 1], n - 1, c);
      assert InvalidsUpTo(hm, data, n) == InvalidsUpTo(hm, data, n - 1) + RowInvalids(hm, data[n - 1], n - 1);
    }
  }

  /** The cells one row marks: its required cells left empty and its blank pattern cells. */
  lemma RowInvalidsMembers(hm: map<FieldKey, string>, row: Row, i: nat, c: CellRef)
    ensures c in RowInvalids(hm, row, i) <==>
      c.row == i && (RequiredEmptyAt(hm, row, c.field) || (c.field in row.columns && BlankPatternCell(row, c.field)))
  {
    RequiredInvalidsMembers(hm, row, i, |RequiredNormalized|, c);
    DynamicInvalidsMembers(row, i, |row.columns|, c);
    assert RequiredNormalized[..|RequiredNormalized|] == RequiredNormalized;
    assert row.columns[..|row.columns|] == row.columns;
  }

  /** A row raises no error exactly when its required cells are filled and its roll number is new. */
  lemma RowErrorsEmpty(hm: map<FieldKey, string>, data: seq<Row>, r: nat)
    requires r < |data|
    ensures RowErrors(hm, data, r) == [] <==> RequiredCellsFilled(hm, data[r]) && !IsDuplicateRow(hm, data, r)
  {
    RowRequiredErrorsEmpty(hm, data[r], r);
  }

  /** None of the first n rows raises an error. */
  predicate RowsClean(hm: map<FieldKey, string>, data: seq<Row>, n: nat)
    requires n <= |data|
  {
    forall r | 0 <= r < n :: RowErrors(hm, data, r) == []
  }

  /** The rows raise no error exactly when no single row does. */
  lemma {:induction false} ErrorsUpToEmpty(hm: map<FieldKey, string>, data: seq<Row>, n: nat)
    requires n <= |data|
    ensures ErrorsUpTo(hm, data, n) == [] <==> RowsClean(hm, data, n)
  {
    if n > 0 {
      ErrorsUpToEmpty(hm, data, n - 1);
      var prev, last := ErrorsUpTo(hm, data, n - 1), RowErrors(hm, data, n - 1);
      assert ErrorsUpTo(hm, data, n) == prev + last;
      assert |prev + last| == |prev| + |last|;
      if RowsClean(hm, data, n - 1) && last == [] {
        forall r | 0 <= r < n ensures RowErrors(hm, data, r) == [] {
          if r < n - 1 {
            assert RowErrors(hm, data, r) == [];
          }
        }
      }
    }
  }

  /** No row of a pattern column is blank. */
  predicate NoBlankPatternCells(data: seq<Row>, n: nat)
    requires n <= |data|
  {
    forall r, j | 0 <= r < n && 0 <= j < |data[r].columns| :: !BlankPatternCell(data[r], data[r].columns[j])
  }

  /** The rows raise no warning exactly when no row has a blank pattern column. */
  lemma {:induction false} WarningsUpToEmpty(data: seq<Row>, n: nat)
    requires n <= |data|
    ensures WarningsUpTo(data, n) == [] <==> NoBlankPatternCells(data, n)
  {
    if n > 0 {
      WarningsUpToEmpty(data, n - 1);
      var row := data[n - 1];
      DynamicWarningsCount(row, n - 1, |row.columns|);
      var prev, last := WarningsUpTo(data, n - 1), RowWarnings(row, n - 1);
      assert WarningsUpTo(data, n) == prev + last;
      assert |prev + last| == |prev| + |last|;
      if NoBlankPatternCells(data, n - 1) && last == [] {
        forall r, j | 0 <= r < n && 0 <= j < |data[r].columns| ensures !BlankPatternCell(data[r], data[r].columns[j]) {
          if r == n - 1 {
            assert data[r] == row;
          }
        }
      }
      if !NoBlankPatternCells(data, n - 1) {
        assert !NoBlankPatternCells(data, n);
      }
    }
  }

  /** The roll numbers under `rollHdr` of the first n rows are pairwise different. */
  predicate DistinctRollNumbers(data: seq<Row>, rollHdr: string, n: nat)
    requires n <= |data|
  {
    forall i, j | 0 <= i < j < n :: Get(data[i], rollHdr) != Get(data[j], rollHdr)
  }

  /** No row of the first n is reported as a duplicate exactly when their roll numbers are pairwise different. */
  lemma NoDuplicateRowsIffDistinct(hm: map<FieldKey, string>, data: seq<Row>, n: nat)
    requires n <= |data| && Mapped(hm, RollNo)
    ensures (forall r | 0 <= r < n :: !IsDuplicateRow(hm, data, r)) <==> DistinctRollNumbers(data, hm[RollNo], n)
  {
    var h := hm[RollNo];
    if forall r | 0 <= r < n :: !IsDuplicateRow(hm, data, r) {
      forall i, j | 0 <= i < j < n ensures Get(data[i], h) != Get(data[j], h) {
        assert !IsDuplicateRow(hm, data, j);
        assert Get(data[i], h) in SeenBefore(data, h, j);
      }
    }
    if !(forall r | 0 <= r < n :: !IsDuplicateRow(hm, data, r)) {
      var r :| 0 <= r < n && IsDuplicateRow(hm, data, r);
      var i :| 0 <= i < r && Get(data[i], h) == Get(data[r], h);
    }
  }

  /** The number of rows reported as duplicates among the first n. */
  function DuplicateCount(hm: map<FieldKey, string>, data: seq<Row>, n: nat): nat
    requires n <= |data|
  {
    if n == 0 then 0 else DuplicateCount(hm, data, n - 1) + (if IsDuplicateRow(hm, data, n - 1) then 1 else 0)
  }

  /** Every row either brings a roll number not seen before or is reported as a duplicate, so the duplicates are the rows beyond the distinct values. */
  lemma {:induction false} DuplicateCountIsSurplus(hm: map<FieldKey, string>, data: seq<Row>, n: nat)
    requires n <= |data| && Mapped(hm, RollNo)
    ensures DuplicateCount(hm, data, n) + |SeenBefore(data, hm[RollNo], n)| == n
  {
    var h := hm[RollNo];
    if n == 0 {
      assert SeenBefore(data, h, 0) == {};
    } else {
      DuplicateCountIsSurplus(hm, data, n - 1);
      var v := Get(data[n - 1], h);
      assert SeenBefore(data, h, n) == SeenBefore(data, h, n - 1) + {v};
    }
  }

  /** On one row, every error but the duplicate one comes with an invalid-cell mark, and so does every warning. */
  lemma RowFindingsBalance(hm: map<FieldKey, string>, data: seq<Row>, r: nat)
    requires r < |data|
    ensures |RowInvalids(hm, data[r], r)| + (if IsDuplicateRow(hm, data, r) then 1 else 0)
         == |RowErrors(hm, data, r)| + |RowWarnings(data[r], r)|
  {
    RequiredErrorsCount(hm, data[r], r, |RequiredNormalized|);
    DynamicWarningsCount(data[r], r, |data[r].columns|);
  }

  /** Row n - 1 keeps the balance of the rows before it: what it adds on each side is equal. */
  lemma BalanceStep(hm: map<FieldKey, string>, data: seq<Row>, n: nat)
    requires 0 < n <= |data|
    ensures |InvalidsUpTo(hm, data, n)| + DuplicateCount(hm, data, n) - |ErrorsUpTo(hm, data, n)| - |WarningsUpTo(data, n)|
         == |InvalidsUpTo(hm, data, n - 1)| + DuplicateCount(hm, data, n - 1) - |ErrorsUpTo(hm, data, n - 1)| - |WarningsUpTo(data, n - 1)|
  {
    RowFindingsBalance(hm, data, n - 1);
  }

  /** Over the first n rows, the marks plus the duplicate rows balance the errors plus the warnings. */
  lemma {:induction false} FindingsBalance(hm: map<FieldKey, string>, data: seq<Row>, n: nat)
    requires n <= |data|
    ensures |InvalidsUpTo(hm, data, n)| + DuplicateCount(hm, data, n) == |ErrorsUpTo(hm, data, n)| + |WarningsUpTo(data, n)|
  {
    if n > 0 {
      FindingsBalance(hm, data, n - 1);
      BalanceStep(hm, data, n);
    }
  }

  /**
   * On a non-empty sheet the upload may go ahead without a blocking error
   * exactly when every required column is present and no row has an error;
   * it raises no warning exactly when no pattern cell is blank; and the
   * preview holds the first hundred rows, at most.
   */
  lemma ReportVerdict(data: seq<Row>)
    requires data != []
    ensures var hm := HeaderMapOf(data[0].columns);
      var report := ExpectedReport(data);
      report.Checked? &&
      (report.errors == [] <==> (forall k | k in RequiredNormalized :: Mapped(hm, k)) && RowsClean(hm, data, |data|)) &&
      (report.warnings == [] <==> NoBlankPatternCells(data, |data|)) &&
      |report.preview| == Min(100, |data|) &&
      report.headers == data[0].columns
  {
    var hm := HeaderMapOf(data[0].columns);
    MissingColumnsCount(hm);
    ErrorsUpToEmpty(hm, data, |data|);
    WarningsUpToEmpty(data, |data|);
  }

  /** The report marks a cell exactly when the cell is a required one left empty or a blank pattern cell. */
  lemma ReportInvalidCells(data: seq<Row>, c: CellRef)
    requires data != []
    ensures var hm := HeaderMapOf(data[0].columns);
      c in ExpectedReport(data).invalids <==>
        c.row < |data| && (RequiredEmptyAt(hm, data[c.row], c.field) ||
                           (c.field in data[c.row].columns && BlankPatternCell(data[c.row], c.field)))
  {
    InvalidsUpToMembers(HeaderMapOf(data[0].columns), data, |data|, c);
  }
}
