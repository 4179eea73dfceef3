/**
 * validateExcelHeaders: checks a sheet's header row against nine required
 * names, matched exactly, and ten shapes that other headers may take. It
 * throws on the first problem found; the throw is a Failure here.
 */
module FileValidation {
  import opened Wrappers
  import opened JsString
  import opened SheetData

  /** What the function throws: a TypeError from calling trim on a non-string, or an Error with a message. */
  datatype HeaderError = TypeError | Rejected(message: string)

  const RequiredHeaders: seq<string> := [
    "Name", "Roll No", "Batch", "Mother Name", "Father Name",
    "Father Contact No.", "Mother Contact No.", "Students Contact No.", "Strength"
  ]

  const MissingPrefix := "\U{274C} Missing required headers: "
  const UnexpectedPrefix := "\U{274C} Unexpected headers found: "

  // ---------------------------------------------------------------------------
  // Reading one header cell: (h || "").trim()
  // ---------------------------------------------------------------------------

  /** Whether JavaScript treats the cell value as false. */
  predicate IsFalsy(h: Cell) {
    match h
    case Undefined => true
    case Text(s) => s == ""
    case Number(t) => t == "0" || t == "NaN"
    case Boolean(b) => !b
  }

  /** A falsy cell reads as "", a string is trimmed, and any other value has no trim to call. */
  function HeaderText(h: Cell): (r: Result<string, HeaderError>)
    ensures r.Success? <==> IsFalsy(h) || h.Text?
    ensures r.Success? && h.Text? ==> r.value == Trim(h.s)
    ensures r.Success? && !h.Text? ==> r.value == ""
    ensures r.Failure? ==> r.error == TypeError
  {
    if IsFalsy(h) then Success("")
    else if h.Text? then Success(Trim(h.s))
    else Failure(TypeError)
  }

  /** Whether every cell of the row can be read. */
  predicate AllReadable(row: seq<Cell>) {
    forall i | 0 <= i < |row| :: HeaderText(row[i]).Success?
  }

  /** headersRow.map(...): every cell read in turn; any unreadable cell makes the whole map throw a TypeError. */
  function HeaderTexts(row: seq<Cell>): (r: Result<seq<string>, HeaderError>)
    ensures r.Success? <==> AllReadable(row)
    ensures r.Success? ==> |r.value| == |row|
    ensures r.Failure? ==> r.error == TypeError
  {
    if AllReadable(row) then Success(seq(|row|, i requires 0 <= i < |row| => HeaderText(row[i]).value))
    else Failure(TypeError)
  }

  // ---------------------------------------------------------------------------
  // The ten allowed shapes, each an anchored regular expression without flags
  // ---------------------------------------------------------------------------

  predicate Letters1(s: string) { |s| >= 1 && AllLetters(s) }

  /** `.+` anchored at the end: at least one character, none a line terminator. */
  predicate AnyRest(s: string) {
    |s| >= 1 && forall i | 0 <= i < |s| :: !IsLineTerminator(s[i])
  }

  predicate HasPrefix(s: string, p: string) { |p| <= |s| && s[..|p|] == p }

  /** ^Attendance_[A-Za-z]+(_|__)?[PA]$ */
  predicate AttendanceMark(s: string) {
    HasPrefix(s, "Attendance_") && |s| >= 13 && s[|s| - 1] in {'P', 'A'} &&
    var m := s[11..|s| - 1];
    Letters1(m)
    || (m[|m| - 1] == '_' && Letters1(m[..|m| - 1]))
    || (|m| >= 3 && m[|m| - 2..] == "__" && Letters1(m[..|m| - 2]))
  }

  /** ^Attendance_[A-Za-z]+$ */
  predicate AttendanceName(s: string) {
    HasPrefix(s, "Attendance_") && Letters1(s[11..])
  }

  /** ^Attendance_[A-Za-z]+_Per$ */
  predicate AttendancePercent(s: string) {
    HasPrefix(s, "Attendance_") && |s| >= 16 && s[|s| - 4..] == "_Per" && Letters1(s[11..|s| - 4])
  }

  /** ^<prefix>.+$ */
  predicate PrefixThenAny(s: string, prefix: string) {
    HasPrefix(s, prefix) && AnyRest(s[|prefix|..])
  }

  predicate IsCourseChar(c: char) {
    IsAsciiLetter(c) || c in {' ', '.', '_', '(', ')', '+', '-'}
  }

  /** ^[A-Za-z ._()+-]+_(CR|OD|CA|HW)$ */
  predicate CourseWork(s: string) {
    |s| >= 4 && s[|s| - 3] == '_' && s[|s| - 2..] in {"CR", "OD", "CA", "HW"} &&
    forall i | 0 <= i < |s| - 3 :: IsCourseChar(s[i])
  }

  /** allowedHeaderPatterns.some((pattern) => pattern.test(header)) */
  predicate MatchesAllowedPattern(h: string) {
    AttendanceMark(h) || AttendanceName(h) || AttendancePercent(h)
    || PrefixThenAny(h, "Result_") || PrefixThenAny(h, "Board_Result_")
    || PrefixThenAny(h, "JEE_Advanced_Result_")
    || PrefixThenAny(h, "JEE_Advanced_Paper_1_Result_")
    || PrefixThenAny(h, "JEE_Advanced_Paper_2_Result_")
    || PrefixThenAny(h, "SubjectiveResult_")
    || CourseWork(h)
  }

  /** A blank header cell can never pass as an allowed extra column. */
  lemma NoPatternMatchesEmpty()
    ensures !MatchesAllowedPattern("")
  {
  }

  /** Header shapes the sheets use, each accepted by its pattern. */
  lemma SampleHeadersAllowed()
    ensures AttendanceMark("Attendance_Jan_P") && AttendanceMark("Attendance_JanA")
    ensures AttendancePercent("Attendance_Jan_Per") && AttendanceName("Attendance_Jan")
    ensures CourseWork("Physics_CR")
  {
    assert "Attendance_Jan_P"[..11] == "Attendance_";
    assert "Attendance_JanA"[..11] == "Attendance_";
    assert "Attendance_Jan_Per"[..11] == "Attendance_";
    assert "Attendance_Jan"[..11] == "Attendance_";
    assert "Attendance_Jan_P"[11..15] == "Jan_";
    assert "Attendance_Jan_Per"[14..] == "_Per";
    assert "Physics_CR"[8..] == "CR";
  }

  // ---------------------------------------------------------------------------
  // The two filters and the decision
  // ---------------------------------------------------------------------------

  /** requiredHeaders.filter((header) => !headersInFile.includes(header)): the required names absent from the file, in required order. */
  function MissingHeaders(inFile: seq<string>, required: seq<string>): seq<string>
    decreases |required|
  {
    if required == [] then []
    else (if required[0] in inFile then [] else [required[0]]) + MissingHeaders(inFile, required[1..])
  }

  lemma {:induction false} MissingHeadersMembers(inFile: seq<string>, required: seq<string>, h: string)
    ensures h in MissingHeaders(inFile, required) <==> h in required && h !in inFile
    decreases |required|
  {
    if required != [] {
      MissingHeadersMembers(inFile, required[1..], h);
      assert required == [required[0]] + required[1..];
    }
  }

  /** The filter keeps required-list order: it distributes over concatenation. */
  lemma {:induction false} MissingHeadersAppend(inFile: seq<string>, a: seq<string>, b: seq<string>)
    ensures MissingHeaders(inFile, a + b) == MissingHeaders(inFile, a) + MissingHeaders(inFile, b)
    decreases |a|
  {
    if a != [] {
      assert (a + b)[1..] == a[1..] + b;
      MissingHeadersAppend(inFile, a[1..], b);
    } else {
      assert a + b == b;
    }
  }

  /** A header is unexpected when it is neither a required name nor of an allowed shape. */
  predicate IsUnexpected(h: string, required: seq<string>) {
    h !in required && !MatchesAllowedPattern(h)
  }

  /** headersInFile.filter(...): the unexpected headers, in file order, repeats kept. */
  function UnexpectedHeaders(inFile: seq<string>, required: seq<string>): seq<string>
    decreases |inFile|
  {
    if inFile == [] then []
    else (if IsUnexpected(inFile[0], required) then [inFile[0]] else []) + UnexpectedHeaders(inFile[1..], required)
  }

  lemma {:induction false} UnexpectedHeadersMembers(inFile: seq<string>, required: seq<string>, h: string)
    ensures h in UnexpectedHeaders(inFile, required) <==> h in inFile && IsUnexpected(h, required)
    decreases |inFile|
  {
    if inFile != [] {
      UnexpectedHeadersMembers(inFile[1..], required, h);
      assert inFile == [inFile[0]] + inFile[1..];
    }
  }

  /** The filter keeps file order: it distributes over concatenation. */
  lemma {:induction false} UnexpectedHeadersAppend(a: seq<string>, b: seq<string>, required: seq<string>)
    ensures UnexpectedHeaders(a + b, required) == UnexpectedHeaders(a, required) + UnexpectedHeaders(b, required)
    decreases |a|
  {
    if a != [] {
      assert (a + b)[1..] == a[1..] + b;
      UnexpectedHeadersAppend(a[1..], b, required);
    } else {
      assert a + b == b;
    }
  }

  /** The check on already trimmed headers: missing names first, then unexpected ones. */
  function CheckHeaders(inFile: seq<string>, required: seq<string>): Result<(), HeaderError> {
    var missing := MissingHeaders(inFile, required);
    if |missing| > 0 then Failure(Rejected(MissingPrefix + Join(missing, ", ")))
    else
      var unexpected := UnexpectedHeaders(inFile, required);
      if |unexpected| > 0 then Failure(Rejected(UnexpectedPrefix + Join(unexpected, ", ")))
      else Success(())
  }

  /** validateExcelHeaders on a header row. */
  function ValidateExcelHeaders(headersRow: seq<Cell>): (r: Result<(), HeaderError>)
    ensures HeaderTexts(headersRow).Failure? ==> r == Failure(TypeError)
  {
    var inFile := HeaderTexts(headersRow);
    if inFile.Failure? then Failure(inFile.error)
    else
      CheckHeaders(inFile.value, RequiredHeaders)
  }

  // ---------------------------------------------------------------------------
  // What the check promises
  // ---------------------------------------------------------------------------

  /** The header row passes exactly when every required name is present and every other header has an allowed shape. */
  lemma CheckHeadersPasses(inFile: seq<string>, required: seq<string>)
    ensures CheckHeaders(inFile, required).Success? <==>
      (forall r | r in required :: r in inFile) &&
      (forall h | h in inFile && h !in required :: MatchesAllowedPattern(h))
  {
    var missing := MissingHeaders(inFile, required);
    var unexpected := UnexpectedHeaders(inFile, required);
    if missing != [] {
      MissingHeadersMembers(inFile, required, missing[0]);
    } else {
      forall r | r in required ensures r in inFile {
        MissingHeadersMembers(inFile, required, r);
      }
      if unexpected != [] {
        UnexpectedHeadersMembers(inFile, required, unexpected[0]);
      } else {
        forall h | h in inFile && h !in required ensures MatchesAllowedPattern(h) {
          UnexpectedHeadersMembers(inFile, required, h);
        }
      }
    }
  }

  /** While a required name is missing, the error lists the missing names and nothing about unexpected headers. */
  lemma MissingReportedFirst(inFile: seq<string>, required: seq<string>, r: string)
    requires r in required && r !in inFile
    ensures CheckHeaders(inFile, required) == Failure(Rejected(MissingPrefix + Join(MissingHeaders(inFile, required), ", ")))
  {
    MissingHeadersMembers(inFile, required, r);
  }

  /** With nothing missing, the error lists every unexpected header, in file order. */
  lemma UnexpectedReportedTogether(inFile: seq<string>, required: seq<string>, h: string)
    requires forall r | r in required :: r in inFile
    requires h in inFile && IsUnexpected(h, required)
    ensures CheckHeaders(inFile, required) == Failure(Rejected(UnexpectedPrefix + Join(UnexpectedHeaders(inFile, required), ", ")))
  {
    var missing := MissingHeaders(inFile, required);
    if missing != [] {
      MissingHeadersMembers(inFile, required, missing[0]);
    }
    UnexpectedHeadersMembers(inFile, required, h);
  }

  /** A blank header is always unexpected: once nothing is missing, the row is rejected. */
  lemma BlankHeaderRejected(inFile: seq<string>, required: seq<string>)
    requires "" in inFile && "" !in required
    requires forall r | r in required :: r in inFile
    ensures CheckHeaders(inFile, required).Failure?
    ensures "" in UnexpectedHeaders(inFile, required)
  {
    NoPatternMatchesEmpty();
    UnexpectedHeadersMembers(inFile, required, "");
    UnexpectedReportedTogether(inFile, required, "");
  }

  /** Repeating a required header changes nothing: a row that passed still passes. */
  lemma RepeatedRequiredHeaderPasses(inFile: seq<string>, required: seq<string>, r: string)
    requires CheckHeaders(inFile, required).Success?
    requires r in required
    ensures CheckHeaders(inFile + [r], required).Success?
  {
    CheckHeadersPasses(inFile, required);
    CheckHeadersPasses(inFile + [r], required);
  }

  /** Only the text each cell reads as matters: rows whose cells read alike get the same verdict. */
  lemma SameTextsSameVerdict(r1: seq<Cell>, r2: seq<Cell>)
    requires |r1| == |r2|
    requires forall i | 0 <= i < |r1| :: HeaderText(r1[i]) == HeaderText(r2[i])
    ensures ValidateExcelHeaders(r1) == ValidateExcelHeaders(r2)
  {
    assert AllReadable(r1) <==> AllReadable(r2);
    if AllReadable(r1) {
      assert HeaderTexts(r1).value == HeaderTexts(r2).value;
    }
  }

  lemma PaddedTrim(s: string)
    requires s != [] ==> !IsWhitespace(s[0]) && !IsWhitespace(s[|s| - 1])
    ensures Trim(" " + s + "\t") == s
  {
    assert AllWhitespace(" ") && AllWhitespace("\t");
    TrimPadded(" ", s, "\t");
  }

  /** A padded header cell reads as the same text as the bare one. */
  lemma PaddedHeaderText(s: string)
    requires s != [] ==> !IsWhitespace(s[0]) && !IsWhitespace(s[|s| - 1])
    ensures HeaderText(Text(" " + s + "\t")) == HeaderText(Text(s))
  {
    var padded := " " + s + "\t";
    PaddedTrim(s);
    PaddedNotFalsy(s);
    assert HeaderText(Text(padded)) == Success(s);
    BareHeaderText(s);
  }

  lemma BareHeaderText(s: string)
    requires s != [] ==> !IsWhitespace(s[0]) && !IsWhitespace(s[|s| - 1])
    ensures HeaderText(Text(s)) == Success(s)
  {
    if s == [] {
      assert IsFalsy(Text(s));
    } else {
      assert !IsFalsy(Text(s));
      TrimUnchanged(s);
      assert HeaderText(Text(s)) == Success(Trim(s));
    }
  }

  lemma PaddedNotFalsy(s: string)
    ensures HeaderText(Text(" " + s + "\t")) == Success(Trim(" " + s + "\t"))
  {
    assert (" " + s + "\t")[0] == ' ';
  }

  /** Replacing one cell by a cell that reads alike leaves the row's texts alike, cell by cell. */
  lemma ReplaceCellSameTexts(before: seq<Cell>, a: Cell, b: Cell, after: seq<Cell>)
    requires HeaderText(a) == HeaderText(b)
    ensures forall i | 0 <= i < |before + [a] + after| ::
      HeaderText((before + [a] + after)[i]) == HeaderText((before + [b] + after)[i])
  {
    var r1 := before + [a] + after;
    var r2 := before + [b] + after;
    forall i | 0 <= i < |r1| ensures HeaderText(r1[i]) == HeaderText(r2[i]) {
      if i < |before| {
        assert r1[i] == r2[i];
      } else if i > |before| {
        assert r1[i] == r2[i];
      }
    }
  }

  /** Comparisons are on trimmed text: padding a header with whitespace does not change the verdict. */
  lemma PaddingIgnored(before: seq<Cell>, s: string, after: seq<Cell>)
    requires s != [] ==> !IsWhitespace(s[0]) && !IsWhitespace(s[|s| - 1])
    ensures ValidateExcelHeaders(before + [Text(" " + s + "\t")] + after) ==
            ValidateExcelHeaders(before + [Text(s)] + after)
  {
    PaddedHeaderText(s);
    ReplaceCellSameTexts(before, Text(" " + s + "\t"), Text(s), after);
    SameTextsSameVerdict(before + [Text(" " + s + "\t")] + after, before + [Text(s)] + after);
  }
}
