/**
 * The header half of the upload form's spreadsheet check
 * (src/Components/UploadForm.jsx): header normalisation, the alias table of
 * the required columns, the header map that picks, for each required key, the
 * file's first header standing for it, and the missing-columns error.
 */
module UploadHeaders {
  import opened Wrappers
  import opened JsString

  // ---------------------------------------------------------------------------
  // normalize
  // ---------------------------------------------------------------------------

  /** The characters normalize keeps: a-z and 0-9. */
  predicate IsNormalChar(c: char) { IsAsciiLower(c) || IsAsciiDigit(c) }

  /** What normalize leaves of one character: its lower-case form when that is in a-z or 0-9, else nothing. */
  function KeepChar(c: char): string {
    var l := ToLowerAscii(c);
    if IsNormalChar(l) then [l] else []
  }

  /** Lower-cases the text and removes every character outside a-z and 0-9. */
  function Normalize(s: string): (r: string)
    ensures forall i | 0 <= i < |r| :: IsNormalChar(r[i])
    ensures |r| <= |s|
    decreases |s|
  {
    if |s| == 0 then "" else Normalize(s[..|s| - 1]) + KeepChar(s[|s| - 1])
  }

  /** A character survives normalize exactly when it is an ASCII letter or digit. */
  lemma KeptChars(c: char)
    ensures KeepChar(c) != [] <==> IsAsciiAlnum(c)
  {
  }

  /** Normalize works character by character. */
  lemma {:induction false} NormalizeAppend(a: string, b: string)
    ensures Normalize(a + b) == Normalize(a) + Normalize(b)
    decreases |b|
  {
    if b == [] {
      assert a + b == a;
    } else {
      var ab := a + b;
      assert ab[..|ab| - 1] == a + b[..|b| - 1];
      assert ab[|ab| - 1] == b[|b| - 1];
      NormalizeAppend(a, b[..|b| - 1]);
    }
  }

  /** A string made only of a-z and 0-9 is its own normal form. */
  lemma {:induction false} NormalizeFixesNormalText(s: string)
    requires forall i | 0 <= i < |s| :: IsNormalChar(s[i])
    ensures Normalize(s) == s
    decreases |s|
  {
    if s != [] {
      NormalizeFixesNormalText(s[..|s| - 1]);
      assert s == s[..|s| - 1] + [s[|s| - 1]];
    }
  }

  /** Normalizing twice is normalizing once. */
  lemma NormalizeIdempotent(s: string)
    ensures Normalize(Normalize(s)) == Normalize(s)
  {
    NormalizeFixesNormalText(Normalize(s));
  }

  /** Texts that differ only in the case of letters normalize alike. */
  lemma {:induction false} NormalizeIgnoresCase(s: string, t: string)
    requires EqualsIgnoreCase(s, t)
    ensures Normalize(s) == Normalize(t)
    decreases |s|
  {
    if s != [] {
      var n := |s| - 1;
      assert EqualsIgnoreCase(s[..n], t[..n]) by {
        forall i | 0 <= i < n ensures ToLowerAscii(s[..n][i]) == ToLowerAscii(t[..n][i]) {
          assert s[..n][i] == s[i] && t[..n][i] == t[i];
        }
      }
      NormalizeIgnoresCase(s[..n], t[..n]);
      assert ToLowerAscii(s[n]) == ToLowerAscii(t[n]);
    }
  }

  /** Inserting a space or punctuation character anywhere does not change the normal form. */
  lemma NormalizeIgnoresPunctuation(a: string, c: char, b: string)
    requires !IsAsciiAlnum(c)
    ensures Normalize(a + [c] + b) == Normalize(a + b)
  {
    NormalizeAppend(a + [c], b);
    NormalizeAppend(a, b);
    KeptChars(c);
    assert (a + [c])[..|a|] == a;
  }

  predicate AllNormal(s: string) { forall i | 0 <= i < |s| :: IsNormalChar(s[i]) }

  /** A one-word spelling normalizes to its lower-case form. */
  lemma NormalizeWord(s: string, word: string)
    requires EqualsIgnoreCase(s, word) && AllNormal(word)
    ensures Normalize(s) == word
  {
    NormalizeIgnoresCase(s, word);
    NormalizeFixesNormalText(word);
  }

  /** A two-word spelling normalizes to its lower-case words run together. */
  lemma NormalizeTwoWords(s: string, first: string, second: string)
    requires EqualsIgnoreCase(s, first + " " + second) && AllNormal(first) && AllNormal(second)
    ensures Normalize(s) == first + second
  {
    NormalizeIgnoresCase(s, first + " " + second);
    NormalizeIgnoresPunctuation(first, ' ', second);
    assert first + " " + second == first + [' '] + second;
    NormalizeFixesNormalText(first + second);
  }

  // ---------------------------------------------------------------------------
  // The alias table and the required keys
  // ---------------------------------------------------------------------------

  /** The keys of the alias table; each is written in the file's messages by its normalized name. */
  datatype FieldKey =
    | Name | RollNo | Batch | Strength | MotherName | FatherName
    | StudentContactNumber | FatherContactNumber | MotherContactNumber

  function KeyText(k: FieldKey): string {
    match k
    case Name => "name"
    case RollNo => "rollno"
    case Batch => "batch"
    case Strength => "strength"
    case MotherName => "mothername"
    case FatherName => "fathername"
    case StudentContactNumber => "studentcontactnumber"
    case FatherContactNumber => "fathercontactnumber"
    case MotherContactNumber => "mothercontactnumber"
  }

  /** The alias table: the header spellings accepted for each key, preferred spelling first. */
  function Aliases(k: FieldKey): seq<string> {
    match k
    case Name => ["Name", "NAME", "Student Name"]
    case RollNo => ["ROLL NO", "Roll No", "Roll Number", "ROLLNO", "RollNo"]
    case Batch => ["Batch", "BATCH"]
    case Strength => ["Strength", "STRENGTH"]
    case MotherName => ["M_N", "Mother Name", "MotherName"]
    case FatherName => ["F_N", "Father Name", "FatherName"]
    case StudentContactNumber => ["Students Contact No.", "Student Contact No.", "StudentContactNo"]
    case FatherContactNumber => ["Father Contact No.", "Father Contact Number", "FatherContactNo"]
    case MotherContactNumber => ["Mother Contact No.", "Mother Contact Number", "MotherContactNo"]
  }

  /** The keys every upload must carry, in reporting order. */
  const RequiredNormalized: seq<FieldKey> := [Name, RollNo, Batch, Strength]

  /** `rawHeaders.map(normalize)`: the normal form of each header, in order. */
  function NormalizeAll(xs: seq<string>): (ys: seq<string>)
    ensures |ys| == |xs|
    decreases |xs|
  {
    if xs == [] then [] else NormalizeAll(xs[..|xs| - 1]) + [Normalize(xs[|xs| - 1])]
  }

  /** The i-th entry of the mapped list is the normal form of the i-th header. */
  lemma {:induction false} NormalizeAllIndex(xs: seq<string>, i: int)
    requires 0 <= i < |xs|
    ensures |NormalizeAll(xs)| == |xs| && NormalizeAll(xs)[i] == Normalize(xs[i])
    decreases |xs|
  {
    if i < |xs| - 1 {
      NormalizeAllIndex(xs[..|xs| - 1], i);
    }
  }

  lemma NormalizeAllSnoc(xs: seq<string>, x: string)
    ensures NormalizeAll(xs + [x]) == NormalizeAll(xs) + [Normalize(x)]
  {
    assert (xs + [x])[..|xs|] == xs;
  }

  /** Whether a header's normal form is the normal form of one of `aliases`. */
  predicate MatchesAlias(header: string, aliases: seq<string>) {
    Normalize(header) in NormalizeAll(aliases)
  }

  /** Whether a file header stands for a key: its normal form is the normal form of one of the key's aliases. */
  predicate MatchesKey(header: string, key: FieldKey) {
    MatchesAlias(header, Aliases(key))
  }

  // The spellings of the alias table, normalized one or two at a time so that
  // each table lemma below only puts the results together.

  lemma NameSpellings()
    ensures Normalize("Name") == "name" && Normalize("NAME") == "name"
  {
    NormalizeWord("Name", "name");
    NormalizeWord("NAME", "name");
  }

  lemma StudentNameSpelling()
    ensures Normalize("Student Name") == "studentname"
  {
    NormalizeTwoWords("Student Name", "student", "name");
  }

  lemma SpacedRollNoSpellings()
    ensures Normalize("ROLL NO") == "rollno" && Normalize("Roll No") == "rollno"
  {
    NormalizeTwoWords("ROLL NO", "roll", "no");
    NormalizeTwoWords("Roll No", "roll", "no");
  }

  lemma JoinedRollNoSpellings()
    ensures Normalize("ROLLNO") == "rollno" && Normalize("RollNo") == "rollno"
  {
    NormalizeWord("ROLLNO", "rollno");
    NormalizeWord("RollNo", "rollno");
  }

  lemma RollNumberSpelling()
    ensures Normalize("Roll Number") == "rollnumber"
  {
    NormalizeTwoWords("Roll Number", "roll", "number");
  }

  lemma BatchSpellings()
    ensures Normalize("Batch") == "batch" && Normalize("BATCH") == "batch"
  {
    NormalizeWord("Batch", "batch");
    NormalizeWord("BATCH", "batch");
  }

  lemma StrengthSpellings()
    ensures Normalize("Strength") == "strength" && Normalize("STRENGTH") == "strength"
  {
    NormalizeWord("Strength", "strength");
    NormalizeWord("STRENGTH", "strength");
  }

  /** The normalized aliases of the name key. */
  lemma NameAliasForms()
    ensures NormalizeAll(Aliases(Name)) == ["name", "name", "studentname"]
  {
    NameSpellings();
    StudentNameSpelling();
    NormalizeAllSnoc([], "Name");
    NormalizeAllSnoc(["Name"], "NAME");
    NormalizeAllSnoc(["Name", "NAME"], "Student Name");
    assert [] + ["Name"] == ["Name"];
    assert ["Name"] + ["NAME"] == ["Name", "NAME"];
    assert ["Name", "NAME"] + ["Student Name"] == Aliases(Name);
  }

  /** The normalized aliases of the roll-number key: every spelling but one meets in "rollno". */
  lemma RollNoAliasForms()
    ensures NormalizeAll(Aliases(RollNo)) == ["rollno", "rollno", "rollnumber", "rollno", "rollno"]
  {
    SpacedRollNoSpellings();
    RollNumberSpelling();
    JoinedRollNoSpellings();
    NormalizeAllSnoc([], "ROLL NO");
    NormalizeAllSnoc(["ROLL NO"], "Roll No");
    NormalizeAllSnoc(["ROLL NO", "Roll No"], "Roll Number");
    NormalizeAllSnoc(["ROLL NO", "Roll No", "Roll Number"], "ROLLNO");
    NormalizeAllSnoc(["ROLL NO", "Roll No", "Roll Number", "ROLLNO"], "RollNo");
    assert [] + ["ROLL NO"] == ["ROLL NO"];
    assert ["ROLL NO"] + ["Roll No"] == ["ROLL NO", "Roll No"];
    assert ["ROLL NO", "Roll No"] + ["Roll Number"] == ["ROLL NO", "Roll No", "Roll Number"];
    assert ["ROLL NO", "Roll No", "Roll Number"] + ["ROLLNO"] == ["ROLL NO", "Roll No", "Roll Number", "ROLLNO"];
    assert ["ROLL NO", "Roll No", "Roll Number", "ROLLNO"] + ["RollNo"] == Aliases(RollNo);
  }

  /** The normalized aliases of the batch key. */
  lemma BatchAliasForms()
    ensures NormalizeAll(Aliases(Batch)) == ["batch", "batch"]
  {
    BatchSpellings();
    NormalizeAllSnoc([], "Batch");
    NormalizeAllSnoc(["Batch"], "BATCH");
    assert [] + ["Batch"] == ["Batch"];
    assert ["Batch"] + ["BATCH"] == Aliases(Batch);
  }

  /** The normalized aliases of the strength key. */
  lemma StrengthAliasForms()
    ensures NormalizeAll(Aliases(Strength)) == ["strength", "strength"]
  {
    StrengthSpellings();
    NormalizeAllSnoc([], "Strength");
    NormalizeAllSnoc(["Strength"], "STRENGTH");
    assert [] + ["Strength"] == ["Strength"];
    assert ["Strength"] + ["STRENGTH"] == Aliases(Strength);
  }

  /** The normal forms a header may have to stand for a required key. */
  function RequiredForms(k: FieldKey): seq<string> {
    match k
    case Name => ["name", "studentname"]
    case RollNo => ["rollno", "rollnumber"]
    case Batch => ["batch"]
    case Strength => ["strength"]
    case _ => []
  }

  /** A header stands for a required key exactly when its normal form is one of that key's forms. */
  lemma MatchesRequiredKey(header: string, k: FieldKey)
    requires k in RequiredNormalized
    ensures MatchesKey(header, k) <==> Normalize(header) in RequiredForms(k)
  {
    match k
    case Name => NameAliasForms();
    case RollNo => RollNoAliasForms();
    case Batch => BatchAliasForms();
    case Strength => StrengthAliasForms();
  }

  /** The forms of different required keys are different. */
  lemma RequiredFormsDisjoint(k1: FieldKey, k2: FieldKey, n: string)
    requires k1 in RequiredNormalized && k2 in RequiredNormalized && k1 != k2
    ensures !(n in RequiredForms(k1) && n in RequiredForms(k2))
  {
  }

  /** No header stands for two different required keys: their alias sets normalize apart. */
  lemma RequiredAliasesDisjoint(header: string, k1: FieldKey, k2: FieldKey)
    requires k1 in RequiredNormalized && k2 in RequiredNormalized && k1 != k2
    ensures !(MatchesKey(header, k1) && MatchesKey(header, k2))
  {
    MatchesRequiredKey(header, k1);
    MatchesRequiredKey(header, k2);
    RequiredFormsDisjoint(k1, k2, Normalize(header));
  }

  /** A header that stands for a required key is never the empty string (so it is truthy). */
  lemma MatchingHeaderNonEmpty(header: string, key: FieldKey)
    requires key in RequiredNormalized && MatchesKey(header, key)
    ensures header != ""
  {
    MatchesRequiredKey(header, key);
    assert Normalize("") == "";
  }

  // ---------------------------------------------------------------------------
  // The header map
  // ---------------------------------------------------------------------------

  /** The first index whose entry is one of `wanted` (the inner loop with its `break`). */
  function FirstMatch(entries: seq<string>, wanted: seq<string>): (r: Option<nat>)
    ensures r.Some? ==> r.value < |entries| && entries[r.value] in wanted
    ensures r.Some? ==> forall j | 0 <= j < r.value :: entries[j] !in wanted
    ensures r.None? ==> forall j | 0 <= j < |entries| :: entries[j] !in wanted
    decreases |entries|
  {
    if entries == [] then None
    else if entries[0] in wanted then Some(0)
    else match FirstMatch(entries[1..], wanted)
      case None => None
      case Some(i) => Some(i + 1)
  }

  /** The header a key is mapped to: the first raw header whose normal form is one of the normalized aliases. */
  function HeaderFor(rawHeaders: seq<string>, aliases: seq<string>): Option<string> {
    match FirstMatch(NormalizeAll(rawHeaders), NormalizeAll(aliases))
    case None => None
    case Some(i) => Some(rawHeaders[i])
  }

  /** HeaderFor finds the first header that matches an alias, and finds none only when no header does. */
  lemma HeaderForFirst(rawHeaders: seq<string>, aliases: seq<string>)
    ensures HeaderFor(rawHeaders, aliases).None? <==>
      forall i | 0 <= i < |rawHeaders| :: !MatchesAlias(rawHeaders[i], aliases)
    ensures HeaderFor(rawHeaders, aliases).Some? ==> exists i | 0 <= i < |rawHeaders| ::
      HeaderFor(rawHeaders, aliases).value == rawHeaders[i] && MatchesAlias(rawHeaders[i], aliases) &&
      forall j | 0 <= j < i :: !MatchesAlias(rawHeaders[j], aliases)
  {
    var norm := NormalizeAll(rawHeaders);
    forall i | 0 <= i < |rawHeaders| ensures norm[i] == Normalize(rawHeaders[i]) {
      NormalizeAllIndex(rawHeaders, i);
    }
  }

  /** The header map built over the keys `keys`, one key after the other, from the alias table `table`. */
  function KeyMapping(rawHeaders: seq<string>, keys: seq<FieldKey>, table: FieldKey -> seq<string>): map<FieldKey, string>
    decreases |keys|
  {
    if keys == [] then map[]
    else
      var hm := KeyMapping(rawHeaders, keys[..|keys| - 1], table);
      var k := keys[|keys| - 1];
      match HeaderFor(rawHeaders, table(k))
      case None => hm
      case Some(h) => hm[k := h]
  }

  /** A key is in the map built over `keys` exactly when it is one of them and some header matches one of its aliases. */
  lemma {:induction false} KeyMappingLookup(rawHeaders: seq<string>, keys: seq<FieldKey>, table: FieldKey -> seq<string>, k: FieldKey)
    ensures k in KeyMapping(rawHeaders, keys, table) <==> k in keys && HeaderFor(rawHeaders, table(k)).Some?
    ensures k in KeyMapping(rawHeaders, keys, table) ==>
      KeyMapping(rawHeaders, keys, table)[k] == HeaderFor(rawHeaders, table(k)).value
    decreases |keys|
  {
    if keys != [] {
      var init := keys[..|keys| - 1];
      KeyMappingLookup(rawHeaders, init, table, k);
      assert keys == init + [keys[|keys| - 1]];
    }
  }

  /** The header map of a file: the required keys to the headers that stand for them. */
  function HeaderMapOf(rawHeaders: seq<string>): map<FieldKey, string> {
    KeyMapping(rawHeaders, RequiredNormalized, Aliases)
  }

  /**
   * A key is in the header map exactly when it is required and some header
   * stands for it, and it is mapped to the first such header in file order.
   */
  lemma HeaderMapLookup(rawHeaders: seq<string>, k: FieldKey)
    ensures k in HeaderMapOf(rawHeaders) <==>
      k in RequiredNormalized && exists i | 0 <= i < |rawHeaders| :: MatchesKey(rawHeaders[i], k)
    ensures k in HeaderMapOf(rawHeaders) ==> exists i | 0 <= i < |rawHeaders| ::
      HeaderMapOf(rawHeaders)[k] == rawHeaders[i] && MatchesKey(rawHeaders[i], k) &&
      forall j | 0 <= j < i :: !MatchesKey(rawHeaders[j], k)
  {
    KeyMappingLookup(rawHeaders, RequiredNormalized, Aliases, k);
    HeaderForFirst(rawHeaders, Aliases(k));
  }

  /** No two required keys are mapped to the same header. */
  lemma HeaderMapInjective(rawHeaders: seq<string>, k1: FieldKey, k2: FieldKey)
    requires k1 in HeaderMapOf(rawHeaders) && k2 in HeaderMapOf(rawHeaders) && k1 != k2
    ensures HeaderMapOf(rawHeaders)[k1] != HeaderMapOf(rawHeaders)[k2]
  {
    var hm := HeaderMapOf(rawHeaders);
    HeaderMapLookup(rawHeaders, k1);
    HeaderMapLookup(rawHeaders, k2);
    var i1 :| 0 <= i1 < |rawHeaders| && hm[k1] == rawHeaders[i1] && MatchesKey(rawHeaders[i1], k1);
    var i2 :| 0 <= i2 < |rawHeaders| && hm[k2] == rawHeaders[i2] && MatchesKey(rawHeaders[i2], k2);
    if hm[k1] == hm[k2] {
      RequiredAliasesDisjoint(rawHeaders[i1], k1, k2);
    }
  }

  /** `headerMap[k]` is truthy: the key is mapped to a non-empty header. */
  predicate Mapped(hm: map<FieldKey, string>, k: FieldKey) {
    k in hm && hm[k] != ""
  }

  /** Every key in the header map is mapped to a non-empty header, so the truthiness tests agree with membership. */
  lemma MappedIffPresent(rawHeaders: seq<string>, k: FieldKey)
    ensures Mapped(HeaderMapOf(rawHeaders), k) <==> k in HeaderMapOf(rawHeaders)
  {
    var hm := HeaderMapOf(rawHeaders);
    HeaderMapLookup(rawHeaders, k);
    if k in hm {
      var i :| 0 <= i < |rawHeaders| && hm[k] == rawHeaders[i] && MatchesKey(rawHeaders[i], k);
      MatchingHeaderNonEmpty(rawHeaders[i], k);
    }
  }

  /**
   * The loop that fills the header map: for each key of `keys`, the first
   * header whose normal form is one of the key's normalized aliases in
   * `table`. The form calls it with the required keys and the alias table.
   */
  method BuildHeaderMap(rawHeaders: seq<string>, keys: seq<FieldKey>, table: FieldKey -> seq<string>)
    returns (headerMap: map<FieldKey, string>)
    ensures headerMap == KeyMapping(rawHeaders, keys, table)
  {
    var normalizedHeaders := NormalizeAll(rawHeaders);
    headerMap := map[];
    for q := 0 to |keys|
      invariant headerMap == KeyMapping(rawHeaders, keys[..q], table)
    {
      var normKey := keys[q];
      var normAliases := NormalizeAll(table(normKey));
      assert keys[..q + 1][..q] == keys[..q];
      var i := 0;
      while i < |normalizedHeaders|
        invariant 0 <= i <= |normalizedHeaders|
        invariant forall j | 0 <= j < i :: normalizedHeaders[j] !in normAliases
      {
        if normalizedHeaders[i] in normAliases {
          assert FirstMatch(normalizedHeaders, normAliases) == Some(i);
          headerMap := headerMap[normKey := rawHeaders[i]];
          break;
        }
        i := i + 1;
      }
    }
    assert keys[..|keys|] == keys;
  }

  // ---------------------------------------------------------------------------
  // Missing required columns
  // ---------------------------------------------------------------------------

  /** `keys.filter((k) => !headerMap[k])`: the keys, in order, that the header map leaves unmapped. */
  function MissingKeys(hm: map<FieldKey, string>, keys: seq<FieldKey>): seq<FieldKey>
    decreases |keys|
  {
    if keys == [] then []
    else (if !Mapped(hm, keys[0]) then [keys[0]] else []) + MissingKeys(hm, keys[1..])
  }

  /** A key is reported missing exactly when it is one of the keys and is not mapped. */
  lemma {:induction false} MissingKeysMembers(hm: map<FieldKey, string>, keys: seq<FieldKey>, k: FieldKey)
    ensures k in MissingKeys(hm, keys) <==> k in keys && !Mapped(hm, k)
    decreases |keys|
  {
    if keys != [] {
      MissingKeysMembers(hm, keys[1..], k);
      assert keys == [keys[0]] + keys[1..];
    }
  }

  /** `HEADER_ALIASES[k]?.[0] || k`: the spelling a missing key is reported under. */
  function PreferredSpelling(k: FieldKey): string {
    var aliases := Aliases(k);
    if aliases != [] && aliases[0] != "" then aliases[0] else KeyText(k)
  }

  function PreferredSpellings(keys: seq<FieldKey>): (names: seq<string>)
    ensures |names| == |keys|
    decreases |keys|
  {
    if keys == [] then [] else [PreferredSpelling(keys[0])] + PreferredSpellings(keys[1..])
  }

  const MissingColumnsPrefix: string := "\U{274C} Missing required columns: "

  /** The errors about missing columns: one message naming every missing key, or none. */
  function MissingColumnsIssues(hm: map<FieldKey, string>): seq<string> {
    var missing := MissingKeys(hm, RequiredNormalized);
    if |missing| > 0 then [MissingColumnsPrefix + Join(PreferredSpellings(missing), ", ")] else []
  }

  function IfMissing(hm: map<FieldKey, string>, k: FieldKey): seq<FieldKey> {
    if Mapped(hm, k) then [] else [k]
  }

  /** The missing keys are reported in the order name, rollno, batch, strength. */
  lemma MissingRequiredKeys(hm: map<FieldKey, string>)
    ensures MissingKeys(hm, RequiredNormalized)
      == IfMissing(hm, Name) + IfMissing(hm, RollNo) + IfMissing(hm, Batch) + IfMissing(hm, Strength)
  {
    var r := RequiredNormalized;
    var r1, r2, r3: seq<FieldKey> := [RollNo, Batch, Strength], [Batch, Strength], [Strength];
    assert r[1..] == r1 && r1[1..] == r2 && r2[1..] == r3 && r3[1..] == [];
    MissingKeysCons(hm, r);
    MissingKeysCons(hm, r1);
    MissingKeysCons(hm, r2);
    MissingKeysCons(hm, r3);
    var a, b, c, d := IfMissing(hm, Name), IfMissing(hm, RollNo), IfMissing(hm, Batch), IfMissing(hm, Strength);
    assert MissingKeys(hm, r3) == d + [];
    assert a + (b + (c + (d + []))) == a + b + c + d;
  }

  /** The first key is reported, if it is missing, before the rest. */
  lemma MissingKeysCons(hm: map<FieldKey, string>, keys: seq<FieldKey>)
    requires keys != []
    ensures MissingKeys(hm, keys) == IfMissing(hm, keys[0]) + MissingKeys(hm, keys[1..])
  {
  }

  /** There is exactly one missing-columns error when some required key is unmapped, and none otherwise. */
  lemma MissingColumnsCount(hm: map<FieldKey, string>)
    ensures |MissingColumnsIssues(hm)| == if forall k | k in RequiredNormalized :: Mapped(hm, k) then 0 else 1
  {
    MissingRequiredKeys(hm);
  }

  /** Every key's preferred spelling is the first alias in its row of the table. */
  lemma PreferredSpellingIsFirstAlias(k: FieldKey)
    ensures PreferredSpelling(k) == Aliases(k)[0]
  {
  }

  /** The spellings the missing-columns message uses for the required keys. */
  lemma RequiredSpellings()
    ensures PreferredSpellings(RequiredNormalized) == ["Name", "ROLL NO", "Batch", "Strength"]
  {
    var r := RequiredNormalized;
    assert r[1..] == [RollNo, Batch, Strength];
    assert r[1..][1..] == [Batch, Strength];
    assert r[1..][1..][1..] == [Strength];
    assert r[1..][1..][1..][1..] == [];
  }
}
