/**
 * The per-report file name of the zip download (utils/handleDownloadAll.js):
 * `${rollNo}-${name}.pdf`, with every run of characters that file systems
 * refuse turned into one "_", then trimmed.
 */
module ReportFileName {
  import opened JsString

  /** The class `[\/\\:*?"<>| ]` of the replacement's regular expression. */
  predicate IsUnsafe(c: char) {
    c in {'/', '\\', ':', '*', '?', '"', '<', '>', '|', ' '}
  }

  predicate NoUnsafe(s: string) { forall i | 0 <= i < |s| :: !IsUnsafe(s[i]) }

  /** The text after the run of unsafe characters that `s` starts with. */
  function DropUnsafe(s: string): (r: string)
    ensures |r| <= |s| && r == s[|s| - |r|..]
    ensures forall i | 0 <= i < |s| - |r| :: IsUnsafe(s[i])
    ensures r != [] ==> !IsUnsafe(r[0])
    decreases |s|
  {
    if s != [] && IsUnsafe(s[0]) then DropUnsafe(s[1..]) else s
  }

  /** `.replace(/[\/\\:*?"<>| ]+/g, "_")`: each maximal run of unsafe characters becomes one "_". */
  function CollapseUnsafe(s: string): (r: string)
    ensures NoUnsafe(r)
    decreases |s|
  {
    if s == [] then []
    else if IsUnsafe(s[0]) then "_" + CollapseUnsafe(DropUnsafe(s))
    else [s[0]] + CollapseUnsafe(s[1..])
  }

  /** The name the report is stored under in the zip folder. */
  function SanitizedName(rollNo: string, name: string): string {
    Trim(CollapseUnsafe(rollNo + "-" + name + ".pdf"))
  }

  // ---------------------------------------------------------------------------
  // Properties
  // ---------------------------------------------------------------------------

  /** A name without unsafe characters is left alone by the replacement. */
  lemma {:induction false} CollapseKeepsSafeText(s: string)
    requires NoUnsafe(s)
    ensures CollapseUnsafe(s) == s
    decreases |s|
  {
    if s != [] {
      CollapseKeepsSafeText(s[1..]);
    }
  }

  /** Safe text passes through unchanged, in order, before whatever follows. */
  lemma {:induction false} CollapseSafePrefix(a: string, b: string)
    requires NoUnsafe(a)
    ensures CollapseUnsafe(a + b) == a + CollapseUnsafe(b)
    decreases |a|
  {
    if a == [] {
      assert a + b == b;
    } else {
      assert (a + b)[0] == a[0];
      assert (a + b)[1..] == a[1..] + b;
      CollapseSafePrefix(a[1..], b);
    }
  }

  /** A non-empty run of unsafe characters, up to the next safe character, becomes exactly one "_". */
  lemma {:induction false} CollapseRun(run: string, b: string)
    requires run != [] && forall i | 0 <= i < |run| :: IsUnsafe(run[i])
    requires b != [] ==> !IsUnsafe(b[0])
    ensures CollapseUnsafe(run + b) == "_" + CollapseUnsafe(b)
  {
    DropRun(run, b);
    assert (run + b)[0] == run[0];
  }

  lemma {:induction false} DropRun(run: string, b: string)
    requires forall i | 0 <= i < |run| :: IsUnsafe(run[i])
    requires b != [] ==> !IsUnsafe(b[0])
    ensures DropUnsafe(run + b) == b
    decreases |run|
  {
    if run == [] {
      assert run + b == b;
    } else {
      assert (run + b)[0] == run[0];
      assert (run + b)[1..] == run[1..] + b;
      DropRun(run[1..], b);
    }
  }

  /** Dropping a leading unsafe run never reaches into safe text that follows. */
  lemma {:induction false} DropUnsafeBeforeSafe(s: string, t: string)
    requires t != [] ==> !IsUnsafe(t[0])
    ensures DropUnsafe(s + t) == DropUnsafe(s) + t
    decreases |s|
  {
    if s == [] {
      assert s + t == t;
    } else {
      assert (s + t)[0] == s[0];
      assert (s + t)[1..] == s[1..] + t;
      if IsUnsafe(s[0]) {
        DropUnsafeBeforeSafe(s[1..], t);
      }
    }
  }

  lemma ConcatAssociative(a: string, b: string, c: string)
    ensures a + (b + c) == (a + b) + c
  {
  }

  /** Safe text at the end is kept as it is: the replacement works on the rest alone. */
  lemma {:induction false} CollapseBeforeSafe(s: string, t: string)
    requires NoUnsafe(t)
    ensures CollapseUnsafe(s + t) == CollapseUnsafe(s) + t
    decreases |s|
  {
    if s == [] {
      assert s + t == t;
      CollapseKeepsSafeText(t);
    } else {
      assert (s + t)[0] == s[0];
      if IsUnsafe(s[0]) {
        var d := DropUnsafe(s);
        assert d == DropUnsafe(s[1..]);
        DropUnsafeBeforeSafe(s, t);
        CollapseBeforeSafe(d, t);
        calc {
          CollapseUnsafe(s + t);
          "_" + CollapseUnsafe(DropUnsafe(s + t));
          "_" + CollapseUnsafe(d + t);
          "_" + (CollapseUnsafe(d) + t);
          { ConcatAssociative("_", CollapseUnsafe(d), t); }
          ("_" + CollapseUnsafe(d)) + t;
          CollapseUnsafe(s) + t;
        }
      } else {
        assert (s + t)[1..] == s[1..] + t;
        CollapseBeforeSafe(s[1..], t);
      }
    }
  }

  /** The stored name has no unsafe character left. */
  lemma NoUnsafeInName(rollNo: string, name: string)
    ensures NoUnsafe(SanitizedName(rollNo, name))
  {
    var c := CollapseUnsafe(rollNo + "-" + name + ".pdf");
    TrimKeepsMiddle(c);
    var t := Trim(c);
    var k := TextStart(c, 0);
    forall i | 0 <= i < |t| ensures !IsUnsafe(t[i]) {
      assert t[i] == c[k + i];
    }
  }

  /** The stored name still ends in ".pdf": the replacement keeps the safe ending and trim only strips whitespace. */
  lemma NameEndsWithPdf(rollNo: string, name: string)
    ensures var r := SanitizedName(rollNo, name); |r| >= 4 && r[|r| - 4..] == ".pdf"
  {
    var s := rollNo + "-" + name;
    var full := rollNo + "-" + name + ".pdf";
    assert full == s + ".pdf";
    CollapseBeforeSafe(s, ".pdf");
    var c := CollapseUnsafe(s);
    assert CollapseUnsafe(full) == c + ".pdf";
    assert SanitizedName(rollNo, name) == Trim(c + ".pdf");
    assert !IsWhitespace(".pdf"[0]) && !IsWhitespace(".pdf"[3]);
    TrimKeepsEnding(c, ".pdf");
  }

  /** Sanitising a sanitised name changes nothing: it has no unsafe run to collapse and no whitespace to trim. */
  lemma SanitizeIdempotent(s: string)
    ensures var once := Trim(CollapseUnsafe(s)); Trim(CollapseUnsafe(once)) == once
  {
    var c := CollapseUnsafe(s);
    var once := Trim(c);
    TrimKeepsMiddle(c);
    var k := TextStart(c, 0);
    forall i | 0 <= i < |once| ensures !IsUnsafe(once[i]) {
      assert once[i] == c[k + i];
    }
    CollapseKeepsSafeText(once);
    TrimUnchanged(once);
  }
}
