/**
 * The parts of JavaScript's String semantics that the application relies on:
 * the whitespace set of String.prototype.trim, split on a string separator,
 * Array.prototype.join, ASCII character classes of regular expressions and
 * String.prototype.toLowerCase restricted to ASCII letters.
 */
module JsString {
  import opened Wrappers

  /** A JavaScript string value that is truthy: defined and not empty. */
  predicate Truthy(v: Option<string>) { v.Some? && v.value != "" }


  /** The WhiteSpace and LineTerminator code points of ECMAScript, which trim removes. */
  predicate IsWhitespace(c: char) {
    c == '\t' || c == '\n' || c == '\U{000B}' || c == '\U{000C}' || c == '\r' || c == ' '
    || c == '\U{00A0}' || c == '\U{1680}' || ('\U{2000}' <= c <= '\U{200A}')
    || c == '\U{2028}' || c == '\U{2029}' || c == '\U{202F}' || c == '\U{205F}'
    || c == '\U{3000}' || c == '\U{FEFF}'
  }

  /** The line terminators, which `.` in a regular expression does not match. */
  predicate IsLineTerminator(c: char) {
    c == '\n' || c == '\r' || c == '\U{2028}' || c == '\U{2029}'
  }

  predicate IsAsciiUpper(c: char) { 'A' <= c <= 'Z' }
  predicate IsAsciiLower(c: char) { 'a' <= c <= 'z' }
  predicate IsAsciiLetter(c: char) { IsAsciiUpper(c) || IsAsciiLower(c) }
  predicate IsAsciiDigit(c: char) { '0' <= c <= '9' }
  predicate IsAsciiAlnum(c: char) { IsAsciiLetter(c) || IsAsciiDigit(c) }

  predicate AllLetters(s: string) { forall i | 0 <= i < |s| :: IsAsciiLetter(s[i]) }
  predicate AllAlnum(s: string) { forall i | 0 <= i < |s| :: IsAsciiAlnum(s[i]) }
  predicate AllWhitespace(s: string) { forall i | 0 <= i < |s| :: IsWhitespace(s[i]) }

  /** toLowerCase on one character, for the ASCII letters. */
  function ToLowerAscii(c: char): (r: char)
    ensures IsAsciiUpper(c) ==> IsAsciiLower(r) && r as int == c as int + 32
    ensures !IsAsciiUpper(c) ==> r == c
  {
    if IsAsciiUpper(c) then (c as int + 32) as char else c
  }

  /** toLowerCase on a string, for the ASCII letters. */
  function ToLowerAsciiString(s: string): (r: string)
    ensures |r| == |s|
    ensures forall i | 0 <= i < |s| :: r[i] == ToLowerAscii(s[i])
    decreases |s|
  {
    if s == [] then [] else ToLowerAsciiString(s[..|s| - 1]) + [ToLowerAscii(s[|s| - 1])]
  }

  /** Equality that ignores the case of ASCII letters (the `i` flag of a regular expression). */
  predicate EqualsIgnoreCase(s: string, t: string) {
    |s| == |t| && forall i | 0 <= i < |s| :: ToLowerAscii(s[i]) == ToLowerAscii(t[i])
  }

  /** Where the text of `s` starts, looking from index i on: the first character that is not whitespace, or |s|. */
  function TextStart(s: string, i: nat): (n: nat)
    requires i <= |s|
    ensures i <= n <= |s|
    decreases |s| - i
  {
    if i < |s| && IsWhitespace(s[i]) then TextStart(s, i + 1) else i
  }

  /** Where the text of `s` ends, looking back from index j: just past the last character that is not whitespace, or 0. */
  function TextEnd(s: string, j: nat): (n: nat)
    requires j <= |s|
    ensures n <= j
  {
    if j > 0 && IsWhitespace(s[j - 1]) then TextEnd(s, j - 1) else j
  }

  /** Everything skipped on the way to the text is whitespace, and the text starts with a character that is not. */
  lemma {:induction false} TextStartRun(s: string, i: nat)
    requires i <= |s|
    ensures forall x | i <= x < TextStart(s, i) :: IsWhitespace(s[x])
    ensures TextStart(s, i) < |s| ==> !IsWhitespace(s[TextStart(s, i)])
    decreases |s| - i
  {
    if i < |s| && IsWhitespace(s[i]) {
      TextStartRun(s, i + 1);
    }
  }

  /** Everything skipped on the way back to the text is whitespace, and the text ends with a character that is not. */
  lemma {:induction false} TextEndRun(s: string, j: nat)
    requires j <= |s|
    ensures forall x | TextEnd(s, j) <= x < j :: IsWhitespace(s[x])
    ensures TextEnd(s, j) > 0 ==> !IsWhitespace(s[TextEnd(s, j) - 1])
  {
    if j > 0 && IsWhitespace(s[j - 1]) {
      TextEndRun(s, j - 1);
    }
  }

  /** The text starts exactly at the first character from i on that is not whitespace. */
  lemma TextStartAt(s: string, i: nat, n: nat)
    requires i <= n <= |s|
    requires forall x | i <= x < n :: IsWhitespace(s[x])
    requires n < |s| ==> !IsWhitespace(s[n])
    ensures TextStart(s, i) == n
  {
    TextStartRun(s, i);
  }

  /** The text ends exactly after the last character before j that is not whitespace. */
  lemma TextEndAt(s: string, j: nat, n: nat)
    requires n <= j <= |s|
    requires forall x | n <= x < j :: IsWhitespace(s[x])
    requires n > 0 ==> !IsWhitespace(s[n - 1])
    ensures TextEnd(s, j) == n
  {
    TextEndRun(s, j);
  }

  /** String.prototype.trim: drops leading and trailing whitespace and keeps the rest. */
  function Trim(s: string): (r: string)
    ensures |r| <= |s|
    ensures r != [] ==> !IsWhitespace(r[0]) && !IsWhitespace(r[|r| - 1])
    ensures r == [] <==> AllWhitespace(s)
  {
    var a := TextStart(s, 0);
    TextStartRun(s, 0);
    if a == |s| then []
    else
      TextEndRun(s, |s|);
      assert TextEnd(s, |s|) > a;
      s[a..TextEnd(s, |s|)]
  }

  /** What trim keeps is one contiguous piece of the input, with only whitespace around it. */
  lemma TrimKeepsMiddle(s: string)
    ensures TextStart(s, 0) + |Trim(s)| <= |s|
    ensures Trim(s) == s[TextStart(s, 0)..TextStart(s, 0) + |Trim(s)|]
    ensures forall i | 0 <= i < TextStart(s, 0) :: IsWhitespace(s[i])
    ensures forall i | TextStart(s, 0) + |Trim(s)| <= i < |s| :: IsWhitespace(s[i])
  {
    TextStartRun(s, 0);
    TextEndRun(s, |s|);
  }

  /** Trimming a string that neither starts nor ends with whitespace changes nothing. */
  lemma TrimUnchanged(s: string)
    requires s != [] ==> !IsWhitespace(s[0]) && !IsWhitespace(s[|s| - 1])
    ensures Trim(s) == s
  {
    if s != [] {
      assert TextStart(s, 0) == 0;
      assert TextEnd(s, |s|) == |s|;
      assert s[0..|s|] == s;
    }
  }

  /** Trim removes whitespace padding on both sides and nothing else. */
  lemma TrimPadded(pre: string, s: string, post: string)
    requires AllWhitespace(pre) && AllWhitespace(post)
    requires s != [] ==> !IsWhitespace(s[0]) && !IsWhitespace(s[|s| - 1])
    ensures Trim(pre + s + post) == s
  {
    var p := pre + s + post;
    var a, b := |pre|, |pre| + |s|;
    forall x | 0 <= x < a ensures IsWhitespace(p[x]) {
      assert p[x] == pre[x];
    }
    forall x | b <= x < |p| ensures IsWhitespace(p[x]) {
      assert p[x] == post[x - b];
    }
    if s == [] {
      assert AllWhitespace(p);
    } else {
      assert p[a] == s[0] && p[b - 1] == s[|s| - 1];
      TextStartAt(p, 0, a);
      TextEndAt(p, |p|, b);
      assert p[a..b] == s;
    }
  }

  /**
   * String.prototype.split with a non-empty string separator: cuts at every
   * occurrence, scanning left to right, occurrences not overlapping.
   */
  function Split(s: string, sep: string): (parts: seq<string>)
    requires |sep| > 0
    ensures |parts| >= 1
    decreases |s|
  {
    if |s| < |sep| then [s]
    else if s[..|sep|] == sep then [""] + Split(s[|sep|..], sep)
    else
      var rest := Split(s[1..], sep);
      [[s[0]] + rest[0]] + rest[1..]
  }

  /** Array.prototype.join. */
  function Join(parts: seq<string>, sep: string): (r: string)
    decreases |parts|
  {
    if parts == [] then ""
    else if |parts| == 1 then parts[0]
    else parts[0] + sep + Join(parts[1..], sep)
  }

  /** Joining one more part appends the separator and that part. */
  lemma {:induction false} JoinSnoc(parts: seq<string>, x: string, sep: string)
    requires parts != []
    ensures Join(parts + [x], sep) == Join(parts, sep) + sep + x
    decreases |parts|
  {
    if |parts| == 1 {
      assert parts + [x] == [parts[0], x];
    } else {
      assert (parts + [x])[1..] == parts[1..] + [x];
      JoinSnoc(parts[1..], x, sep);
    }
  }

  lemma {:induction false} JoinConsChar(c: char, p: string, tail: seq<string>, sep: string)
    ensures Join([[c] + p] + tail, sep) == [c] + Join([p] + tail, sep)
  {
    if tail == [] {
    } else {
      assert ([[c] + p] + tail)[1..] == tail;
      assert ([p] + tail)[1..] == tail;
    }
  }

  /** Splitting and joining with the same separator gives back the string. */
  lemma {:induction false} JoinSplit(s: string, sep: string)
    requires |sep| > 0
    ensures Join(Split(s, sep), sep) == s
    decreases |s|
  {
    if |s| < |sep| {
    } else if s[..|sep|] == sep {
      var rest := Split(s[|sep|..], sep);
      JoinSplit(s[|sep|..], sep);
      assert ([""] + rest)[1..] == rest;
      assert Join(Split(s, sep), sep) == "" + sep + Join(rest, sep);
      assert s == sep + s[|sep|..];
    } else {
      var rest := Split(s[1..], sep);
      JoinSplit(s[1..], sep);
      assert Split(s, sep) == [[s[0]] + rest[0]] + rest[1..];
      JoinConsChar(s[0], rest[0], rest[1..], sep);
      assert [rest[0]] + rest[1..] == rest;
      assert s == [s[0]] + s[1..];
    }
  }

  /** A one-character separator that does not occur in `x`: `x` comes back as the first part. */
  lemma {:induction false} SplitFirstPart(x: string, c: char, rest: string)
    requires forall i | 0 <= i < |x| :: x[i] != c
    ensures Split(x + [c] + rest, [c]) == [x] + Split(rest, [c])
    decreases |x|
  {
    var s := x + [c] + rest;
    if x == [] {
      assert s[..1] == [c];
      assert s[1..] == rest;
    } else {
      assert s[..1] != [c] by { assert s[0] == x[0]; }
      assert s[1..] == x[1..] + [c] + rest;
      SplitFirstPart(x[1..], c, rest);
      assert [x[0]] + x[1..] == x;
    }
  }

  /** A string without the one-character separator is a single part. */
  lemma {:induction false} SplitNoSeparator(x: string, c: char)
    requires forall i | 0 <= i < |x| :: x[i] != c
    ensures Split(x, [c]) == [x]
    decreases |x|
  {
    if x != [] {
      assert x[..1] != [c] by { assert x[..1][0] == x[0]; }
      SplitNoSeparator(x[1..], c);
      assert [x[0]] + x[1..] == x;
    }
  }

  /** With a one-character separator that no part contains, split undoes join. */
  lemma {:induction false} SplitJoin(parts: seq<string>, c: char)
    requires parts != []
    requires forall k, i | 0 <= k < |parts| && 0 <= i < |parts[k]| :: parts[k][i] != c
    ensures Split(Join(parts, [c]), [c]) == parts
    decreases |parts|
  {
    if |parts| == 1 {
      SplitNoSeparator(parts[0], c);
    } else {
      SplitJoin(parts[1..], c);
      SplitFirstPart(parts[0], c, Join(parts[1..], [c]));
      assert [parts[0]] + parts[1..] == parts;
    }
  }

  /** With a one-character separator that `rest` does not contain, `rest` is the last of at least two parts of x + [c] + rest. */
  lemma {:induction false} SplitLastPart(x: string, c: char, rest: string)
    requires forall i | 0 <= i < |rest| :: rest[i] != c
    ensures var parts := Split(x + [c] + rest, [c]); |parts| >= 2 && parts[|parts| - 1] == rest
    decreases |x|
  {
    var s := x + [c] + rest;
    if x == [] {
      assert s[..1] == [c];
      assert s[1..] == rest;
      SplitNoSeparator(rest, c);
    } else {
      assert s[1..] == x[1..] + [c] + rest;
      SplitLastPart(x[1..], c, rest);
    }
  }

  /** Cutting at one occurrence of a one-character separator: the parts of both sides, side by side. */
  lemma {:induction false} SplitAtSeparator(x: string, c: char, rest: string)
    ensures Split(x + [c] + rest, [c]) == Split(x, [c]) + Split(rest, [c])
    decreases |x|
  {
    var s := x + [c] + rest;
    if x == [] {
      assert s[..1] == [c];
      assert s[1..] == rest;
    } else if x[0] == c {
      assert s[..1] == [c] && x[..1] == [c];
      assert s[1..] == x[1..] + [c] + rest;
      SplitAtSeparator(x[1..], c, rest);
    } else {
      assert s[..1] != [c] by { assert s[..1][0] == x[0]; }
      assert x[..1] != [c] by { assert x[..1][0] == x[0]; }
      assert s[1..] == x[1..] + [c] + rest;
      SplitAtSeparator(x[1..], c, rest);
    }
  }

  /** No part of a split contains the one-character separator. */
  lemma {:induction false} SplitPartsAvoidSeparator(s: string, c: char)
    ensures forall k, i | 0 <= k < |Split(s, [c])| && 0 <= i < |Split(s, [c])[k]| :: Split(s, [c])[k][i] != c
    decreases |s|
  {
    if |s| >= 1 {
      SplitPartsAvoidSeparator(s[1..], c);
      if s[..1] != [c] {
        assert s[0] != c by { assert s[..1][0] == s[0]; }
      }
    }
  }

  /** An ending that starts and ends with a non-whitespace character survives trim. */
  lemma TrimKeepsEnding(x: string, tail: string)
    requires tail != [] && !IsWhitespace(tail[0]) && !IsWhitespace(tail[|tail| - 1])
    ensures |Trim(x + tail)| >= |tail| && Trim(x + tail)[|Trim(x + tail)| - |tail|..] == tail
  {
    var p := x + tail;
    assert p[|x|] == tail[0] && p[|p| - 1] == tail[|tail| - 1];
    TextStartRun(p, 0);
    assert TextStart(p, 0) <= |x|;
    assert TextEnd(p, |p|) == |p|;
    var r := Trim(p);
    assert r == p[TextStart(p, 0)..];
    assert r[|r| - |tail|..] == p[|x|..];
  }
}
