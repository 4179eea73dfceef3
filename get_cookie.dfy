/**
 * Reading one cookie (utils/getCookie.js): the cookie string is cut at every
 * "; ", each entry is cut at "=", and the value of the first entry whose key
 * is the wanted name is decoded and returned; null when there is none.
 */
module GetCookie {
  import opened Wrappers
  import opened JsString

  /** `const [key, value] = cookie.split("=")`: the value is undefined (None) when the entry has no "=". */
  datatype Entry = Entry(key: string, value: Option<string>)

  const EntrySeparator: string := "; "

  function ParseEntry(cookie: string): (e: Entry) {
    var parts := Split(cookie, "=");
    Entry(parts[0], if |parts| >= 2 then Some(parts[1]) else None)
  }

  /** The text decodeURIComponent receives: the value, or "undefined" for a missing one. */
  function ValueText(v: Option<string>): string {
    match v
    case Some(s) => s
    case None => "undefined"
  }

  /**
   * The result over a list of entries: the decoded value of the first entry
   * whose key equals `name` (None standing for null). `decode` stands for
   * decodeURIComponent.
   */
  function FindCookie(cookies: seq<string>, name: string, decode: string -> string): Option<string>
    decreases |cookies|
  {
    if cookies == [] then None
    else
      var e := ParseEntry(cookies[0]);
      if e.key == name then Some(decode(ValueText(e.value))) else FindCookie(cookies[1..], name, decode)
  }

  /** `getCookie(name)` over `document.cookie`. */
  method GetCookie(documentCookie: string, name: string, decode: string -> string) returns (r: Option<string>)
    ensures r == FindCookie(Split(documentCookie, EntrySeparator), name, decode)
  {
    var cookies := Split(documentCookie, EntrySeparator);
    var n := 0;
    while n < |cookies|
      invariant 0 <= n <= |cookies|
      invariant FindCookie(cookies[n..], name, decode) == FindCookie(cookies, name, decode)
    {
      var cookie := cookies[n];
      var parts := Split(cookie, "=");
      var key := parts[0];
      var value := if |parts| >= 2 then Some(parts[1]) else None;
      if key == name {
        return Some(decode(ValueText(value)));
      }
      assert cookies[n..][1..] == cookies[n + 1..];
      n := n + 1;
    }
    return None;
  }

  // ---------------------------------------------------------------------------
  // Properties
  // ---------------------------------------------------------------------------

  /** null exactly when no entry's key is the name (compared exactly, letter case included). */
  lemma {:induction false} NullIffNoKey(cookies: seq<string>, name: string, decode: string -> string)
    ensures FindCookie(cookies, name, decode).None? <==>
      forall i | 0 <= i < |cookies| :: ParseEntry(cookies[i]).key != name
    decreases |cookies|
  {
    if cookies != [] {
      NullIffNoKey(cookies[1..], name, decode);
      assert forall i | 1 <= i < |cookies| :: cookies[i] == cookies[1..][i - 1];
    }
  }

  /** A value found is the decoded value of the first entry whose key is the name. */
  lemma {:induction false} FirstMatchWins(cookies: seq<string>, name: string, decode: string -> string)
    requires FindCookie(cookies, name, decode).Some?
    ensures exists i | 0 <= i < |cookies| ::
      ParseEntry(cookies[i]).key == name &&
      FindCookie(cookies, name, decode).value == decode(ValueText(ParseEntry(cookies[i]).value)) &&
      forall j | 0 <= j < i :: ParseEntry(cookies[j]).key != name
    decreases |cookies|
  {
    if ParseEntry(cookies[0]).key != name {
      FirstMatchWins(cookies[1..], name, decode);
      var i :| 0 <= i < |cookies[1..]| && ParseEntry(cookies[1..][i]).key == name &&
        FindCookie(cookies[1..], name, decode).value == decode(ValueText(ParseEntry(cookies[1..][i]).value)) &&
        forall j | 0 <= j < i :: ParseEntry(cookies[1..][j]).key != name;
      assert forall j | 1 <= j < i + 1 :: cookies[j] == cookies[1..][j - 1];
      assert ParseEntry(cookies[i + 1]).key == name;
    } else {
      assert ParseEntry(cookies[0]).key == name;
    }
  }

  /** Entries after the first match do not affect the result. */
  lemma {:induction false} LaterEntriesIgnored(cookies: seq<string>, more: seq<string>, name: string, decode: string -> string)
    requires FindCookie(cookies, name, decode).Some?
    ensures FindCookie(cookies + more, name, decode) == FindCookie(cookies, name, decode)
    decreases |cookies|
  {
    assert (cookies + more)[0] == cookies[0];
    if ParseEntry(cookies[0]).key != name {
      assert (cookies + more)[1..] == cookies[1..] + more;
      LaterEntriesIgnored(cookies[1..], more, name, decode);
    }
  }

  /** The value is the text between the first and the second "=": "a=b=c" reads as key "a", value "b". */
  lemma ValueBeforeSecondEquals(key: string, value: string, tail: string)
    requires forall i | 0 <= i < |key| :: key[i] != '='
    requires forall i | 0 <= i < |value| :: value[i] != '='
    ensures ParseEntry(key + "=" + value + "=" + tail) == Entry(key, Some(value))
  {
    var s := key + "=" + value + "=" + tail;
    assert s == key + ['='] + (value + ['='] + tail);
    SplitFirstPart(key, '=', value + ['='] + tail);
    SplitFirstPart(value, '=', tail);
  }

  /** An entry with no "=" has an undefined value, which decodes from the text "undefined". */
  lemma EntryWithoutValue(key: string)
    requires forall i | 0 <= i < |key| :: key[i] != '='
    ensures ParseEntry(key) == Entry(key, None)
  {
    SplitNoSeparator(key, '=');
  }
}
