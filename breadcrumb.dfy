/**
 * The breadcrumb trail (utils/Breadcrumb.jsx): the location's path is cut at
 * every "/", empty pieces are dropped, and each remaining segment becomes a
 * crumb linking to the path up to and including it; the last crumb is plain
 * text. A "Home" link to "/" always comes first and is not part of the list.
 */
module Breadcrumb {
  import opened JsString

  /** `.filter((x) => x)`: the non-empty strings, in order. */
  function NonEmpty(parts: seq<string>): (r: seq<string>)
    ensures forall i | 0 <= i < |r| :: r[i] != ""
    decreases |parts|
  {
    if parts == [] then []
    else (if parts[0] == "" then [] else [parts[0]]) + NonEmpty(parts[1..])
  }

  lemma {:induction false} NonEmptyAppend(a: seq<string>, b: seq<string>)
    ensures NonEmpty(a + b) == NonEmpty(a) + NonEmpty(b)
    decreases |a|
  {
    if a == [] {
      assert a + b == b;
    } else {
      assert (a + b)[1..] == a[1..] + b;
      NonEmptyAppend(a[1..], b);
    }
  }

  /** A list without empty strings is left as it is. */
  lemma {:induction false} NonEmptyKeeps(parts: seq<string>)
    requires forall i | 0 <= i < |parts| :: parts[i] != ""
    ensures NonEmpty(parts) == parts
    decreases |parts|
  {
    if parts != [] {
      NonEmptyKeeps(parts[1..]);
    }
  }

  /** Every element of the filtered list is an element of the input. */
  lemma {:induction false} NonEmptyFrom(parts: seq<string>, x: string)
    ensures x in NonEmpty(parts) ==> x in parts
    decreases |parts|
  {
    if parts != [] {
      NonEmptyFrom(parts[1..], x);
    }
  }

  /** `location.pathname.split("/").filter((x) => x)` */
  function Segments(pathname: string): (segs: seq<string>)
    ensures forall i | 0 <= i < |segs| :: segs[i] != ""
    ensures forall i, k | 0 <= i < |segs| && 0 <= k < |segs[i]| :: segs[i][k] != '/'
  {
    var parts := Split(pathname, "/");
    var segs := NonEmpty(parts);
    SplitPartsAvoidSeparator(pathname, '/');
    forall i | 0 <= i < |segs| ensures forall k | 0 <= k < |segs[i]| :: segs[i][k] != '/' {
      NonEmptyFrom(parts, segs[i]);
    }
    segs
  }

  /** One crumb of the trail: its segment (shown decoded), the route it links to, and whether it is the last. */
  datatype Crumb = Crumb(segment: string, routeTo: string, isLast: bool)

  /** `"/" + pathnames.slice(0, index + 1).join("/")` */
  function RouteTo(segs: seq<string>, index: nat): string
    requires index < |segs|
  {
    "/" + Join(segs[..index + 1], "/")
  }

  /** The crumbs after Home for a list of segments, one per segment, in order. */
  function CrumbsOf(segs: seq<string>): (cs: seq<Crumb>)
    ensures |cs| == |segs|
    ensures forall i | 0 <= i < |cs| :: cs[i].segment == segs[i]
    ensures forall i | 0 <= i < |cs| :: cs[i].isLast <==> i == |cs| - 1
  {
    seq(|segs|, i requires 0 <= i < |segs| => Crumb(segs[i], RouteTo(segs, i), i == |segs| - 1))
  }

  /** The crumbs the component renders after Home for a pathname. */
  function Crumbs(pathname: string): seq<Crumb> {
    CrumbsOf(Segments(pathname))
  }

  // ---------------------------------------------------------------------------
  // Properties of the trail
  // ---------------------------------------------------------------------------

  /** A slash splits the segments in two: leading, trailing and repeated slashes add nothing. */
  lemma SegmentsAtSlash(a: string, b: string)
    ensures Segments(a + "/" + b) == Segments(a) + Segments(b)
  {
    assert a + "/" + b == a + ['/'] + b;
    SplitAtSeparator(a, '/', b);
    NonEmptyAppend(Split(a, "/"), Split(b, "/"));
  }

  lemma NoSegmentsInEmpty()
    ensures Segments("") == []
  {
    assert Split("", "/") == [""];
  }

  /** The root path "/" shows only the Home crumb. */
  lemma RootHasOnlyHome()
    ensures Crumbs("/") == []
  {
    SegmentsAtSlash("", "");
  }

  /** A leading slash changes no crumb. */
  lemma LeadingSlashIgnored(a: string)
    ensures Crumbs("/" + a) == Crumbs(a)
  {
    SegmentsAtSlash("", a);
    NoSegmentsInEmpty();
    assert "" + "/" + a == "/" + a;
    assert Segments("/" + a) == Segments(a);
  }

  /** A trailing slash changes no crumb. */
  lemma TrailingSlashIgnored(a: string)
    ensures Crumbs(a + "/") == Crumbs(a)
  {
    SegmentsAtSlash(a, "");
    NoSegmentsInEmpty();
    assert a + "/" + "" == a + "/";
    assert Segments(a + "/") == Segments(a);
  }

  /** A doubled slash inside a path counts as one. */
  lemma RepeatedSlashIgnored(a: string, b: string)
    ensures Crumbs(a + "//" + b) == Crumbs(a + "/" + b)
  {
    SegmentsAtSlash(a + "/", b);
    assert a + "/" + "/" + b == a + "//" + b;
    SegmentsAtSlash(a, "");
    assert a + "/" + "" == a + "/";
    SegmentsAtSlash(a, b);
    NoSegmentsInEmpty();
    assert Segments(a + "//" + b) == Segments(a + "/" + b);
  }

  /** Each crumb links to the previous crumb's route followed by "/" and its own segment. */
  lemma RoutesExtend(pathname: string, i: nat)
    requires i + 1 < |Crumbs(pathname)|
    ensures Crumbs(pathname)[i + 1].routeTo == Crumbs(pathname)[i].routeTo + "/" + Segments(pathname)[i + 1]
  {
    var segs := Segments(pathname);
    assert segs[..i + 2] == segs[..i + 1] + [segs[i + 1]];
    JoinSnoc(segs[..i + 1], segs[i + 1], "/");
  }

  /** Each crumb's route is a proper prefix of the next crumb's route. */
  lemma RoutesNested(pathname: string, i: nat)
    requires i + 1 < |Crumbs(pathname)|
    ensures var cs := Crumbs(pathname);
      |cs[i].routeTo| < |cs[i + 1].routeTo| && cs[i + 1].routeTo[..|cs[i].routeTo|] == cs[i].routeTo
  {
    RoutesExtend(pathname, i);
  }

  /** Only the last crumb is plain text; every earlier one is a link. */
  lemma OnlyLastIsText(pathname: string, i: nat)
    requires i < |Crumbs(pathname)|
    ensures Crumbs(pathname)[i].isLast <==> i == |Crumbs(pathname)| - 1
  {
  }

  /** The last crumb links to the path itself, with its empty segments dropped. */
  lemma LastRouteIsPath(pathname: string)
    requires Crumbs(pathname) != []
    ensures var cs := Crumbs(pathname);
      cs[|cs| - 1].routeTo == "/" + Join(Segments(pathname), "/")
  {
    var segs := Segments(pathname);
    assert segs[..|segs|] == segs;
  }

  /** Following the last crumb leads to a path with the same crumbs: the trail is stable. */
  lemma LastRouteSameTrail(pathname: string)
    requires Crumbs(pathname) != []
    ensures var cs := Crumbs(pathname);
      Segments(cs[|cs| - 1].routeTo) == Segments(pathname)
  {
    var segs := Segments(pathname);
    LastRouteIsPath(pathname);
    var joined := Join(segs, "/");
    SplitJoin(segs, '/');
    SegmentsAtSlash("", joined);
    assert "" + "/" + joined == "/" + joined;
    NonEmptyKeeps(segs);
  }
}
