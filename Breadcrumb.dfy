/** The dashboard's breadcrumb (frontend/src/components/app-breadcrumb.tsx):
    the trail of links built from the current pathname. */
module Breadcrumb {
  import opened Common

  /** `BREADCRUMB_CONFIG`: the fixed labels of known segments. */
  const Config: map<string, string> :=
    map["violation-history" := "Violation History", "user-management" := "User Management"]

  /** The path segments: the pathname split on '/', empty pieces dropped. */
  function Segments(pathname: string): (segs: seq<string>)
    ensures forall k :: 0 <= k < |segs| ==> segs[k] != "" && '/' !in segs[k]
  {
    var parts := Split(pathname, '/');
    var segs := NonEmpty(parts);
    assert forall k :: 0 <= k < |segs| ==> segs[k] in parts;
    segs
  }

  /** `capitalizeFirstLetter`: the first character upper-cased, every later
      hyphen turned into a space. */
  function CapitalizeFirstLetter(s: string): (r: string)
    ensures |r| == |s|
    ensures s != [] ==> r[0] == UpperChar(s[0])
    ensures forall k :: 1 <= k < |s| ==> r[k] == (if s[k] == '-' then ' ' else s[k])
  {
    if s == [] then [] else [UpperChar(s[0])] + ReplaceChar(s[1..], '-', ' ')
  }

  /** Only the first character can change case, and no hyphen survives after it. */
  lemma CapitalizedShape(s: string)
    requires s != []
    ensures '-' !in CapitalizeFirstLetter(s)[1..]
    ensures IsAsciiLower(s[0]) ==> IsAsciiUpper(CapitalizeFirstLetter(s)[0])
  {
    var r := CapitalizeFirstLetter(s);
    forall k | 0 <= k < |r[1..]| ensures r[1..][k] != '-' {
      assert r[1..][k] == r[k + 1];
    }
  }

  /** The label of a segment: its configured one, else the capitalised segment. */
  function Label(segment: string): (text: string)
    ensures segment in Config ==> text == Config[segment]
    ensures segment !in Config ==> text == CapitalizeFirstLetter(segment)
  {
    if segment in Config && Config[segment] != "" then Config[segment] else CapitalizeFirstLetter(segment)
  }

  datatype Item = Item(path: string, caption: string, isLast: bool)

  /** The root alone renders as the "Dashboard" page; any other path as a
      Dashboard link followed by one item per segment. */
  datatype Crumbs = DashboardOnly | Trail(items: seq<Item>)

  function PathTo(segs: seq<string>, index: nat): (path: string)
    requires index < |segs|
  {
    "/" + Join(segs[..index + 1], '/')
  }

  function Build(pathname: string): (c: Crumbs)
    ensures c.DashboardOnly? <==> Segments(pathname) == []
    ensures c.Trail? ==> |c.items| == |Segments(pathname)|
    ensures c.Trail? ==> forall i :: 0 <= i < |c.items| ==>
      && c.items[i].path == PathTo(Segments(pathname), i)
      && c.items[i].caption == Label(Segments(pathname)[i])
      && (c.items[i].isLast <==> i == |c.items| - 1)
  {
    var segs := Segments(pathname);
    if segs == [] then DashboardOnly
    else Trail(seq(|segs|, i requires 0 <= i < |segs| => Item(PathTo(segs, i), Label(segs[i]), i == |segs| - 1)))
  }

  /** Splitting a join of pieces without the separator gives the pieces back. */
  lemma {:induction false} SplitJoin(parts: seq<string>, sep: char)
    requires |parts| >= 1
    requires forall k :: 0 <= k < |parts| ==> sep !in parts[k]
    ensures Split(Join(parts, sep), sep) == parts
  {
    if |parts| == 1 {
      SplitWithoutSep(parts[0], sep);
    } else {
      SplitJoin(parts[1..], sep);
      SplitWithoutSep(parts[0], sep);
      SplitConcat(parts[0], Join(parts[1..], sep), sep);
    }
  }

  /** The segments of a path written as "/" + the segments joined by '/'
      are those segments. */
  lemma SegmentsOfPath(segs: seq<string>)
    requires |segs| >= 1
    requires forall k :: 0 <= k < |segs| ==> segs[k] != "" && '/' !in segs[k]
    ensures Segments("/" + Join(segs, '/')) == segs
  {
    var j := Join(segs, '/');
    SplitJoin(segs, '/');
    assert "/" + j == [] + ['/'] + j;
    SplitConcat([], j, '/');
    assert Split("/" + j, '/') == [""] + segs;
    NonEmptyKeeps(segs);
    assert ([""] + segs)[1..] == segs;
  }

  /** Each item links to the path of the segments up to it: following the
      link of item i lands on a page whose own trail is the first i + 1
      items. */
  lemma ItemPathPrefix(pathname: string, i: nat)
    requires i < |Segments(pathname)|
    ensures Segments(PathTo(Segments(pathname), i)) == Segments(pathname)[..i + 1]
  {
    var segs := Segments(pathname);
    SegmentsOfPath(segs[..i + 1]);
  }
}
