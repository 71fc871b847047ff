/** The Telegram back button: hidden on the home page with no parameters;
    otherwise a press removes the last query parameter, or else climbs one
    path segment, or else goes home. */
module BackButton {
  import opened Strings
  import opened UrlState

  const HOME: string := "/"

  /** `pathname.split("/").filter(Boolean)` */
  function Segments(path: string): seq<string> {
    NonEmpty(Split(path, '/'))
  }

  /** The button is hidden, and no handler registered, exactly here. */
  predicate Hidden(pathname: string, keys: seq<string>) {
    pathname == HOME && |keys| == 0
  }

  datatype BackAction = RemoveParam(key: string) | Navigate(path: string)

  /** What a press does, given the parameter names in `Object.keys` order. */
  function HandleBack(keys: seq<string>, pathname: string): (a: BackAction)
    ensures a.RemoveParam? <==> |keys| > 0
    ensures a.RemoveParam? ==> a.key in keys
  {
    if |keys| > 0 then RemoveParam(keys[|keys| - 1])
    else
      var segs := Segments(pathname);
      if |segs| > 1 then Navigate(HOME + Join(segs[..|segs| - 1], "/"))
      else Navigate(HOME)
  }

  /** The segments split out of a path never hold a separator and are never empty. */
  lemma SegmentsAreNames(path: string)
    ensures forall i :: 0 <= i < |Segments(path)| ==> |Segments(path)[i]| > 0 && '/' !in Segments(path)[i]
  {
    var parts := Split(path, '/');
    forall i | 0 <= i < |Segments(path)|
      ensures |Segments(path)[i]| > 0 && '/' !in Segments(path)[i]
    {
      var x := Segments(path)[i];
      assert x in parts;
      var j :| 0 <= j < |parts| && parts[j] == x;
    }
  }

  /** The path of the parent: "/" and the names joined by "/". */
  lemma {:induction false} SegmentsOfParent(names: seq<string>)
    requires |names| >= 1
    requires forall i :: 0 <= i < |names| ==> |names[i]| > 0 && '/' !in names[i]
    ensures Segments(HOME + Join(names, "/")) == names
  {
    var j := Join(names, "/");
    assert HOME + j == "" + ['/'] + j;
    SplitAtSeparator("", '/', j);
    SplitJoin(names, '/');
    NonEmptyAllNonEmpty(names);
    assert Split(HOME + j, '/') == [""] + names;
    assert NonEmpty([""] + names) == NonEmpty(names) by {
      assert ([""] + names)[1..] == names;
    }
  }

  /** Without parameters and below the first level, a press leads to the
      parent: the new path has the old segments but the last. */
  lemma BackClimbsOneSegment(pathname: string)
    requires |Segments(pathname)| > 1
    ensures var a := HandleBack([], pathname);
      a.Navigate? && Segments(a.path) == Segments(pathname)[..|Segments(pathname)| - 1]
  {
    var segs := Segments(pathname);
    SegmentsAreNames(pathname);
    var names := segs[..|segs| - 1];
    assert forall i :: 0 <= i < |names| ==> names[i] == segs[i];
    SegmentsOfParent(names);
  }

  /** With parameters, a press deletes the last one and leaves the earlier ones in order. */
  lemma BackRemovesLastParam(ps: seq<Param>, pathname: string)
    requires |Keys(ps)| > 0
    ensures var a := HandleBack(Keys(ps), pathname);
      a.RemoveParam? && Keys(Delete(ps, a.key)) == Keys(ps)[..|Keys(ps)| - 1]
  {
    DeleteLastKey(ps);
  }

  /** Empty pieces are skipped: "/a//b/" has the segments "a" and "b". */
  lemma EmptyPiecesSkipped()
    ensures Segments("/a//b/") == ["a", "b"]
  {
    assert "/a//b/" == "" + ['/'] + ("a" + ['/'] + ("" + ['/'] + ("b" + ['/'] + "")));
    SplitAtSeparator("b", '/', "");
    SplitAtSeparator("", '/', "b" + ['/'] + "");
    SplitAtSeparator("a", '/', "" + ['/'] + ("b" + ['/'] + ""));
    SplitAtSeparator("", '/', "a" + ['/'] + ("" + ['/'] + ("b" + ['/'] + "")));
    assert Split("", '/') == [""];
  }

  /** How far from home: the number of parameters plus the path depth. */
  function Depth(keys: seq<string>, pathname: string): nat {
    |keys| + |Segments(pathname)|
  }

  lemma HomeHasNoSegments()
    ensures Segments(HOME) == []
  {
    assert HOME == "" + ['/'] + "";
    SplitAtSeparator("", '/', "");
  }

  /** Pressing back without parameters ends, one press at a time, at the
      home page, where the button is hidden. */
  lemma BackWithoutParamsGetsHome(pathname: string)
    requires !Hidden(pathname, [])
    ensures var a := HandleBack([], pathname);
      a.Navigate? && (Hidden(a.path, []) || Depth([], a.path) < Depth([], pathname))
    ensures |Segments(pathname)| <= 1 ==> HandleBack([], pathname) == Navigate(HOME)
  {
    var segs := Segments(pathname);
    if |segs| > 1 {
      BackClimbsOneSegment(pathname);
    } else {
      HomeHasNoSegments();
    }
  }

  /** The page location the button acts on. */
  class Location {
    var pathname: string
    var params: UrlParams

    constructor (pathname: string, params: UrlParams)
      ensures this.pathname == pathname && this.params == params
    {
      this.pathname := pathname;
      this.params := params;
    }

    /** A press of the button: nothing while it is hidden, otherwise the handler's action. */
    method Back()
      modifies this, params
      ensures params == old(params)
      ensures Hidden(old(pathname), old(Keys(params.params))) ==>
                pathname == old(pathname) && params.params == old(params.params)
      ensures !Hidden(old(pathname), old(Keys(params.params))) ==>
                match HandleBack(old(Keys(params.params)), old(pathname))
                case RemoveParam(k) => pathname == old(pathname) && params.params == Delete(old(params.params), k)
                case Navigate(p) => pathname == p && params.params == old(params.params)
    {
      var keys := Keys(params.params);
      if Hidden(pathname, keys) {
        return;
      }
      var a := HandleBack(keys, pathname);
      match a
      case RemoveParam(k) =>
        params.DeleteParam(k);
      case Navigate(p) =>
        pathname := p;
    }
  }
}
