/** The converse of rendering: a route of literals and ":" parameters answers only its own
    renderings, with the values they were rendered with. */
module RouteAnswers {
  import opened Wrappers
  import opened PathText
  import opened Splitters
  import opened RoutePattern
  import opened RouteTable
  import opened RouteMatching
  import opened RouteRoundTrip
  import opened RouteServing

  /** A path of elements without a final slash. */
  function PathOf(fs: seq<string>): string {
    if |fs| == 0 then "/" else Join(fs)
  }

  // ---- What fits has been filled in --------------------------------------------------------

  predicate AllFitting(parts: seq<string>, fs: seq<string>) {
    |parts| == |fs| && forall i :: 0 <= i < |fs| ==> PieceFits(parts[i], "/" + fs[i])
  }

  /** Elements that fit the parts of a route are its elements with values filled in. */
  lemma {:induction false} FittingIsFilled(es: seq<string>, fs: seq<string>) returns (vals: seq<string>)
    requires AllElements(es) && ColonOnly(es) && SolidList(fs) && AllFitting(PartTexts(es), fs)
    ensures |vals| == ParamCount(es) && SolidList(vals) && Fill(es, vals) == fs
  {
    vals := [];
    if |es| > 0 {
      var e, f := es[0], fs[0];
      assert PieceFits(PartTexts(es)[0], "/" + f);
      RestFits(es, fs);
      var more := FittingIsFilled(es[1..], fs[1..]);
      if Marker(e[0]) {
        vals := [f] + more;
        assert vals[1..] == more;
      } else {
        vals := more;
        assert ("/" + e)[1..] == e && ("/" + f)[1..] == f;
      }
      assert fs == [f] + fs[1..];
    } else {
      assert fs == [];
    }
  }

  lemma RestFits(es: seq<string>, fs: seq<string>)
    requires AllElements(es) && |es| > 0 && AllFitting(PartTexts(es), fs)
    ensures AllFitting(PartTexts(es[1..]), fs[1..])
  {
    var parts := PartTexts(es);
    assert parts[1..] == PartTexts(es[1..]);
    forall i | 0 <= i < |fs[1..]|
      ensures PieceFits(PartTexts(es[1..])[i], "/" + fs[1..][i])
    {
      assert PieceFits(parts[i + 1], "/" + fs[i + 1]);
    }
  }

  lemma {:induction false} SlashedAt(fs: seq<string>, i: nat)
    requires i < |fs|
    ensures |Slashed(fs)| == |fs| && Slashed(fs)[i] == "/" + fs[i]
  {
    if |fs| > 1 {
      SlashedAt(fs[1..], if i > 0 then i - 1 else 0);
    } else {
      assert fs[1..] == [] && Slashed(fs[1..]) == [];
    }
  }

  /** A route that fits what is left of a path has been rendered to it. */
  lemma FitsFilled(r: Route, es: seq<string>, fs: seq<string>) returns (vals: seq<string>)
    requires AllElements(es) && ColonOnly(es) && r.parts == PartTexts(es) && SolidList(fs) && Fits(r, Join(fs))
    ensures |vals| == ParamCount(es) && SolidList(vals) && Fill(es, vals) == fs
    ensures Bindings(r, Join(fs)) == Paired(es, vals)
  {
    var rest := Join(fs);
    assert rest[0..] == RouteText(fs, false);
    PiecesAt(rest, 0, 0, fs, false);
    ColonPartsNoStar(es);
    if |fs| > 0 {
      RenderedEnd(fs);
    }
    forall i | 0 <= i < |fs|
      ensures |Slashed(fs)| == |fs| && PieceFits(r.parts[i], "/" + fs[i])
    {
      SlashedAt(fs, i);
    }
    assert |fs| == 0 ==> Slashed(fs) == [];
    vals := FittingIsFilled(es, fs);
    ValuesOfFill(es, vals);
  }

  // ---- The key is the front of the path -----------------------------------------------------

  /** A boundary prefix of a path of elements is a path of its first elements. */
  lemma PrefixOfElements(fs: seq<string>, front: seq<string>, rest: string) returns (back: seq<string>)
    requires SolidList(fs) && SolidList(front) && Join(fs) == Join(front) + rest && (rest == "" || rest[0] == '/')
    ensures fs == front + back && rest == Join(back)
  {
    SolidElements(fs);
    SolidElements(front);
    if rest == "" {
      assert Join(front) + rest == Join(front);
      JoinTells(fs, front);
      back := [];
      assert front + back == fs;
    } else {
      var t := rest[1..];
      assert rest == "/" + t && Join(front) + rest == Join(front) + "/" + t;
      back := SplitAtSlash(fs, front, t);
    }
  }

  lemma SplitAtSlash(fs: seq<string>, front: seq<string>, t: string) returns (back: seq<string>)
    requires AllSolid(fs) && AllSolid(front) && Join(fs) == Join(front) + "/" + t
    ensures fs == front + back && "/" + t == Join(back)
  {
    back := Segments(t);
    JoinOfSegments(t);
    SegmentsConcat(Join(front), t);
    SegmentsOfJoin(front);
    SegmentsOfJoin(fs);
    SameTail(fs, front, back);
  }

  lemma SameTail(a: seq<string>, b: seq<string>, c: seq<string>)
    requires [""] + a == [""] + b + c
    ensures a == b + c
  {
    assert ([""] + a)[1..] == a && ([""] + b + c)[1..] == b + c;
  }

  lemma {:induction false} LiteralSolid(es: seq<string>)
    requires AllLiteral(es)
    ensures SolidList(es)
  {
    if |es| > 0 {
      LiteralSolid(es[1..]);
    }
  }

  /** What the search leaves of a path of elements under the key of some literals. */
  lemma LeftOfElements(m: RouteMap, fs: seq<string>, front: seq<string>) returns (back: seq<string>)
    requires SolidList(fs) && AllLiteral(front) && FindBucket(m, PathOf(fs)).Some?
    requires KeyUsed(m, PathOf(fs)) == if |front| == 0 then "/" else Join(front)
    ensures fs == front + back && FindBucket(m, PathOf(fs)).value.rest == Join(back)
  {
    var path := PathOf(fs);
    LiteralSolid(front);
    if |fs| > 0 {
      RenderedEnd(fs);
    }
    if |front| > 0 {
      JoinEnd(front);
      var rest := FindBucket(m, path).value.rest;
      assert path == Join(front) + rest;
      back := PrefixOfElements(fs, front, rest);
    } else {
      back := fs;
      assert front + back == fs;
      RootLeft(m, fs);
    }
  }

  /** Under the root key nothing of the path is taken, or all of "/". */
  lemma RootLeft(m: RouteMap, fs: seq<string>)
    requires FindBucket(m, PathOf(fs)).Some? && KeyUsed(m, PathOf(fs)) == "/"
    requires |fs| > 0 ==> |Join(fs)| > 1 && Join(fs)[0] == '/' && Join(fs)[1] != '/'
    ensures FindBucket(m, PathOf(fs)).value.rest == Join(fs)
  {
    var path := PathOf(fs);
    if |fs| == 0 {
      assert Boundary(path, '/', 1) && path[..1] == "/" && |path| == 1;
      assert KeyUsed(m, path) == "/" ==> "/" in m;
      assert LongestKey(m, path, 1) == Some(1);
    }
  }

  // ---- Main result ----------------------------------------------------------------------------

  /** Whenever the matcher answers a path of elements with a route of literals and ":"
      parameters, the path is a rendering of that route, and the parameters are its names
      paired with the values it was rendered with. */
  lemma AnswersAreRenderings(m: RouteMap, maxParams: nat, fs: seq<string>, es: seq<string>, slash: bool, r: Route)
      returns (vals: seq<string>)
    requires TableOk(m, maxParams) && SolidList(fs)
    requires Lookup(m, PathOf(fs)).Matched? && Lookup(m, PathOf(fs)).route == r
    requires AllElements(es) && ColonOnly(es) && (|es| > 0 || slash) && r.path == RouteText(es, slash)
    ensures |vals| == ParamCount(es) && SolidList(vals) && PathOf(fs) == PathFor(es, vals)
    ensures Lookup(m, PathOf(fs)) == Matched(r, if |r.parts| == 0 then None else Some(Paired(es, vals)))
  {
    var path := PathOf(fs);
    if |fs| > 0 {
      RenderedEnd(fs);
    }
    MatchIsFirstFit(m, path, maxParams);
    var b := FindBucket(m, path).value;
    var key, k := KeyUsed(m, path), FirstFit(b.routes, b.rest);
    assert BucketOk(key, m[key], maxParams) && RouteOk(key, m[key][k], maxParams);
    CompileWellFormed(es, slash);
    FrontAndBack(es);
    ColonBack(es);
    var back := LeftOfElements(m, fs, Front(es));
    SolidSuffix(Front(es), back, fs);
    vals := FitsFilled(r, Back(es), back);
    FillBackAgain(es, vals);
  }

  lemma {:induction false} SolidSuffix(a: seq<string>, b: seq<string>, all: seq<string>)
    requires all == a + b && SolidList(all)
    ensures SolidList(b)
    decreases |a|
  {
    if |a| > 0 {
      assert all[1..] == a[1..] + b;
      SolidSuffix(a[1..], b, all[1..]);
    } else {
      assert all == b;
    }
  }

  lemma FillBackAgain(es: seq<string>, vals: seq<string>)
    requires AllElements(es) && AllElements(Back(es)) && |vals| == ParamCount(Back(es))
    ensures |vals| == ParamCount(es) && Fill(es, vals) == Front(es) + Fill(Back(es), vals)
    ensures Paired(es, vals) == Paired(Back(es), vals)
  {
    BackParams(es);
    FillBack(es, vals);
  }
}
