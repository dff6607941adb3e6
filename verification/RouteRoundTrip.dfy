/** Rendering a route with values and matching the result gives the route and the
    values back. */
module RouteRoundTrip {
  import opened Wrappers
  import opened PathText
  import opened Splitters
  import opened RoutePattern
  import opened RouteTable
  import opened RouteMatching

  /** Only ":" parameters. */
  predicate ColonOnly(es: seq<string>)
    requires AllElements(es)
  {
    |es| == 0 || (es[0][0] != '*' && ColonOnly(es[1..]))
  }

  function ParamCount(es: seq<string>): nat
    requires AllElements(es)
  {
    if |es| == 0 then 0 else (if Marker(es[0][0]) then 1 else 0) + ParamCount(es[1..])
  }

  /** The elements with their parameters replaced by the values, in order. */
  function Fill(es: seq<string>, vals: seq<string>): seq<string>
    requires AllElements(es) && |vals| == ParamCount(es)
  {
    if |es| == 0 then []
    else if Marker(es[0][0]) then [vals[0]] + Fill(es[1..], vals[1..])
    else [es[0]] + Fill(es[1..], vals)
  }

  /** Every name with its value. */
  function Paired(es: seq<string>, vals: seq<string>): seq<Param>
    requires AllElements(es) && |vals| == ParamCount(es)
  {
    if |es| == 0 then []
    else if Marker(es[0][0]) then [Param(es[0][1..], vals[0])] + Paired(es[1..], vals[1..])
    else Paired(es[1..], vals)
  }

  function PathFor(es: seq<string>, vals: seq<string>): string
    requires AllElements(es) && |vals| == ParamCount(es)
  {
    if |es| == 0 then "/" else Join(Fill(es, vals))
  }

  // ---- Filling ---------------------------------------------------------------------------

  lemma {:induction false} FillSolid(es: seq<string>, vals: seq<string>)
    requires AllElements(es) && |vals| == ParamCount(es) && SolidList(vals)
    ensures SolidList(Fill(es, vals)) && |Fill(es, vals)| == |es|
  {
    if |es| > 0 {
      if Marker(es[0][0]) {
        FillSolid(es[1..], vals[1..]);
        assert ([vals[0]] + Fill(es[1..], vals[1..]))[1..] == Fill(es[1..], vals[1..]);
      } else {
        FillSolid(es[1..], vals);
        assert ([es[0]] + Fill(es[1..], vals))[1..] == Fill(es[1..], vals);
      }
    }
  }

  /** The literals in front are not changed by filling. */
  lemma {:induction false} FillBack(es: seq<string>, vals: seq<string>)
    requires AllElements(es) && |vals| == ParamCount(es)
    ensures AllElements(Back(es)) && ParamCount(Back(es)) == |vals|
    ensures Fill(es, vals) == Front(es) + Fill(Back(es), vals)
    ensures Paired(es, vals) == Paired(Back(es), vals)
  {
    if |es| > 0 && !Marker(es[0][0]) {
      FillBack(es[1..], vals);
      var first, rest := [es[0]], Fill(Back(es[1..]), vals);
      assert Front(es) == first + Front(es[1..]) && Back(es) == Back(es[1..]);
      assert first + (Front(es[1..]) + rest) == first + Front(es[1..]) + rest;
    } else {
      assert Front(es) == [] && Back(es) == es;
    }
  }

  lemma {:induction false} BackParams(es: seq<string>)
    requires AllElements(es)
    ensures AllElements(Back(es)) && ParamCount(Back(es)) == ParamCount(es)
  {
    if |es| > 0 && !Marker(es[0][0]) {
      BackParams(es[1..]);
    }
  }

  lemma {:induction false} ColonBack(es: seq<string>)
    requires AllElements(es) && ColonOnly(es)
    ensures AllElements(Back(es)) && ColonOnly(Back(es))
  {
    if |es| > 0 && !Marker(es[0][0]) {
      ColonBack(es[1..]);
    }
  }

  /** The parts fit the pieces that the values make. */
  lemma {:induction false} PartsFitFill(es: seq<string>, vals: seq<string>, i: nat)
    requires AllElements(es) && ColonOnly(es) && |vals| == ParamCount(es)
    requires i < |es|
    ensures |PartTexts(es)| == |es| == |Slashed(Fill(es, vals))|
    ensures PieceFits(PartTexts(es)[i], Slashed(Fill(es, vals))[i])
    decreases |es|
  {
    var rest := if Marker(es[0][0]) then vals[1..] else vals;
    SlashedCons(es, vals);
    if |es| > 1 {
      PartsFitFill(es[1..], rest, if i > 0 then i - 1 else 0);
    } else {
      assert es[1..] == [] && Slashed(Fill([], rest)) == [];
    }
  }

  lemma SlashedCons(es: seq<string>, vals: seq<string>)
    requires AllElements(es) && |vals| == ParamCount(es) && |es| > 0
    ensures var marked := Marker(es[0][0]);
            Slashed(Fill(es, vals))
              == ["/" + (if marked then vals[0] else es[0])]
                 + Slashed(Fill(es[1..], if marked then vals[1..] else vals))
  {
    var rest := Fill(es[1..], if Marker(es[0][0]) then vals[1..] else vals);
    assert Fill(es, vals)[1..] == rest;
  }

  lemma {:induction false} ValuesOfFill(es: seq<string>, vals: seq<string>)
    requires AllElements(es) && ColonOnly(es) && |vals| == ParamCount(es)
    ensures Values(PartTexts(es), Slashed(Fill(es, vals))) == Paired(es, vals)
  {
    if |es| > 0 {
      var rest := if Marker(es[0][0]) then vals[1..] else vals;
      SlashedCons(es, vals);
      ValuesOfFill(es[1..], rest);
      assert PartTexts(es)[1..] == PartTexts(es[1..]);
      assert Slashed(Fill(es, vals))[1..] == Slashed(Fill(es[1..], rest));
    }
  }

  lemma {:induction false} ColonPartsNoStar(es: seq<string>)
    requires AllElements(es) && ColonOnly(es)
    ensures NoStar(PartTexts(es)) && |PartTexts(es)| == |es|
  {
    if |es| > 0 {
      ColonPartsNoStar(es[1..]);
      assert forall i :: 1 <= i < |PartTexts(es)| ==> PartTexts(es)[i] == PartTexts(es[1..])[i - 1];
    }
  }

  // ---- The bucket -----------------------------------------------------------------------------

  /** What is left of `path` after the bucket of `key` has been found. The root key
      is found as a prefix only when nothing or another slash comes after it. */
  function Remainder(path: string, key: string): string
    requires |key| <= |path|
  {
    if key == "/" && |path| > 1 && path[1] != '/' then path else path[|key|..]
  }

  /** No boundary prefix longer than `key` is in the table. */
  predicate Longest(m: RouteMap, path: string, key: string) {
    forall j :: |key| < j <= |path| && Boundary(path, '/', j) ==> path[..j] !in m
  }

  lemma BucketOfKey(m: RouteMap, path: string, key: string)
    requires Rooted(path) && key in m && Longest(m, path, key)
    requires 0 < |key| <= |path| && path[..|key|] == key
    requires key == "/" || |path| == |key| || path[|key|] == '/'
    ensures FindBucket(m, path).Some?
    ensures FindBucket(m, path).value.routes == m[key] && FindBucket(m, path).value.rest == Remainder(path, key)
  {
    var j := |key|;
    if |path| == j || path[j] == '/' {
      assert Boundary(path, '/', j);
      assert LongestKey(m, path, |path|) == Some(j);
    } else {
      assert LongestKey(m, path, |path|) == None;
    }
  }

  lemma {:induction false} RenderedEnd(fs: seq<string>)
    requires SolidList(fs) && |fs| > 0
    ensures |Join(fs)| > 1 && Join(fs)[0] == '/' && Join(fs)[1] != '/' && Join(fs)[|Join(fs)| - 1] != '/'
  {
    var e, rest := fs[0], Join(fs[1..]);
    JoinCons(e, fs[1..]);
    assert fs == [e] + fs[1..];
    assert ("/" + e + rest)[1] == e[0];
    if |fs| > 1 {
      RenderedEnd(fs[1..]);
      assert ("/" + e + rest)[|"/" + e + rest| - 1] == rest[|rest| - 1];
    } else {
      assert fs[1..] == [] && "/" + e + "" == "/" + e;
    }
  }

  /** How the rendered path starts and goes on. */
  lemma PathParts(es: seq<string>, vals: seq<string>, slash: bool)
    requires AllElements(es) && |vals| == ParamCount(es) && SolidList(vals) && (|es| > 0 || slash)
    ensures AllElements(Back(es)) && |vals| == ParamCount(Back(es))
    ensures var path, key := PathFor(es, vals), KeyOf(RouteText(es, slash));
            && Rooted(path) && 0 < |key| <= |path| && path[..|key|] == key
            && (key == "/" || |path| == |key| || path[|key|] == '/')
            && Remainder(path, key) == Join(Fill(Back(es), vals))
  {
    var front := Front(es);
    FillBack(es, vals);
    FillSolid(es, vals);
    CompileWellFormed(es, slash);
    FrontAndBack(es);
    var filled := Fill(Back(es), vals);
    FillSolid(Back(es), vals);
    JoinConcat(front, filled);
    if |front| > 0 {
      JoinEnd(front);
    }
    if |filled| > 0 {
      RenderedEnd(filled);
    }
    if |es| > 0 {
      RenderedEnd(Fill(es, vals));
    }
  }

  // ---- ":" parameters -----------------------------------------------------------------------------

  /** A route of literals and ":" parameters, rendered with non-empty values without
      slashes, is matched back to itself with every name paired with its value, if no
      longer boundary prefix of the path is a key and no earlier route of its bucket
      fits. */
  lemma ColonRoundTrip(m: RouteMap, maxParams: nat, es: seq<string>, slash: bool, vals: seq<string>, k: nat)
    requires TableOk(m, maxParams)
    requires AllElements(es) && ColonOnly(es) && (|es| > 0 || slash)
    requires |vals| == ParamCount(es) && SolidList(vals)
    requires var route := RouteText(es, slash); var key := KeyOf(route);
             && key in m && k < |m[key]| && m[key][k].path == route
             && Longest(m, PathFor(es, vals), key)
             && |key| <= |PathFor(es, vals)|
             && forall i :: 0 <= i < k ==> !Fits(m[key][i], Remainder(PathFor(es, vals), key))
    ensures var r := m[KeyOf(RouteText(es, slash))][k];
            Lookup(m, PathFor(es, vals))
              == Matched(r, if |r.parts| == 0 then None else Some(Paired(es, vals)))
  {
    var path, key := PathFor(es, vals), KeyOf(RouteText(es, slash));
    var r, rest := m[key][k], Remainder(path, key);
    PathParts(es, vals, slash);
    BucketOfKey(m, path, key);
    CompileWellFormed(es, slash);
    assert BucketOk(key, m[key], maxParams) && RouteOk(key, m[key][k], maxParams);
    RouteFitsRendered(es, vals, r);
    MatchIsFirstFit(m, path, maxParams);
    assert FirstFit(m[key], rest) == k;
    FillBack(es, vals);
  }

  lemma RouteFitsRendered(es: seq<string>, vals: seq<string>, r: Route)
    requires AllElements(es) && ColonOnly(es) && |vals| == ParamCount(es) && SolidList(vals)
    requires r.parts == AllPartTexts(es)
    ensures AllElements(Back(es)) && |vals| == ParamCount(Back(es))
    ensures var rest := Join(Fill(Back(es), vals));
            && Fits(r, rest) && !r.HasStar()
            && Values(r.parts, Texts(Calls(rest, '/'))) == Paired(es, vals)
            && (|r.parts| == 0 || !EndsInSlash(rest))
  {
    FillBack(es, vals);
    ColonBack(es);
    FrontAndBack(es);
    var back := Back(es);
    var filled := Fill(back, vals);
    var rest := Join(filled);
    FillSolid(back, vals);
    assert rest[0..] == RouteText(filled, false);
    PiecesAt(rest, 0, 0, filled, false);
    ColonPartsNoStar(back);
    ValuesOfFill(back, vals);
    if |back| > 0 {
      RenderedEnd(filled);
    }
    forall i | 0 <= i < |back|
      ensures |Slashed(filled)| == |back| && PieceFits(r.parts[i], Slashed(filled)[i])
    {
      PartsFitFill(back, vals, i);
    }
    if |back| == 0 {
      assert Slashed(filled) == [];
    }
  }

  // ---- A star parameter ------------------------------------------------------------------------------

  /** A route whose only parameter is a final "*name", rendered with a value that is
      not empty and does not end in a slash. The value comes back, except that under
      the root key a slash at its start is lost: the root is then found as a prefix
      of the path. */
  lemma StarRoundTrip(m: RouteMap, maxParams: nat, front: seq<string>, name: string, slash: bool, v: string, k: nat)
    requires TableOk(m, maxParams)
    requires AllLiteral(front) && Element("*" + name)
    requires |v| > 0 && v[|v| - 1] != '/'
    requires var route := RouteText(front + ["*" + name], slash); var key := KeyOf(route);
             var path := Join(front) + "/" + v;
             && key in m && k < |m[key]| && m[key][k].path == route
             && Longest(m, path, key)
             && |key| <= |path|
             && forall i :: 0 <= i < k ==> !Fits(m[key][i], Remainder(path, key))
    ensures var r := m[KeyOf(RouteText(front + ["*" + name], slash))][k];
            Lookup(m, Join(front) + "/" + v)
              == Matched(r, Some([Param(name, if |front| == 0 && v[0] == '/' then v[1..] else v)]))
  {
    var es := front + ["*" + name];
    var path, key := Join(front) + "/" + v, KeyOf(RouteText(es, slash));
    StarCompiles(front, name, slash);
    StarRest(front, v);
    BucketOfKey(m, path, key);
    assert BucketOk(key, m[key], maxParams) && RouteOk(key, m[key][k], maxParams);
    StarIsFirst(m, maxParams, path, key, k);
  }

  /** The remainder of the path, under the key of the literals in front. */
  lemma StarRest(front: seq<string>, v: string)
    requires AllLiteral(front) && |v| > 0
    ensures var path := Join(front) + "/" + v; var key := if |front| == 0 then "/" else Join(front);
            && Rooted(path) && 0 < |key| <= |path| && path[..|key|] == key
            && (key == "/" || path[|key|] == '/')
            && Remainder(path, key) == if |front| == 0 && v[0] == '/' then v else "/" + v
  {
    if |front| > 0 {
      JoinEnd(front);
    }
  }

  /** A chosen star route takes the whole remainder. */
  lemma StarIsFirst(m: RouteMap, maxParams: nat, path: string, key: string, k: nat)
    requires TableOk(m, maxParams) && Rooted(path) && key in m && k < |m[key]| && |key| <= |path|
    requires FindBucket(m, path).Some? && FindBucket(m, path).value.routes == m[key]
    requires var rest := FindBucket(m, path).value.rest;
             && rest == Remainder(path, key) && |rest| > 1
             && (forall i :: 0 <= i < k ==> !Fits(m[key][i], rest))
    requires |m[key][k].parts| == 1 && IsPart(m[key][k].parts[0]) && m[key][k].parts[0][0] == '*'
    ensures Lookup(m, path)
         == Matched(m[key][k], Some([Param(m[key][k].parts[0][1..], Remainder(path, key)[1..])]))
  {
    var rest := FindBucket(m, path).value.rest;
    LoneStar(m[key][k], rest);
    MatchIsFirstFit(m, path, maxParams);
    assert FirstFit(m[key], rest) == k;
  }

  lemma LoneStar(r: Route, rest: string)
    requires |r.parts| == 1 && IsPart(r.parts[0]) && r.parts[0][0] == '*' && |rest| > 1
    ensures Fits(r, rest) && Bindings(r, rest) == [Param(r.parts[0][1..], rest[1..])]
  {
    assert |Calls(rest, '/')| > 0;
    assert r.parts[..0] == [];
  }

  lemma StarCompiles(front: seq<string>, name: string, slash: bool)
    requires AllLiteral(front) && Element("*" + name)
    ensures var route := RouteText(front + ["*" + name], slash);
            && KeyOf(route) == (if |front| == 0 then "/" else Join(front))
            && SplitOf(route).rest == ["*" + name]
  {
    var e := "*" + name;
    CompileParams(front, e, [], slash);
    assert [e] + [] == [e];
    KeyEnd(front, true);
  }
}
