/** What the matcher guarantees for rooted paths: it stays in range and finds the
    first route that fits under the longest key. */
module RouteMatching {
  import opened Wrappers
  import opened PathText
  import opened Splitters
  import opened RoutePattern
  import opened RouteTable

  predicate Rooted(path: string) {
    |path| > 0 && path[0] == '/'
  }

  // ---- The two counts --------------------------------------------------------------

  lemma {:induction false} CountDrop(s: string, sep: char, j: nat, i: nat)
    requires j <= i <= |s|
    ensures Count(s[j..], sep, i - j) == Count(s, sep, i)
    decreases |s| - i
  {
    if i < |s| {
      CountDrop(s, sep, j, i + 1);
    }
  }

  /** For a rooted path, the backward count is the number of forward pieces, plus one
      for a final slash. */
  lemma BucketCounts(m: RouteMap, path: string)
    requires Rooted(path) && FindBucket(m, path).Some?
    ensures var b := FindBucket(m, path).value;
            && (b.rest == "" || b.rest[0] == '/')
            && b.nsep == |Calls(b.rest, '/')| + (if EndsInSlash(b.rest) then 1 else 0)
  {
    var b := FindBucket(m, path).value;
    match LongestKey(m, path, |path|)
    case Some(j) =>
      CountDrop(path, '/', j, j);
      CallCount(b.rest, '/', 0, 0);
    case None =>
      CallCount(path, '/', 0, 0);
  }

  // ---- In range ----------------------------------------------------------------------------

  /** Calls in order, from index `base` on. */
  predicate Indexed(calls: seq<Call>, base: nat) {
    forall i :: 0 <= i < |calls| ==> calls[i].pidx == base + i && calls[i].p != ""
  }

  lemma CallsIndexed(rest: string)
    ensures Indexed(Calls(rest, '/'), 0)
  {
    forall k | 0 <= k < |Calls(rest, '/')|
      ensures Calls(rest, '/')[k].pidx == k && Calls(rest, '/')[k].p != ""
    {
      CallIndex(rest, '/', 0, 0, k);
    }
  }

  predicate PieceFits(np: string, p: string) {
    np != "" && (np[0] == ':' || np == p)
  }

  lemma {:induction false} CompareIs(parts: seq<string>, calls: seq<Call>, base: nat)
    requires Indexed(calls, base) && base + |calls| <= |parts| && AllParts(parts)
    ensures Compare(parts, calls) == Go || Compare(parts, calls) == Stop
    ensures Compare(parts, calls) == Go <==>
            forall i :: 0 <= i < |calls| ==> PieceFits(parts[base + i], calls[i].p)
  {
    if |calls| > 0 {
      assert IsPart(parts[base]) && calls[0].pidx == base;
      CompareIs(parts, calls[1..], base + 1);
      assert forall i :: 1 <= i < |calls| ==> calls[i] == calls[1..][i - 1];
      if PieceFits(parts[base], calls[0].p) && Compare(parts, calls[1..]) == Go {
        forall i | 0 <= i < |calls|
          ensures PieceFits(parts[base + i], calls[i].p)
        {
          assert i > 0 ==> PieceFits(parts[base + 1 + (i - 1)], calls[1..][i - 1].p);
        }
      }
      if forall i :: 0 <= i < |calls| ==> PieceFits(parts[base + i], calls[i].p) {
        assert PieceFits(parts[base + 0], calls[0].p);
        forall i | 0 <= i < |calls[1..]|
          ensures PieceFits(parts[base + 1 + i], calls[1..][i].p)
        {
          assert PieceFits(parts[base + (i + 1)], calls[i + 1].p);
        }
      }
    }
  }

  /** The values of the ":" parts, in order. */
  function Values(parts: seq<string>, segs: seq<string>): seq<Param> {
    if |parts| == 0 || |segs| == 0 then []
    else (if parts[0] != "" && parts[0][0] == ':' then [Param(parts[0][1..], Value(segs[0]))] else [])
           + Values(parts[1..], segs[1..])
  }

  predicate NoStar(parts: seq<string>) {
    forall i :: 0 <= i < |parts| ==> IsPart(parts[i]) && parts[i][0] != '*'
  }

  lemma {:induction false} ExtractIsValues(parts: seq<string>, rest: string, calls: seq<Call>, base: nat)
    requires Indexed(calls, base) && base + |calls| <= |parts| && NoStar(parts)
    ensures Extract(parts, rest, calls) == Some(Values(parts[base..], Texts(calls)))
    decreases calls
  {
    if |calls| > 0 {
      assert IsPart(parts[base]) && calls[0].pidx == base;
      assert forall i :: 0 <= i < |calls[1..]| ==> calls[1..][i] == calls[i + 1];
      ExtractIsValues(parts, rest, calls[1..], base + 1);
      assert parts[base..][0] == parts[base] && parts[base..][1..] == parts[base + 1..];
    }
  }

  /** The parameters of a route: the pieces of its ":" parts, and for a star that is
      reached all that is left of the path. */
  function Bindings(r: Route, rest: string): seq<Param> {
    var segs := Texts(Calls(rest, '/'));
    var n := |r.parts| - 1;
    if !r.HasStar() then Values(r.parts, segs)
    else Values(r.parts[..n], segs) + (if |segs| > n then [Param(r.parts[n][1..], Value(rest))] else [])
  }

  /** A star ends the extraction. */
  lemma {:induction false} ExtractStar(r: Route, rest: string, calls: seq<Call>, base: nat)
    requires r.HasStar() && AllParts(r.parts) && StarOnlyLast(r.parts)
    requires Indexed(calls, base) && base < |r.parts|
    ensures var n := |r.parts| - 1;
            Extract(r.parts, rest, calls)
              == Some(Values(r.parts[base..n], Texts(calls))
                        + (if |calls| > n - base then [Param(r.parts[n][1..], Value(rest))] else []))
    decreases calls
  {
    var n := |r.parts| - 1;
    var star := if |calls| > n - base then [Param(r.parts[n][1..], Value(rest))] else [];
    var values := Values(r.parts[base..n], Texts(calls));
    if |calls| == 0 {
      assert Texts(calls) == [] && values == [];
    } else if base < n {
      assert forall i :: 0 <= i < |calls[1..]| ==> calls[1..][i] == calls[i + 1];
      ExtractStar(r, rest, calls[1..], base + 1);
      StarStep(r, rest, calls, base);
      assert values + star == Bound(r.parts[base], rest, calls[0].p) + (Values(r.parts[base + 1..n], Texts(calls[1..])) + star);
    } else {
      assert IsPart(r.parts[base]) && calls[0].pidx == base;
      assert r.parts[base..n] == [] && values == [] && values + star == star;
    }
  }

  /** A piece before the star. */
  lemma StarStep(r: Route, rest: string, calls: seq<Call>, base: nat)
    requires AllParts(r.parts) && StarOnlyLast(r.parts)
    requires Indexed(calls, base) && base < |r.parts| - 1 && |calls| > 0
    ensures var n := |r.parts| - 1; var first := Bound(r.parts[base], rest, calls[0].p);
            && Values(r.parts[base..n], Texts(calls)) == first + Values(r.parts[base + 1..n], Texts(calls[1..]))
            && Extract(r.parts, rest, calls)
               == match Extract(r.parts, rest, calls[1..]) case None => None case Some(more) => Some(first + more)
  {
    var n := |r.parts| - 1;
    assert IsPart(r.parts[base]) && calls[0].pidx == base;
    assert r.parts[base..n][0] == r.parts[base] && r.parts[base..n][1..] == r.parts[base + 1..n];
    assert Texts(calls)[1..] == Texts(calls[1..]);
  }

  lemma StarExtracts(r: Route, rest: string)
    requires r.HasStar() && AllParts(r.parts) && StarOnlyLast(r.parts)
    ensures Extract(r.parts, rest, Calls(rest, '/')) == Some(Bindings(r, rest))
  {
    CallsIndexed(rest);
    ExtractStar(r, rest, Calls(rest, '/'), 0);
    assert r.parts[0..|r.parts| - 1] == r.parts[..|r.parts| - 1];
  }

  // ---- Sound and complete -------------------------------------------------------------------

  /** Whether a route fits what is left of the path: a star takes anything, and
      otherwise every piece agrees with its part. With a final slash the last part
      is not looked at. */
  predicate Fits(r: Route, rest: string) {
    var segs := Texts(Calls(rest, '/'));
    r.HasStar()
    || (|r.parts| == |segs| + (if EndsInSlash(rest) then 1 else 0)
        && forall i :: 0 <= i < |segs| ==> PieceFits(r.parts[i], segs[i]))
  }

  lemma {:induction false} TextAt(calls: seq<Call>, i: nat)
    requires i < |calls|
    ensures Texts(calls)[i] == calls[i].p
  {
    if i > 0 {
      TextAt(calls[1..], i - 1);
    }
  }

  lemma TextsFit(parts: seq<string>, calls: seq<Call>)
    requires |calls| <= |parts|
    ensures (forall i :: 0 <= i < |calls| ==> PieceFits(parts[0 + i], calls[i].p))
            <==> forall i :: 0 <= i < |calls| ==> PieceFits(parts[i], Texts(calls)[i])
  {
    forall i | 0 <= i < |calls|
      ensures Texts(calls)[i] == calls[i].p
      ensures PieceFits(parts[0 + i], calls[i].p) <==> PieceFits(parts[i], Texts(calls)[i])
    {
      TextAt(calls, i);
    }
  }

  lemma VerdictIsFits(r: Route, b: Bucket)
    requires AllParts(r.parts)
    requires b.nsep == |Calls(b.rest, '/')| + (if EndsInSlash(b.rest) then 1 else 0)
    ensures Verdict(r, b) == if Fits(r, b.rest) then Go else Stop
  {
    var calls := Calls(b.rest, '/');
    CallsIndexed(b.rest);
    if !r.HasStar() && |r.parts| == b.nsep {
      CompareIs(r.parts, calls, 0);
      TextsFit(r.parts, calls);
    }
  }

  /** First position of a route that fits, or the number of routes. */
  function FirstFit(routes: seq<Route>, rest: string): (k: nat)
    ensures k <= |routes| && (k < |routes| ==> Fits(routes[k], rest))
    ensures forall i :: 0 <= i < k ==> !Fits(routes[i], rest)
  {
    if |routes| == 0 || Fits(routes[0], rest) then 0 else 1 + FirstFit(routes[1..], rest)
  }

  lemma {:induction false} ChooseIsFirstFit(routes: seq<Route>, b: Bucket)
    requires forall i :: 0 <= i < |routes| ==> AllParts(routes[i].parts)
    requires b.nsep == |Calls(b.rest, '/')| + (if EndsInSlash(b.rest) then 1 else 0)
    ensures var k := FirstFit(routes, b.rest);
            Choose(routes, b) == if k < |routes| then Some(routes[k]) else None
  {
    if |routes| > 0 {
      VerdictIsFits(routes[0], b);
      ChooseIsFirstFit(routes[1..], b);
    }
  }

  /** The parameters of a chosen route. */
  lemma AnswerIs(r: Route, b: Bucket)
    requires AllParts(r.parts) && StarOnlyLast(r.parts) && Fits(r, b.rest)
    requires b.nsep == |Calls(b.rest, '/')| + (if EndsInSlash(b.rest) then 1 else 0)
    ensures Answer(r, b) == Matched(r, if |r.parts| == 0 then None else Some(Bindings(r, b.rest)))
  {
    var calls := Calls(b.rest, '/');
    VerdictIsFits(r, b);
    CallsIndexed(b.rest);
    if |r.parts| > 0 {
      if r.HasStar() {
        StarExtracts(r, b.rest);
      } else {
        assert r.parts[0..] == r.parts;
        ExtractIsValues(r.parts, b.rest, calls, 0);
      }
    }
  }

  // ---- What a final slash costs -----------------------------------------------------------------

  predicate TakesValue(part: string) {
    IsPart(part) && part[0] != '/'
  }

  lemma {:induction false} ParamsCons(parts: seq<string>)
    requires |parts| > 0
    ensures Params(parts) == (if TakesValue(parts[0]) then 1 else 0) + Params(parts[1..])
  {
    var init := parts[..|parts| - 1];
    if |init| > 0 {
      ParamsCons(init);
      assert init[1..] == parts[1..][..|parts[1..]| - 1];
    } else {
      assert Params(parts[1..]) == 0 && Params(init) == 0;
    }
  }

  /** As many values as there are ":" parts with a piece. */
  lemma {:induction false} ValuesCount(parts: seq<string>, segs: seq<string>)
    requires NoStar(parts)
    ensures |Values(parts, segs)| == Params(if |segs| < |parts| then parts[..|segs|] else parts)
    decreases |segs|
  {
    if |parts| > 0 && |segs| > 0 {
      ValuesCount(parts[1..], segs[1..]);
      ParamsCons(parts);
      if |segs| < |parts| {
        ParamsCons(parts[..|segs|]);
        assert parts[..|segs|][1..] == parts[1..][..|segs| - 1];
      }
    }
  }

  /** The last parameter has no value: it is a ":" part under a final slash, or a star
      with too few pieces before it. */
  predicate LastIsMissed(r: Route, rest: string) {
    |r.parts| > 0
    && if r.HasStar() then |Texts(Calls(rest, '/'))| < |r.parts|
       else EndsInSlash(rest) && TakesValue(r.parts[|r.parts| - 1])
  }

  /** A chosen route has a value for each of its parameters exactly when the last one is
      not missed, and otherwise, without a star, for all but the last. */
  lemma BindingsCount(r: Route, rest: string)
    requires AllParts(r.parts) && StarOnlyLast(r.parts) && Fits(r, rest)
    ensures |Bindings(r, rest)| == Params(r.parts) <==> !LastIsMissed(r, rest)
    ensures |Bindings(r, rest)| <= Params(r.parts)
    ensures LastIsMissed(r, rest) && !r.HasStar() ==> |Bindings(r, rest)| == Params(r.parts) - 1
  {
    var segs, n := Texts(Calls(rest, '/')), |r.parts| - 1;
    if n >= 0 {
      var init := r.parts[..n];
      if r.HasStar() {
        ValuesCount(init, segs);
        StarCount(init, |segs|);
      } else {
        ValuesCount(r.parts, segs);
      }
    }
  }

  lemma {:induction false} StarCount(parts: seq<string>, k: nat)
    ensures k < |parts| ==> Params(parts[..k]) <= Params(parts)
  {
    if k < |parts| {
      var init := parts[..|parts| - 1];
      StarCount(init, k);
      assert parts[..k] == init[..k];
    }
  }

  /** Every part agrees with its own segment of the path. */
  predicate AgreesFully(r: Route, rest: string) {
    var segs := Texts(Calls(rest, '/'));
    |r.parts| == |segs| && forall i :: 0 <= i < |segs| ==> PieceFits(r.parts[i], segs[i])
  }

  /** A chosen route without a star agrees with the path part by part exactly when there
      is no final slash: with one, a part more is asked for than there are segments. */
  lemma FitsFully(r: Route, rest: string)
    requires Fits(r, rest) && !r.HasStar()
    ensures AgreesFully(r, rest) <==> !EndsInSlash(rest)
  {
  }

  /** For every rooted path, final slash or not, and every table that AddRoute builds:
      the bucket is that of the longest key among the boundary prefixes, or of "/"; the
      answer is its first route that fits, and there is none exactly when none fits. It
      has one value for each parameter exactly when the last one is not missed, and it
      agrees part by part exactly without a final slash. No index is out of range. */
  lemma MatchIsFirstFit(m: RouteMap, path: string, maxParams: nat)
    requires Rooted(path) && TableOk(m, maxParams)
    ensures Lookup(m, path) != Panicked
    ensures FindBucket(m, path).None? ==> Lookup(m, path) == NoRoute
    ensures FindBucket(m, path).Some? ==>
              var b := FindBucket(m, path).value;
              var k := FirstFit(b.routes, b.rest);
              && (k == |b.routes| <==> Lookup(m, path) == NoRoute)
              && (k < |b.routes| ==>
                    var r := b.routes[k];
                    && Lookup(m, path) == Matched(r, if |r.parts| == 0 then None else Some(Bindings(r, b.rest)))
                    && (|Bindings(r, b.rest)| == Params(r.parts) <==> !LastIsMissed(r, b.rest))
                    && (!r.HasStar() ==> (AgreesFully(r, b.rest) <==> !EndsInSlash(b.rest))))
  {
    if FindBucket(m, path).Some? {
      var b := FindBucket(m, path).value;
      BucketCounts(m, path);
      BucketParts(m, path, maxParams);
      ChooseIsFirstFit(b.routes, b);
      var k := FirstFit(b.routes, b.rest);
      if k < |b.routes| {
        AnswerIs(b.routes[k], b);
        BindingsCount(b.routes[k], b.rest);
        assert !b.routes[k].HasStar() ==> (AgreesFully(b.routes[k], b.rest) <==> !EndsInSlash(b.rest)) by {
          if !b.routes[k].HasStar() {
            FitsFully(b.routes[k], b.rest);
          }
        }
      }
    }
  }

  lemma BucketParts(m: RouteMap, path: string, maxParams: nat)
    requires TableOk(m, maxParams) && FindBucket(m, path).Some?
    ensures var routes := FindBucket(m, path).value.routes;
            forall i :: 0 <= i < |routes| ==> AllParts(routes[i].parts) && StarOnlyLast(routes[i].parts)
  {
    var key := KeyUsed(m, path);
    var routes := FindBucket(m, path).value.routes;
    assert key in m && routes == m[key] && BucketOk(key, m[key], maxParams);
    forall i | 0 <= i < |routes|
      ensures AllParts(routes[i].parts) && StarOnlyLast(routes[i].parts)
    {
      assert RouteOk(key, m[key][i], maxParams);
    }
  }

  /** The key whose bucket is used. */
  function KeyUsed(m: RouteMap, path: string): string {
    match LongestKey(m, path, |path|)
    case Some(j) => path[..j]
    case None => "/"
  }

  /** The key is the longest boundary prefix in the table. Every slash of a rooted
      path but the first is a boundary, and so is its end. */
  lemma KeyIsLongest(m: RouteMap, path: string, j: nat)
    requires Rooted(path) && 0 < j <= |path| && (j == |path| || path[j] == '/') && path[..j] in m
    ensures FindBucket(m, path).Some? && |KeyUsed(m, path)| >= j && KeyUsed(m, path) == path[..|KeyUsed(m, path)|]
  {
    assert Boundary(path, '/', j);
  }

  // ---- Two requests with a final slash --------------------------------------------------------

  lemma UsersBucket(m: RouteMap, path: string)
    requires m.Keys == {"/u"} && |path| > 2 && path[..2] == "/u" && path[2] == '/'
    ensures FindBucket(m, path) == Some(Bucket(m["/u"], path[2..], Count(path, '/', 2)))
  {
    assert path[0] == path[..2][0] && path[1] == path[..2][1];
    assert Boundary(path, '/', 2);
    forall i | 2 < i <= |path| && Boundary(path, '/', i)
      ensures path[..i] !in m
    {
      assert |path[..i]| == i && |"/u"| == 2;
    }
    LongestKeyIs(m, path, |path|, 2);
  }

  /** "/u/:id" answers "/u/", and its handler runs without an id. */
  lemma SlashLosesValue(r: Route)
    requires r.path == RouteText(["u", ":id"], false) && r.parts == SplitOf(r.path).rest
    ensures r.parts == [":id"] && Lookup(map["/u" := [r]], "/u/") == Matched(r, Some([]))
  {
    var m, path, es := map["/u" := [r]], "/u/", [":id"];
    assert ["u"] + es == ["u", ":id"] && es[1..] == [] && ["u"][1..] == [];
    SplitWellFormed(r.path, ["u"], es, false);
    UsersBucket(m, path);
    assert path[2..] == "/" && Count(path, '/', 3) == 0;
  }

  /** "/u/:id/edit" answers "/u/5/": the part "edit" is not looked at. */
  lemma SlashSkipsLiteral(r: Route)
    requires r.path == RouteText(["u", ":id", "edit"], false) && r.parts == SplitOf(r.path).rest
    ensures r.parts == [":id", "/edit"]
    ensures Lookup(map["/u" := [r]], "/u/5/") == Matched(r, Some([Param("id", "5")]))
  {
    var es := [":id", "edit"];
    assert ["u"] + es == ["u", ":id", "edit"] && es[1..] == ["edit"] && ["u"][1..] == [] && ["edit"][1..] == [];
    SplitWellFormed(r.path, ["u"], es, false);
    assert AllElements(["edit"]) && !Marker("edit"[0]);
    assert PartTexts(["edit"]) == ["/" + "edit"] + PartTexts([]);
    assert PartTexts(es) == [":id"] + PartTexts(["edit"]);
    assert "/" + "edit" == "/edit" && r.parts == PartTexts(es);
    SkippedLiteral(r);
  }

  lemma SkippedLiteral(r: Route)
    requires r.parts == [":id", "/edit"]
    ensures Lookup(map["/u" := [r]], "/u/5/") == Matched(r, Some([Param("id", "5")]))
  {
    var m, path := map["/u" := [r]], "/u/5/";
    UsersBucket(m, path);
    var rest := path[2..];
    assert rest == "/5/" && Count(path, '/', 5) == 0 && Count(path, '/', 4) == 1 && Count(path, '/', 3) == 1;
    assert NextSep(rest, '/', 1) == 2 && CallsFrom(rest, '/', 2, 1) == [];
    var c := Call(rest[0..2], 0, 2);
    assert Calls(rest, '/') == [c] && [c][1..] == [];
    assert rest[0..2] == "/5" && ":id"[1..] == "id" && "/5"[1..] == "5";
    assert r.parts[1] == "/edit" && r.parts[1][0] == '/' && r.parts[0][0] == ':';
    assert Compare(r.parts, [c]) == Go && Verdict(r, Bucket([r], rest, 2)) == Go;
    var ps := Bound(":id", rest, "/5");
    assert ps == [Param("id", "5")] && ps + [] == ps;
    assert Extract(r.parts, rest, [c][1..]) == Some([]);
    assert Extract(r.parts, rest, [c]) == Some(ps);
    assert Choose([r], Bucket([r], rest, 2)) == Some(r);
  }
}
