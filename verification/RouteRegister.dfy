/** Registering routes: which texts are accepted, what is registered, and what that
    changes in the answers of the matcher. */
module RouteRegister {
  import opened Wrappers
  import opened PathText
  import opened Splitters
  import opened RoutePattern
  import opened RouteTable
  import opened RouteMatching
  import opened RouteRoundTrip

  // ---- Stars and parameters ---------------------------------------------------------------

  function StarCount(es: seq<string>): nat
    requires AllElements(es)
  {
    if |es| == 0 then 0 else (if es[0][0] == '*' then 1 else 0) + StarCount(es[1..])
  }

  predicate IsStar(e: string) {
    e != "" && e[0] == '*'
  }

  /** No "*" element comes before the last. */
  predicate StarsLast(es: seq<string>)
    requires AllElements(es)
  {
    |es| <= 1 || (es[0][0] != '*' && StarsLast(es[1..]))
  }

  predicate EndsInStar(es: seq<string>)
    requires AllElements(es)
  {
    |es| > 0 && (if |es| == 1 then es[0][0] == '*' else EndsInStar(es[1..]))
  }

  lemma {:induction false} StarsLastCount(es: seq<string>)
    requires AllElements(es)
    ensures StarsLast(es) <==> StarCount(es) == if EndsInStar(es) then 1 else 0
    ensures EndsInStar(es) ==> StarCount(es) >= 1
  {
    if |es| == 1 {
      assert es[1..] == [];
    } else if |es| > 1 {
      StarsLastCount(es[1..]);
    }
  }

  lemma {:induction false} StarsCons(parts: seq<string>)
    requires |parts| > 0
    ensures Stars(parts) == (if IsPart(parts[0]) && parts[0][0] == '*' then 1 else 0) + Stars(parts[1..])
  {
    var init := parts[..|parts| - 1];
    if |init| > 0 {
      StarsCons(init);
      assert init[1..] == parts[1..][..|parts[1..]| - 1];
    } else {
      assert Stars(parts[1..]) == 0 && Stars(init) == 0;
    }
  }

  /** The parts of a route have the stars and the parameters of its elements. */
  lemma {:induction false} PartsCount(es: seq<string>)
    requires AllElements(es)
    ensures Stars(PartTexts(es)) == StarCount(es) && Params(PartTexts(es)) == ParamCount(es)
  {
    if |es| > 0 {
      PartsCount(es[1..]);
      StarsCons(PartTexts(es));
      ParamsCons(PartTexts(es));
      assert PartTexts(es)[1..] == PartTexts(es[1..]);
    }
  }

  lemma {:induction false} BackCount(es: seq<string>)
    requires AllElements(es)
    ensures AllElements(Back(es)) && StarCount(Back(es)) == StarCount(es)
    ensures |Back(es)| > 0 ==> (EndsInStar(Back(es)) <==> EndsInStar(es))
    ensures |Back(es)| == 0 ==> !EndsInStar(es)
  {
    if |es| > 0 && !Marker(es[0][0]) {
      BackCount(es[1..]);
    }
  }

  lemma {:induction false} LastPart(es: seq<string>)
    requires AllElements(es) && |es| > 0
    ensures var parts := PartTexts(es);
            |parts| == |es| && IsPart(parts[|es| - 1]) && (parts[|es| - 1][0] == '*' <==> EndsInStar(es))
  {
    if |es| > 1 {
      LastPart(es[1..]);
    } else {
      assert es[1..] == [];
    }
  }

  // ---- Which routes are accepted -----------------------------------------------------------------

  predicate IsMethod(httpMethod: string) {
    || httpMethod == "GET" || httpMethod == "HEAD" || httpMethod == "POST" || httpMethod == "PUT"
    || httpMethod == "PATCH" || httpMethod == "DELETE" || httpMethod == "CONNECT" || httpMethod == "OPTIONS"
    || httpMethod == "TRACE"
  }

  lemma MethodsAre(httpMethod: string)
    ensures MethodIndex(httpMethod, 0).Some? <==> IsMethod(httpMethod)
  {
    if IsMethod(httpMethod) {
      assert METHODS[0] == "GET" && METHODS[1] == "HEAD" && METHODS[2] == "POST" && METHODS[3] == "PUT"
          && METHODS[4] == "PATCH" && METHODS[5] == "DELETE" && METHODS[6] == "CONNECT" && METHODS[7] == "OPTIONS"
          && METHODS[8] == "TRACE";
      assert METHODS[0..] == METHODS;
    }
  }

  lemma PartsTell(es: seq<string>, parts: seq<string>)
    requires AllElements(es) && parts == AllPartTexts(es)
    ensures Stars(parts) == StarCount(es) && Params(parts) == ParamCount(es)
    ensures |parts| == 0 ==> StarCount(es) == 0
    ensures |parts| > 0 ==> IsPart(parts[|parts| - 1]) && (parts[|parts| - 1][0] == '*' <==> EndsInStar(es))
  {
    FrontAndBack(es);
    BackCount(es);
    BackParams(es);
    PartsCount(Back(es));
    if |Back(es)| > 0 {
      LastPart(Back(es));
    }
  }

  lemma CheckedTells(id: nat, httpMethod: string, group: string, route: string, stars: nat, ends: bool)
    requires var rest := SplitOf(route).rest;
             && Stars(rest) == stars && (|rest| == 0 ==> stars == 0)
             && (|rest| > 0 ==> IsPart(rest[|rest| - 1]) && (rest[|rest| - 1][0] == '*' <==> ends))
    ensures Checked(id, httpMethod, group, route)
         == if stars >= 2 then TooManyStars
            else if stars == 1 && !ends then StarNotLast
            else if !IsMethod(httpMethod) then UnknownMethod
            else Added(Route(id, httpMethod, group, route, SplitOf(route).rest))
  {
    MethodsAre(httpMethod);
  }

  /** A well-formed route is accepted if and only if its method is one of the nine and no
      "*" element comes before the last. Two stars are too many, whatever the method; one
      that is not last is refused as such; and what remains is refused for its method. An
      accepted route has the elements from the first parameter on as its parts. */
  lemma AcceptedExactly(id: nat, httpMethod: string, group: string, es: seq<string>, slash: bool)
    requires AllElements(es) && (|es| > 0 || slash)
    ensures var route := RouteText(es, slash);
            Checked(id, httpMethod, group, route)
              == if StarCount(es) >= 2 then TooManyStars
                 else if !StarsLast(es) then StarNotLast
                 else if !IsMethod(httpMethod) then UnknownMethod
                 else Added(Route(id, httpMethod, group, route, AllPartTexts(es)))
    ensures Checked(id, httpMethod, group, RouteText(es, slash)).Added? <==> IsMethod(httpMethod) && StarsLast(es)
    ensures StarsLast(es) <==> forall i :: 0 <= i < |es| - 1 ==> !IsStar(es[i])
  {
    CompileWellFormed(es, slash);
    PartsTell(es, AllPartTexts(es));
    StarsLastCount(es);
    StarsLastAt(es);
    CheckedTells(id, httpMethod, group, RouteText(es, slash), StarCount(es), EndsInStar(es));
  }

  lemma {:induction false} StarsLastAt(es: seq<string>)
    requires AllElements(es)
    ensures forall i :: 0 <= i < |es| ==> Element(es[i])
    ensures StarsLast(es) <==> forall i :: 0 <= i < |es| - 1 ==> !IsStar(es[i])
  {
    if |es| > 0 {
      StarsLastAt(es[1..]);
      assert forall i :: 1 <= i < |es| ==> es[i] == es[1..][i - 1];
      assert forall i :: 0 <= i < |es[1..]| ==> es[1..][i] == es[i + 1];
    }
  }

  // ---- What registering changes -------------------------------------------------------------------

  lemma {:induction false} SameKeys(m: RouteMap, m': RouteMap, path: string, j: nat)
    requires j <= |path|
    requires forall i :: 0 <= i <= j && Boundary(path, '/', i) ==> (path[..i] in m <==> path[..i] in m')
    ensures LongestKey(m, path, j) == LongestKey(m', path, j)
  {
    if !(Boundary(path, '/', j) && path[..j] in m) && j > 0 {
      SameKeys(m, m', path, j - 1);
    }
  }

  /** A route goes behind those that have its key. */
  lemma {:induction false} FirstFitPush(routes: seq<Route>, r: Route, rest: string)
    ensures FirstFit(routes + [r], rest)
         == if FirstFit(routes, rest) < |routes| then FirstFit(routes, rest)
            else if Fits(r, rest) then |routes| else |routes| + 1
  {
    if |routes| == 0 {
      assert routes + [r] == [r] && [r][1..] == [];
    } else if !Fits(routes[0], rest) {
      assert (routes + [r])[1..] == routes[1..] + [r];
      FirstFitPush(routes[1..], r, rest);
    }
  }

  /** Registering a route under a key that there is changes only the answers to paths that
      use that key and that no route fitted before: the new route answers those it fits. */
  lemma AddedBehind(m: RouteMap, maxParams: nat, key: string, r: Route, path: string)
    requires Rooted(path) && TableOk(m, maxParams) && RouteOk(key, r, maxParams) && key in m
    ensures var m' := Insert(m, key, r);
            if FindBucket(m, path).Some? && KeyUsed(m, path) == key && Lookup(m, path) == NoRoute then
              var rest := FindBucket(m, path).value.rest;
              Lookup(m', path)
                == if !Fits(r, rest) then NoRoute
                   else Matched(r, if |r.parts| == 0 then None else Some(Bindings(r, rest)))
            else Lookup(m', path) == Lookup(m, path)
  {
    var m' := Insert(m, key, r);
    InsertOk(m, key, r, maxParams);
    SameKeys(m, m', path, |path|);
    if FindBucket(m, path).Some? {
      MatchIsFirstFit(m, path, maxParams);
      MatchIsFirstFit(m', path, maxParams);
      var b := FindBucket(m, path).value;
      if KeyUsed(m, path) == key {
        assert FindBucket(m', path) == Some(b.(routes := b.routes + [r]));
        FirstFitPush(b.routes, r, b.rest);
      } else {
        assert FindBucket(m', path) == Some(b);
      }
    }
  }

  /** A new key changes nothing for the paths that it is no boundary prefix of, but for the
      root, which answers whatever has no other key. */
  lemma AddedElsewhere(m: RouteMap, key: string, r: Route, path: string)
    requires forall j :: 0 <= j <= |path| && Boundary(path, '/', j) ==> path[..j] != key
    requires key != "/" || LongestKey(m, path, |path|).Some?
    ensures Lookup(Insert(m, key, r), path) == Lookup(m, path)
  {
    SameKeys(m, Insert(m, key, r), path, |path|);
  }

  /** An accepted route of literals and ":" parameters is found by its renderings, unless a
      longer key or a route registered earlier takes them. */
  lemma AddedIsFound(m: RouteMap, maxParams: nat, r: Route, es: seq<string>, slash: bool, vals: seq<string>)
    requires TableOk(m, maxParams)
    requires AllElements(es) && ColonOnly(es) && (|es| > 0 || slash) && |vals| == ParamCount(es) && SolidList(vals)
    requires Checked(r.id, r.httpMethod, r.group, RouteText(es, slash)) == Added(r)
    requires var key := KeyOf(RouteText(es, slash));
             && Longest(m, PathFor(es, vals), key) && |key| <= |PathFor(es, vals)|
             && (key in m ==> forall i :: 0 <= i < |m[key]| ==> !Fits(m[key][i], Remainder(PathFor(es, vals), key)))
    ensures Lookup(Insert(m, KeyOf(RouteText(es, slash)), r), PathFor(es, vals))
         == Matched(r, if |r.parts| == 0 then None else Some(Paired(es, vals)))
  {
    var key, n := KeyOf(RouteText(es, slash)), Params(r.parts);
    var most := if n > maxParams then n else maxParams;
    var m' := Insert(m, key, r);
    AcceptedIsOk(r, RouteText(es, slash));
    TableGrows(m, maxParams, most);
    InsertOk(m, key, r, most);
    var k := if key in m then |m[key]| else 0;
    assert Longest(m', PathFor(es, vals), key);
    ColonRoundTrip(m', most, es, slash, vals, k);
  }

  /** The same for a final star, with a value that may have slashes inside. */
  lemma AddedStarIsFound(m: RouteMap, maxParams: nat, r: Route, front: seq<string>, name: string, slash: bool, v: string)
    requires TableOk(m, maxParams) && AllLiteral(front) && Element("*" + name) && |v| > 0 && v[|v| - 1] != '/'
    requires Checked(r.id, r.httpMethod, r.group, RouteText(front + ["*" + name], slash)) == Added(r)
    requires var key := KeyOf(RouteText(front + ["*" + name], slash)); var path := Join(front) + "/" + v;
             && Longest(m, path, key) && |key| <= |path|
             && (key in m ==> forall i :: 0 <= i < |m[key]| ==> !Fits(m[key][i], Remainder(path, key)))
    ensures Lookup(Insert(m, KeyOf(RouteText(front + ["*" + name], slash)), r), Join(front) + "/" + v)
         == Matched(r, Some([Param(name, if |front| == 0 && v[0] == '/' then v[1..] else v)]))
  {
    var es := front + ["*" + name];
    var key, n := KeyOf(RouteText(es, slash)), Params(r.parts);
    var most := if n > maxParams then n else maxParams;
    var m' := Insert(m, key, r);
    AcceptedIsOk(r, RouteText(es, slash));
    TableGrows(m, maxParams, most);
    InsertOk(m, key, r, most);
    var k := if key in m then |m[key]| else 0;
    assert Longest(m', Join(front) + "/" + v, key);
    StarRoundTrip(m', most, front, name, slash, v, k);
  }

  lemma AcceptedIsOk(r: Route, route: string)
    requires Checked(r.id, r.httpMethod, r.group, route) == Added(r)
    ensures r.path == route && RouteOk(KeyOf(r.path), r, Params(r.parts))
  {
    RestIsParts(route);
    ChecksPlaceStar(r.parts);
  }
}
