/** A rendered route is served: the round trip from the URL path of a request to the
    handler and its parameters. */
module RouteServing {
  import opened Wrappers
  import opened PathText
  import opened Splitters
  import opened RoutePattern
  import opened RouteTable
  import opened RouteMatching
  import opened RouteRoundTrip
  import opened CleanPath
  import opened ServeHTTP

  predicate QueryFree(e: string) {
    forall i :: 0 <= i < |e| ==> e[i] != '?'
  }

  predicate AllQueryFree(es: seq<string>) {
    forall i :: 0 <= i < |es| ==> QueryFree(es[i])
  }

  // ---- Rendered paths reach the matcher as they are ----------------------------------------

  lemma {:induction false} SolidElements(es: seq<string>)
    ensures SolidList(es) <==> AllSolid(es)
  {
    if |es| > 0 {
      SolidElements(es[1..]);
      if AllSolid(es) {
        assert Solid(es[0]);
      }
      if SolidList(es) {
        assert forall i :: 1 <= i < |es| ==> es[i] == es[1..][i - 1];
      }
    }
  }

  /** Elements can be read off their path. */
  lemma JoinTells(a: seq<string>, b: seq<string>)
    requires AllSolid(a) && AllSolid(b) && Join(a) == Join(b)
    ensures a == b
  {
    SegmentsOfJoin(a);
    SegmentsOfJoin(b);
    assert a == ([""] + a)[1..] && b == ([""] + b)[1..];
  }

  lemma ShapeOf(es: seq<string>, stack: seq<string>, slash: bool)
    requires AllSolid(es) && |es| > 0 && AllSolid(stack) && Join(es) == Shape(stack, slash)
    ensures es == stack
  {
    JoinLength(es);
    assert |stack| == 0 || slash ==> EndsInSlash(Shape(stack, slash));
    if |stack| > 0 && !slash {
      assert Shape(stack, slash) == Join(stack);
      JoinTells(es, stack);
    }
  }

  /** A path of elements is canonical exactly when none of them is "." or "..". */
  lemma RenderedIsCanonical(es: seq<string>)
    requires AllSolid(es) && |es| > 0
    ensures Clean(Join(es)) == Join(es) <==> AllNormal(es)
  {
    CleanFixesCanonical(Join(es));
    if AllNormal(es) {
      assert Shape(es, false) == Join(es);
    } else if Canonical(Join(es)) {
      var stack: seq<string>, slash: bool :| AllNormal(stack) && Join(es) == Shape(stack, slash);
      ShapeOf(es, stack, slash);
    }
  }

  lemma {:induction false} JoinQueryFree(es: seq<string>)
    ensures QueryFree(Join(es)) <==> AllQueryFree(es)
  {
    if |es| > 0 {
      var init, last := es[..|es| - 1], es[|es| - 1];
      JoinQueryFree(init);
      var text := Join(init) + "/" + last;
      assert forall i :: 0 <= i < |Join(init)| ==> text[i] == Join(init)[i];
      assert forall i :: 0 <= i < |last| ==> last[i] == text[|Join(init)| + 1 + i];
      assert forall i :: 0 <= i < |init| ==> init[i] == es[i];
      assert forall i :: 0 <= i < |es| ==> es[i] == if i < |init| then init[i] else last;
    }
  }

  lemma NoQuery(p: string)
    ensures PathNoQuery(p) == p <==> QueryFree(p)
  {
    var k := Cut(p, '?');
    assert PathNoQuery(p) == p ==> k == |p|;
  }

  /** A rendered path passes through the canonicaliser and the cutting of the query
      unchanged exactly when no element is "." or ".." and none has a question mark. */
  lemma RenderedIsRouted(es: seq<string>, vals: seq<string>)
    requires AllElements(es) && |vals| == ParamCount(es) && SolidList(vals)
    ensures var path, filled := PathFor(es, vals), Fill(es, vals);
            (Clean(path) == path <==> AllNormal(filled)) && (PathNoQuery(path) == path <==> AllQueryFree(filled))
  {
    var path, filled := PathFor(es, vals), Fill(es, vals);
    FillSolid(es, vals);
    SolidElements(filled);
    NoQuery(path);
    if |es| == 0 {
      assert Shape([], false) == "/";
      CleanFixesCanonical("/");
    } else {
      RenderedIsCanonical(filled);
      JoinQueryFree(filled);
    }
  }

  // ---- Served ------------------------------------------------------------------------------------

  lemma TableIsOk(router: Router, httpMethod: string)
    requires router.Valid()
    ensures TableOk(router.Table(httpMethod), router.maxParams)
  {
  }

  /** A request for the rendering of a route of literals and ":" parameters runs that
      route's handler with every name paired with its value, if the rendered elements are
      neither "." nor ".." and have no question mark, the route is not switched off, and
      no longer key or earlier route takes the path. */
  lemma ServedRoundTrip(server: Server, httpMethod: string, es: seq<string>, slash: bool, vals: seq<string>, k: nat, resp: Response)
    requires server.router.Valid()
    requires AllElements(es) && ColonOnly(es) && (|es| > 0 || slash)
    requires |vals| == ParamCount(es) && SolidList(vals)
    requires (server.noAutoCleanURL || AllNormal(Fill(es, vals))) && AllQueryFree(Fill(es, vals))
    requires var m := server.router.Table(server.Effective(httpMethod));
             var route := RouteText(es, slash); var key := KeyOf(route);
             && key in m && k < |m[key]| && m[key][k].path == route && m[key][k].id !in server.disabled
             && Longest(m, PathFor(es, vals), key)
             && |key| <= |PathFor(es, vals)|
             && forall i :: 0 <= i < k ==> !Fits(m[key][i], Remainder(PathFor(es, vals), key))
    requires server.Answers(PathFor(es, vals), httpMethod, resp)
    ensures var r := server.router.Table(server.Effective(httpMethod))[KeyOf(RouteText(es, slash))][k];
            resp == Called(r, if |r.parts| == 0 then None else Some(Paired(es, vals)), PathFor(es, vals))
  {
    var m := server.router.Table(server.Effective(httpMethod));
    TableIsOk(server.router, server.Effective(httpMethod));
    RenderedIsRouted(es, vals);
    ColonRoundTrip(m, server.router.maxParams, es, slash, vals, k);
  }
}
