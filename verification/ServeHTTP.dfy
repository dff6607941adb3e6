/** The request path of router/router.go: clean, match, call, or answer with an
    error status. */
module ServeHTTP {
  import opened Wrappers
  import opened RouteTable
  import opened RouteMatching
  import opened CleanPath

  /** What a request ends in. `path` is the URL path the handler sees. */
  datatype Response =
    | Called(route: Route, params: Option<seq<Param>>, path: string)
    | NotFound
    | MethodNotAllowed
    | Crashed

  function Cut(p: string, c: char): (k: nat)
    ensures k <= |p| && (k < |p| ==> p[k] == c) && forall i :: 0 <= i < k ==> p[i] != c
  {
    if |p| == 0 || p[0] == c then 0 else 1 + Cut(p[1..], c)
  }

  function PathNoQuery(p: string): string {
    p[..Cut(p, '?')]
  }

  class Server {
    const router: Router
    const noAutoCleanURL: bool
    var disabled: set<nat>  // ids of the routes that are switched off

    constructor (router: Router, noAutoCleanURL: bool)
      ensures this.router == router && this.noAutoCleanURL == noAutoCleanURL && disabled == {}
    {
      this.router, this.noAutoCleanURL, disabled := router, noAutoCleanURL, {};
    }

    /** The path that is matched. */
    function Routed(urlPath: string): string {
      PathNoQuery(if noAutoCleanURL then urlPath else Clean(urlPath))
    }

    /** The method that is matched: a HEAD request is served by the GET routes. */
    function Effective(httpMethod: string): string {
      if httpMethod == "HEAD" && !router.noAutoHeadToGet then "GET" else httpMethod
    }

    /** What a request is answered with: the handler that runs is that of the matched
        route, unless it is switched off. */
    ghost predicate Answers(urlPath: string, httpMethod: string, r: Response)
      requires router.Valid()
      reads this, router
    {
      var o := Lookup(router.Table(Effective(httpMethod)), Routed(urlPath));
      && (r == Crashed <==> o == Panicked)
      && (r.Called? <==> o.Matched? && o.route.id !in disabled)
      && (r.Called? ==> r.route == o.route && r.params == o.params
                        && r.path == if noAutoCleanURL || urlPath == "" then urlPath else Clean(urlPath))
      && (r == NotFound ==> Effective(httpMethod) == "GET")
      && (r == MethodNotAllowed ==> Effective(httpMethod) != "GET")
    }

    /** A cleaned path is rooted even after its query is cut, so with cleaning on no
        request crashes, whatever its path. */
    method Serve(urlPath: string, httpMethod: string) returns (r: Response)
      requires router.Valid()
      ensures Answers(urlPath, httpMethod, r)
      ensures !noAutoCleanURL ==> r != Crashed
    {
      var u, path, m := urlPath, urlPath, httpMethod;
      if !noAutoCleanURL {
        var ok;
        u, ok := CleanPath.CleanPath(u);
        if ok {
          path := u;
        }
      }
      if m == "HEAD" && !router.noAutoHeadToGet {
        m := "GET";
      }
      var o := router.Match(m, PathNoQuery(u));
      CleanedNeverPanics(router.Table(m), urlPath, router.maxParams);
      if o == Panicked {
        return Crashed;
      }
      if o.Matched? && o.route.id !in disabled {
        return Called(o.route, o.params, path);
      }
      if m == "GET" {
        return NotFound;
      }
      return MethodNotAllowed;
    }

    /** Router.Match: unlike Serve, it looks at the HEAD routes first. */
    method Match(httpMethod: string, path: string) returns (o: Outcome)
      requires router.Valid()
      ensures var own := Lookup(router.Table(httpMethod), path);
              o == if own == NoRoute && httpMethod == "HEAD" && !router.noAutoHeadToGet
                   then Lookup(router.Table("GET"), path) else own
    {
      o := router.Match(httpMethod, path);
      if o == NoRoute && httpMethod == "HEAD" && !router.noAutoHeadToGet {
        o := router.Match("GET", path);
      }
    }

    /** Router.DisableRoute: switches the matched route off or on again. */
    method DisableRoute(httpMethod: string, path: string, off: bool) returns (done: bool)
      requires router.Valid()
      modifies this`disabled
      ensures var own := Lookup(router.Table(httpMethod), path);
              var o := if own == NoRoute && httpMethod == "HEAD" && !router.noAutoHeadToGet
                       then Lookup(router.Table("GET"), path) else own;
              && done == o.Matched?
              && disabled == if !o.Matched? then old(disabled)
                             else if off then old(disabled) + {o.route.id}
                             else old(disabled) - {o.route.id}
    {
      var o := Match(httpMethod, path);
      done := o.Matched?;
      if done {
        disabled := if off then disabled + {o.route.id} else disabled - {o.route.id};
      }
    }
  }

  lemma CleanIsRooted(p: string)
    ensures Rooted(PathNoQuery(Clean(p)))
  {
    CleanIsCanonical(p);
    var stack: seq<string>, slash: bool :| AllNormal(stack) && Clean(p) == Shape(stack, slash);
    RootedLength(stack);
    assert Clean(p)[0] == '/';
  }

  /** No index is out of range for any path that the cleaner can return. */
  lemma CleanedNeverPanics(m: RouteMap, urlPath: string, maxParams: nat)
    requires TableOk(m, maxParams)
    ensures Lookup(m, PathNoQuery(Clean(urlPath))) != Panicked
  {
    CleanIsRooted(urlPath);
    MatchIsFirstFit(m, PathNoQuery(Clean(urlPath)), maxParams);
  }

  // ---- Which routes serve a method ----------------------------------------------------

  /** With the option off, a HEAD request is answered exactly as a GET request. */
  lemma HeadIsGet(server: Server, urlPath: string, r: Response)
    requires server.router.Valid() && !server.router.noAutoHeadToGet
    ensures server.Answers(urlPath, "HEAD", r) <==> server.Answers(urlPath, "GET", r)
  {
  }

  /** Any other request is served by the routes of its own method, and a HEAD request too
      when the option is on. What nothing serves is not found if it is a GET request, and
      not allowed otherwise. The path is cleaned unless that is switched off, and loses
      its query. */
  lemma OwnMethodServes(server: Server, urlPath: string, httpMethod: string, r: Response)
    requires server.router.Valid() && server.Answers(urlPath, httpMethod, r)
    requires httpMethod != "HEAD" || server.router.noAutoHeadToGet
    ensures var path := PathNoQuery(if server.noAutoCleanURL then urlPath else Clean(urlPath));
            var o := Lookup(server.router.Table(httpMethod), path);
            r == if o == Panicked then Crashed
                 else if o.Matched? && o.route.id !in server.disabled then
                   Called(o.route, o.params, if server.noAutoCleanURL || urlPath == "" then urlPath else Clean(urlPath))
                 else if httpMethod == "GET" then NotFound else MethodNotAllowed
  {
  }

  /** The path ends before the first question mark. */
  lemma {:induction false} QueryIsCut(p: string, query: string)
    requires forall i :: 0 <= i < |p| ==> p[i] != '?'
    ensures PathNoQuery(p) == p && PathNoQuery(p + "?" + query) == p
  {
    var k := Cut(p + "?" + query, '?');
    assert (p + "?" + query)[|p|] == '?';
    assert forall i :: 0 <= i < |p| ==> (p + "?" + query)[i] == p[i];
    assert k == |p|;
  }
}
