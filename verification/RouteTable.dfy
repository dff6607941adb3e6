/** The route table and the matcher of router/v3.go. A Go panic is an outcome. */
module RouteTable {
  import opened Wrappers
  import opened Splitters
  import opened RoutePattern

  /** A route; `id` tells routes apart as their addresses do in the source. */
  datatype Route = Route(id: nat, httpMethod: string, group: string, path: string, parts: seq<string>) {
    predicate HasStar() {
      |parts| > 0 && IsPart(parts[|parts| - 1]) && parts[|parts| - 1][0] == '*'
    }
  }

  datatype Param = Param(name: string, value: string)

  type RouteMap = map<string, seq<Route>>

  /** No route; a route with its parameters, None when it has no parts; or an index
      out of range. */
  datatype Outcome = NoRoute | Matched(route: Route, params: Option<seq<Param>>) | Panicked

  datatype AddResult = Added(route: Route) | TooManyStars | StarNotLast | UnknownMethod

  const METHODS: seq<string> :=
    ["GET", "HEAD", "POST", "PUT", "PATCH", "DELETE", "CONNECT", "OPTIONS", "TRACE"]

  // ---- The callbacks ------------------------------------------------------------------

  /** Comparing one piece with the part at its index. */
  function CompareSignal(parts: seq<string>, c: Call): Signal {
    if c.pidx >= |parts| || parts[c.pidx] == "" then Fault
    else if parts[c.pidx][0] == ':' then Go
    else if parts[c.pidx] != c.p then Stop
    else Go
  }

  /** Taking the value of one piece; a star takes the rest and ends. */
  function ExtractSignal(parts: seq<string>, c: Call): Signal {
    if c.pidx >= |parts| || parts[c.pidx] == "" then Fault
    else if parts[c.pidx][0] == '*' then Stop
    else Go
  }

  /** A text without its first character. No piece is empty. */
  function Value(s: string): string {
    if |s| == 0 then "" else s[1..]
  }

  /** What the callback appends: the piece for a ":" part, all of the rest for a "*". */
  function Bound(np: string, rest: string, p: string): seq<Param> {
    if np != "" && np[0] == ':' then [Param(np[1..], Value(p))]
    else if np != "" && np[0] == '*' then [Param(np[1..], Value(rest))]
    else []
  }

  // ---- What a match means ----------------------------------------------------------------

  /** The longest prefix of `path`, up to `j`, that ends at a boundary and is a key. */
  function LongestKey(m: RouteMap, path: string, j: nat): (r: Option<nat>)
    requires j <= |path|
    ensures r.Some? ==> r.value <= j && Boundary(path, '/', r.value) && path[..r.value] in m
    ensures forall i :: (if r.Some? then r.value < i <= j else 0 <= i <= j) && Boundary(path, '/', i) ==> path[..i] !in m
  {
    if Boundary(path, '/', j) && path[..j] in m then Some(j)
    else if j == 0 then None
    else LongestKey(m, path, j - 1)
  }

  /** The routes to look at, what is left of the path, and how many parts a route
      without a star must have. */
  datatype Bucket = Bucket(routes: seq<Route>, rest: string, nsep: nat)

  function FindBucket(m: RouteMap, path: string): Option<Bucket> {
    match LongestKey(m, path, |path|)
    case Some(j) => Some(Bucket(m[path[..j]], path[j..], Count(path, '/', j)))
    case None => if "/" in m then Some(Bucket(m["/"], path, Count(path, '/', 0))) else None
  }

  /** The first signal that is not Go. */
  function Compare(parts: seq<string>, calls: seq<Call>): Signal {
    if |calls| == 0 then Go
    else
      var r := CompareSignal(parts, calls[0]);
      if r == Go then Compare(parts, calls[1..]) else r
  }

  function Verdict(r: Route, b: Bucket): Signal {
    if r.HasStar() then Go
    else if |r.parts| != b.nsep then Stop
    else Compare(r.parts, Calls(b.rest, '/'))
  }

  /** The first route whose verdict is not Stop. */
  function Choose(routes: seq<Route>, b: Bucket): Option<Route> {
    if |routes| == 0 then None
    else if Verdict(routes[0], b) != Stop then Some(routes[0])
    else Choose(routes[1..], b)
  }

  /** The values of the pieces, or None when an index is out of range. */
  function Extract(parts: seq<string>, rest: string, calls: seq<Call>): Option<seq<Param>> {
    if |calls| == 0 then Some([])
    else
      var c := calls[0];
      match ExtractSignal(parts, c)
      case Fault => None
      case Stop => Some(Bound(parts[c.pidx], rest, c.p))
      case Go =>
        match Extract(parts, rest, calls[1..])
        case None => None
        case Some(more) => Some(Bound(parts[c.pidx], rest, c.p) + more)
  }

  function Answer(r: Route, b: Bucket): Outcome {
    if Verdict(r, b) == Fault then Panicked
    else if |r.parts| == 0 then Matched(r, None)
    else match Extract(r.parts, b.rest, Calls(b.rest, '/'))
      case None => Panicked
      case Some(params) => Matched(r, Some(params))
  }

  /** The meaning of match. */
  function Lookup(m: RouteMap, path: string): Outcome {
    match FindBucket(m, path)
    case None => NoRoute
    case Some(b) =>
      match Choose(b.routes, b)
      case None => NoRoute
      case Some(r) => Answer(r, b)
  }

  // ---- The loops refine it ---------------------------------------------------------------

  lemma {:induction false} LongestKeyIs(m: RouteMap, path: string, j: nat, k: nat)
    requires k <= j <= |path|
    requires forall i :: k < i <= j && Boundary(path, '/', i) ==> path[..i] !in m
    ensures LongestKey(m, path, j) == LongestKey(m, path, k)
  {
    if k < j {
      LongestKeyIs(m, path, j - 1, k);
    }
  }

  lemma {:induction false} CompareRuns(parts: seq<string>, calls: seq<Call>, n: nat, last: Signal)
    requires n <= |calls|
    requires forall k :: 0 <= k < n && (k < n - 1 || last == Go) ==> CompareSignal(parts, calls[k]) == Go
    requires if last == Go then n == |calls| else n > 0 && CompareSignal(parts, calls[n - 1]) == last
    ensures Compare(parts, calls) == last
  {
    if n > 0 && (n > 1 || last == Go) {
      assert CompareSignal(parts, calls[0]) == Go;
      CompareRuns(parts, calls[1..], n - 1, last);
    }
  }

  /** What calls that stay in range append. */
  function Taken(parts: seq<string>, rest: string, calls: seq<Call>): seq<Param> {
    if |calls| == 0 then []
    else (if calls[0].pidx < |parts| then Bound(parts[calls[0].pidx], rest, calls[0].p) else [])
           + Taken(parts, rest, calls[1..])
  }

  lemma {:induction false} TakenConcat(parts: seq<string>, rest: string, a: seq<Call>, b: seq<Call>)
    ensures Taken(parts, rest, a + b) == Taken(parts, rest, a) + Taken(parts, rest, b)
  {
    if |a| == 0 {
      assert a + b == b;
    } else {
      assert (a + b)[1..] == a[1..] + b;
      TakenConcat(parts, rest, a[1..], b);
    }
  }

  lemma TakenPush(parts: seq<string>, rest: string, calls: seq<Call>, k: nat)
    requires k < |calls| && calls[k].pidx < |parts|
    ensures Taken(parts, rest, calls[..k + 1])
         == Taken(parts, rest, calls[..k]) + Bound(parts[calls[k].pidx], rest, calls[k].p)
  {
    assert calls[..k + 1] == calls[..k] + [calls[k]];
    TakenConcat(parts, rest, calls[..k], [calls[k]]);
    assert Taken(parts, rest, [calls[k]][1..]) == [];
  }

  lemma {:induction false} ExtractRuns(parts: seq<string>, rest: string, calls: seq<Call>, n: nat, last: Signal)
    requires n <= |calls|
    requires forall k :: 0 <= k < n && (k < n - 1 || last == Go) ==> ExtractSignal(parts, calls[k]) == Go
    requires if last == Go then n == |calls| else n > 0 && ExtractSignal(parts, calls[n - 1]) == last
    ensures Extract(parts, rest, calls) == if last == Fault then None else Some(Taken(parts, rest, calls[..n]))
  {
    if n > 0 {
      assert calls[..n][0] == calls[0] && calls[..n][1..] == calls[1..][..n - 1];
      if n > 1 || last == Go {
        assert ExtractSignal(parts, calls[0]) == Go;
        ExtractRuns(parts, rest, calls[1..], n - 1, last);
      } else {
        assert Taken(parts, rest, calls[..n][1..]) == [];
        assert calls[0] == calls[n - 1];
        var np := if calls[0].pidx < |parts| then parts[calls[0].pidx] else "";
        assert Bound(np, rest, calls[0].p) + [] == Bound(np, rest, calls[0].p);
      }
    }
  }

  // ---- The table ---------------------------------------------------------------------------

  function Insert(m: RouteMap, key: string, r: Route): RouteMap {
    m[key := (if key in m then m[key] else []) + [r]]
  }

  /** The route sits under its own key, its parts are its own, a star is only its
      last part, and its parameters fit in a pooled wrapper. */
  predicate RouteOk(key: string, r: Route, maxParams: nat) {
    && KeyOf(r.path) == key && SplitOf(r.path).rest == r.parts
    && AllParts(r.parts) && StarOnlyLast(r.parts) && Params(r.parts) <= maxParams
  }

  predicate BucketOk(key: string, routes: seq<Route>, maxParams: nat) {
    |routes| > 0 && forall i :: 0 <= i < |routes| ==> RouteOk(key, routes[i], maxParams)
  }

  predicate TableOk(m: RouteMap, maxParams: nat) {
    forall key :: key in m ==> BucketOk(key, m[key], maxParams)
  }

  lemma TableGrows(m: RouteMap, before: nat, after: nat)
    requires TableOk(m, before) && before <= after
    ensures TableOk(m, after)
  {
    forall key | key in m
      ensures BucketOk(key, m[key], after)
    {
      assert BucketOk(key, m[key], before);
    }
  }

  lemma InsertOk(m: RouteMap, key: string, r: Route, maxParams: nat)
    requires TableOk(m, maxParams) && RouteOk(key, r, maxParams)
    ensures TableOk(Insert(m, key, r), maxParams)
  {
    assert key in m ==> BucketOk(key, m[key], maxParams);
  }

  lemma RestIsParts(path: string)
    ensures AllParts(SplitOf(path).rest)
  {
    var chunks := FindAll(path, 0);
    if |chunks| >= 2 {
      PartsAreParts(chunks[1..]);
    }
  }

  /** What AddRoute returns: the checks in the source's order. */
  function Checked(id: nat, httpMethod: string, group: string, path: string): AddResult {
    var rest := SplitOf(path).rest;
    if Stars(rest) > 1 then TooManyStars
    else if Stars(rest) == 1 && rest[|rest| - 1] != "" && rest[|rest| - 1][0] != '*' then StarNotLast
    else if MethodIndex(httpMethod, 0) == None then UnknownMethod
    else Added(Route(id, httpMethod, group, path, rest))
  }

  class Router {
    var methods: seq<RouteMap>
    var maxParams: nat
    var added: nat
    const noAutoHeadToGet: bool

    ghost predicate Valid()
      reads this
    {
      |methods| == 9 && forall i :: 0 <= i < 9 ==> TableOk(methods[i], maxParams)
    }

    constructor (noAutoHeadToGet: bool)
      ensures Valid() && methods == seq(9, _ => map[]) && this.noAutoHeadToGet == noAutoHeadToGet
    {
      this.noAutoHeadToGet := noAutoHeadToGet;
      methods := seq(9, _ => map[]);
      maxParams := 0;
      added := 0;
    }

    /** The route map of a method; a method that is not known has none. */
    ghost function Table(httpMethod: string): RouteMap
      reads this
      requires |methods| == 9
    {
      match MethodIndex(httpMethod, 0)
      case Some(i) => methods[i]
      case None => map[]
    }

    /** AddRoute. Nothing changes when it panics. */
    method AddRoute(group: string, httpMethod: string, path: string) returns (r: AddResult)
      requires Valid()
      modifies this
      ensures Valid() && maxParams >= old(maxParams)
      ensures r == Checked(old(added), httpMethod, group, path)
      ensures r.Added? ==>
                var i := MethodIndex(httpMethod, 0);
                && i.Some? && added == old(added) + 1
                && methods == old(methods)[i.value := Insert(old(methods)[i.value], KeyOf(path), r.route)]
      ensures r.Added? ==>
                var num := Params(r.route.parts); maxParams == if num > old(maxParams) then num else old(maxParams)
      ensures !r.Added? ==> methods == old(methods) && maxParams == old(maxParams) && added == old(added)
    {
      var p, rest, num, stars := SplitPathToParts(path);
      if stars > 1 {
        return TooManyStars;
      }
      RestIsParts(path);
      if stars == 1 && rest[|rest| - 1][0] != '*' {
        return StarNotLast;
      }
      ChecksPlaceStar(rest);
      var n := |p| - 1;
      if |p| > 1 && p[n] == '/' {
        p := p[..n];
      }
      var i := MethodIndex(httpMethod, 0);
      if i == None {
        return UnknownMethod;
      }
      var route := Route(added, httpMethod, group, path, rest);
      GrowAll(num);
      InsertOk(methods[i.value], p, route, if num > maxParams then num else maxParams);
      methods := methods[i.value := Insert(methods[i.value], p, route)];
      if num > maxParams {
        maxParams := num;
      }
      added := added + 1;
      return Added(route);
    }

    lemma GrowAll(num: nat)
      requires Valid()
      ensures forall i :: 0 <= i < 9 ==> TableOk(methods[i], if num > maxParams then num else maxParams)
    {
      forall i | 0 <= i < 9
        ensures TableOk(methods[i], if num > maxParams then num else maxParams)
      {
        TableGrows(methods[i], maxParams, if num > maxParams then num else maxParams);
      }
    }

    /** match */
    method Match(httpMethod: string, path: string) returns (o: Outcome)
      requires Valid()
      ensures o == Lookup(Table(httpMethod), path)
      ensures match MethodIndex(httpMethod, 0)
              case Some(i) => o == Lookup(methods[i], path)
              case None => o == NoRoute
    {
      var i := MethodIndex(httpMethod, 0);
      var m := if i == None then map[] else methods[i.value];
      var found, pidx, idx := RevSplitPathFn(path, '/', (c: Call) => c.idx <= |path| && path[..c.idx] in m);
      var nn, rest, nsep;
      assert forall j {:trigger RevCall(path, '/', j)} :: 0 <= j <= |path| ==> RevCall(path, '/', j).idx == j;
      if found {
        LongestKeyIs(m, path, |path|, idx);
        nn, rest, nsep := m[path[..idx]], path[idx..], pidx;
      } else {
        LongestKeyIs(m, path, |path|, 0);
        if "/" in m {
          nn, rest, nsep := m["/"], path, Count(path, '/', 0);
        } else {
          return NoRoute;
        }
      }
      ghost var b := Bucket(nn, rest, nsep);
      assert FindBucket(m, path) == Some(b);
      o := MatchBucket(nn, rest, nsep);
    }
  }

  /** The loop over the routes of a bucket, and the extraction. */
  method MatchBucket(nn: seq<Route>, rest: string, nsep: nat) returns (o: Outcome)
    ensures o == match Choose(nn, Bucket(nn, rest, nsep))
                 case None => NoRoute
                 case Some(r) => Answer(r, Bucket(nn, rest, nsep))
  {
    ghost var b := Bucket(nn, rest, nsep);
    for i := 0 to |nn|
      invariant Choose(nn, b) == Choose(nn[i..], b)
    {
      var n := nn[i];
      assert nn[i..][0] == n && nn[i..][1..] == nn[i + 1..];
      var fits := n.HasStar();
      if !fits && |n.parts| == nsep {
        var k, last := SplitPathFn(rest, '/', (c: Call) => CompareSignal(n.parts, c));
        CompareRuns(n.parts, Calls(rest, '/'), k, last);
        if last == Fault {
          return Panicked;
        }
        fits := last == Go;
      }
      if fits {
        if |n.parts| == 0 {
          return Matched(n, None);
        }
        var params := ExtractParams(n.parts, rest);
        return if params == None then Panicked else Matched(n, Some(params.value));
      }
    }
    return NoRoute;
  }

  /** The second splitPathFn call, with what its callback appends. */
  method ExtractParams(parts: seq<string>, rest: string) returns (params: Option<seq<Param>>)
    ensures params == Extract(parts, rest, Calls(rest, '/'))
  {
    var calls := Calls(rest, '/');
    var n, last := SplitPathFn(rest, '/', (c: Call) => ExtractSignal(parts, c));
    ExtractRuns(parts, rest, calls, n, last);
    if last == Fault {
      return None;
    }
    var ps: seq<Param> := [];
    for k := 0 to n
      invariant ps == Taken(parts, rest, calls[..k])
    {
      var c := calls[k];
      assert ExtractSignal(parts, c) != Fault;
      ps := ps + Bound(parts[c.pidx], rest, c.p);
      TakenPush(parts, rest, calls, k);
    }
    return Some(ps);
  }

  /** 0-based position of the method in the source's array of tables. */
  function MethodIndex(httpMethod: string, i: nat): (r: Option<nat>)
    requires i <= |METHODS|
    ensures r.Some? ==> i <= r.value < 9 && METHODS[r.value] == httpMethod
    ensures r.None? ==> httpMethod !in METHODS[i..]
    decreases |METHODS| - i
  {
    if i == |METHODS| then None else if METHODS[i] == httpMethod then Some(i) else MethodIndex(httpMethod, i + 1)
  }
}
