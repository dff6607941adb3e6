/** Exactly when the matcher runs out of range. It never does for a rooted path; an
    unrooted one can, because its first piece has no slash to be counted. */
module RoutePanics {
  import opened Wrappers
  import opened PathText
  import opened Splitters
  import opened RoutePattern
  import opened RouteTable
  import opened RouteMatching

  /** A route that the comparison accepts up to the last piece of an unrooted path,
      for which it has no part left. A star is accepted at once. */
  predicate AlmostFits(r: Route, path: string) {
    var segs := Texts(Calls(path, '/'));
    r.HasStar() || (|segs| == |r.parts| + 1 && forall i :: 0 <= i < |r.parts| ==> PieceFits(r.parts[i], segs[i]))
  }

  /** The first route accepted so is not a star route. */
  predicate RunsOut(routes: seq<Route>, path: string) {
    |routes| > 0
    && if AlmostFits(routes[0], path) then !routes[0].HasStar() else RunsOut(routes[1..], path)
  }

  predicate Unrooted(path: string) {
    path != "" && path[0] != '/'
  }

  /** Only the first piece of an unrooted path has no slash. */
  lemma UnrootedCounts(path: string)
    requires Unrooted(path)
    ensures |Calls(path, '/')| == Count(path, '/', 0) + (if EndsInSlash(path) then 0 else 1)
  {
    var k := NextSep(path, '/', 1);
    CountSkips(path, '/', 0, k);
    CallCount(path, '/', k, 1);
  }

  /** Under a key found as a prefix, what is left is counted as for a rooted path. */
  lemma FoundCounts(m: RouteMap, path: string)
    requires LongestKey(m, path, |path|).Some?
    ensures FindBucket(m, path).value.nsep >= |Calls(FindBucket(m, path).value.rest, '/')|
  {
    var j := LongestKey(m, path, |path|).value;
    CountDrop(path, '/', j, j);
    CallCount(path[j..], '/', 0, 0);
  }

  // ---- Enough parts ------------------------------------------------------------------

  lemma EnoughParts(r: Route, b: Bucket)
    requires AllParts(r.parts) && StarOnlyLast(r.parts) && b.nsep >= |Calls(b.rest, '/')|
    ensures Verdict(r, b) != Fault
    ensures Verdict(r, b) == Go ==> Answer(r, b) != Panicked
  {
    var calls := Calls(b.rest, '/');
    CallsIndexed(b.rest);
    if r.HasStar() {
      StarExtracts(r, b.rest);
    } else if |r.parts| == b.nsep {
      CompareIs(r.parts, calls, 0);
      ExtractIsValues(r.parts, b.rest, calls, 0);
    }
  }

  lemma {:induction false} EnoughForAll(routes: seq<Route>, b: Bucket)
    requires forall i :: 0 <= i < |routes| ==> AllParts(routes[i].parts) && StarOnlyLast(routes[i].parts)
    requires b.nsep >= |Calls(b.rest, '/')|
    ensures Choose(routes, b).Some? ==> Answer(Choose(routes, b).value, b) != Panicked
  {
    if |routes| > 0 {
      EnoughParts(routes[0], b);
      EnoughForAll(routes[1..], b);
    }
  }

  // ---- One part too few -----------------------------------------------------------------

  lemma {:induction false} CompareRunsOut(parts: seq<string>, calls: seq<Call>, base: nat)
    requires Indexed(calls, base) && base <= |parts| && base + |calls| == |parts| + 1 && AllParts(parts)
    ensures Compare(parts, calls) == Fault || Compare(parts, calls) == Stop
    ensures Compare(parts, calls) == Fault <==>
            forall i :: base <= i < |parts| ==> PieceFits(parts[i], calls[i - base].p)
    decreases calls
  {
    assert calls[0].pidx == base;
    if base < |parts| {
      assert IsPart(parts[base]);
      assert forall i :: 0 <= i < |calls[1..]| ==> calls[1..][i] == calls[i + 1];
      CompareRunsOut(parts, calls[1..], base + 1);
    }
  }

  lemma AlmostVerdict(r: Route, path: string)
    requires AllParts(r.parts) && StarOnlyLast(r.parts) && Unrooted(path) && !EndsInSlash(path)
    ensures var b := Bucket([], path, Count(path, '/', 0));
            && (Verdict(r, b) == Stop <==> !AlmostFits(r, path))
            && (AlmostFits(r, path) ==> (Answer(r, b) == Panicked <==> !r.HasStar()))
  {
    var calls := Calls(path, '/');
    UnrootedCounts(path);
    CallsIndexed(path);
    forall i | 0 <= i < |calls|
      ensures Texts(calls)[i] == calls[i].p
    {
      TextAt(calls, i);
    }
    if r.HasStar() {
      StarExtracts(r, path);
    } else if |r.parts| == Count(path, '/', 0) {
      CompareRunsOut(r.parts, calls, 0);
    }
  }

  lemma {:induction false} AlmostChoice(routes: seq<Route>, b: Bucket)
    requires forall i :: 0 <= i < |routes| ==> AllParts(routes[i].parts) && StarOnlyLast(routes[i].parts)
    requires Unrooted(b.rest) && !EndsInSlash(b.rest) && b.nsep == Count(b.rest, '/', 0)
    ensures RunsOut(routes, b.rest) <==> Choose(routes, b).Some? && Answer(Choose(routes, b).value, b) == Panicked
  {
    if |routes| > 0 {
      AlmostVerdict(routes[0], b.rest);
      AlmostChoice(routes[1..], b);
    }
  }

  // ---- Every path ---------------------------------------------------------------------------

  /** For every path and every table that AddRoute builds, the matcher runs out of
      range exactly when the path is unrooted, does not end in a slash, has no
      boundary prefix in the table, and the first root route that it accepts without
      its last piece is not a star route. */
  lemma PanicsExactly(m: RouteMap, path: string, maxParams: nat)
    requires TableOk(m, maxParams)
    ensures Lookup(m, path) == Panicked
            <==> Unrooted(path) && !EndsInSlash(path)
                 && LongestKey(m, path, |path|) == None && "/" in m && RunsOut(m["/"], path)
  {
    if FindBucket(m, path).Some? {
      var b := FindBucket(m, path).value;
      BucketParts(m, path, maxParams);
      if LongestKey(m, path, |path|).Some? {
        FoundCounts(m, path);
        EnoughForAll(b.routes, b);
      } else if Unrooted(path) && !EndsInSlash(path) {
        AlmostChoice(b.routes, b);
      } else {
        if Unrooted(path) {
          UnrootedCounts(path);
        } else if path != "" {
          BucketCounts(m, path);
        }
        EnoughForAll(b.routes, b);
      }
    }
  }

  /** For instance "*", the path of an OPTIONS request for the whole server, on a table
      that has a root route. The auto-cleaner keeps such paths away. */
  lemma RootRoutePanics(r: Route, maxParams: nat)
    requires r.path == "/" && r.parts == [] && TableOk(map["/" := [r]], maxParams)
    ensures Lookup(map["/" := [r]], "*") == Panicked
  {
    var m, path := map["/" := [r]], "*";
    UnrootedCounts(path);
    assert Count(path, '/', 1) == 0 && Count(path, '/', 0) == 0;
    TextAt(Calls(path, '/'), 0);
    PanicsExactly(m, path, maxParams);
  }
}
