/** The pattern compiler of router/utils.go and router/v3.go: a route text becomes
    a key, the part before its first parameter, and the parts after it. */
module RoutePattern {
  import opened PathText
  import opened Splitters

  predicate Marker(c: char) {
    c == ':' || c == '*'
  }

  function NextMarker(p: string, i: nat): (k: nat)
    requires i <= |p|
    ensures i <= k <= |p| && (k == |p| || Marker(p[k]))
    ensures forall j :: i <= j < k ==> !Marker(p[j])
    decreases |p| - i
  {
    if i == |p| || Marker(p[i]) then i else NextMarker(p, i + 1)
  }

  /** All matches, from `from` on, of the source's regular expression: an optional
      ':', '*' or '/' and then everything up to the next ':' or '*', at least one
      character. A marker with no such character after it is passed over. */
  function FindAll(p: string, from: nat): seq<string>
    requires from <= |p|
    decreases |p| - from
  {
    if from == |p| then []
    else if Marker(p[from]) && (from + 1 == |p| || Marker(p[from + 1])) then FindAll(p, from + 1)
    else
      var k := NextMarker(p, from + 1);
      [p[from..k]] + FindAll(p, k)
  }

  /** A part: a parameter ":name", a rest "*name", or a literal "/text". */
  predicate IsPart(sp: string) {
    sp != "" && (sp[0] == ':' || sp[0] == '*' || sp[0] == '/')
  }

  /** The callback of the compiler keeps the pieces that are parts. */
  function Keep(calls: seq<Call>): seq<string> {
    if |calls| == 0 then []
    else (if IsPart(calls[0].p) then [calls[0].p] else []) + Keep(calls[1..])
  }

  function PartsOf(chunks: seq<string>): seq<string> {
    if |chunks| == 0 then [] else Keep(Calls(chunks[0], '/')) + PartsOf(chunks[1..])
  }

  function Stars(parts: seq<string>): nat {
    if |parts| == 0 then 0
    else Stars(parts[..|parts| - 1]) + (if IsPart(parts[|parts| - 1]) && parts[|parts| - 1][0] == '*' then 1 else 0)
  }

  /** Parts that take a value. */
  function Params(parts: seq<string>): nat {
    if |parts| == 0 then 0
    else Params(parts[..|parts| - 1]) + (if IsPart(parts[|parts| - 1]) && parts[|parts| - 1][0] != '/' then 1 else 0)
  }

  datatype Split = Split(pp: string, rest: seq<string>)

  function SplitOf(p: string): Split {
    var chunks := FindAll(p, 0);
    if |chunks| < 2 then Split(p, []) else Split(chunks[0], PartsOf(chunks[1..]))
  }

  /** The key loses one final slash, unless it is the root. */
  function TrimSlash(pp: string): string {
    if |pp| > 1 && pp[|pp| - 1] == '/' then pp[..|pp| - 1] else pp
  }

  function KeyOf(p: string): string {
    TrimSlash(SplitOf(p).pp)
  }

  lemma {:induction false} KeepConcat(a: seq<Call>, b: seq<Call>)
    ensures Keep(a + b) == Keep(a) + Keep(b)
  {
    if |a| == 0 {
      assert a + b == b;
    } else {
      var first := if IsPart(a[0].p) then [a[0].p] else [];
      KeepConcat(a[1..], b);
      assert (a + b)[0] == a[0] && (a + b)[1..] == a[1..] + b;
      assert Keep(a + b) == first + (Keep(a[1..]) + Keep(b));
    }
  }

  lemma {:induction false} PartsOfConcat(a: seq<string>, b: seq<string>)
    ensures PartsOf(a + b) == PartsOf(a) + PartsOf(b)
  {
    if |a| == 0 {
      assert a + b == b;
    } else {
      assert (a + b)[1..] == a[1..] + b;
      PartsOfConcat(a[1..], b);
    }
  }

  lemma KeepPush(calls: seq<Call>, k: nat)
    requires k < |calls|
    ensures Keep(calls[..k + 1]) == Keep(calls[..k]) + (if IsPart(calls[k].p) then [calls[k].p] else [])
  {
    assert calls[..k + 1] == calls[..k] + [calls[k]];
    KeepConcat(calls[..k], [calls[k]]);
    assert Keep([calls[k]][1..]) == [];
  }

  lemma CountPush(parts: seq<string>, sp: string)
    requires IsPart(sp)
    ensures Stars(parts + [sp]) == Stars(parts) + (if sp[0] == '*' then 1 else 0)
    ensures Params(parts + [sp]) == Params(parts) + (if sp[0] != '/' then 1 else 0)
  {
    assert (parts + [sp])[..|parts|] == parts;
  }

  /** The inner splitPathFn call, with what its callback does call by call. */
  method KeepPieces(part: string, before: seq<string>, num0: nat, stars0: nat)
    returns (rest: seq<string>, num: nat, stars: nat)
    requires num0 == Params(before) && stars0 == Stars(before)
    ensures rest == before + Keep(Calls(part, '/'))
    ensures num == Params(rest) && stars == Stars(rest)
  {
    rest, num, stars := before, num0, stars0;
    var n, _ := SplitPathFn(part, '/', _ => Go);
    var calls := Calls(part, '/');
    for k := 0 to n
      invariant rest == before + Keep(calls[..k]) && num == Params(rest) && stars == Stars(rest)
    {
      var sp := calls[k].p;
      KeepPush(calls, k);
      CallIndex(part, '/', 0, 0, k);
      if sp[0] == '*' || sp[0] == ':' || sp[0] == '/' {
        CountPush(rest, sp);
        stars := stars + (if sp[0] == '*' then 1 else 0);
        num := num + (if sp[0] != '/' then 1 else 0);
        rest := rest + [sp];
      }
    }
    assert calls[..n] == calls;
  }

  /** splitPathToParts: the parts, how many of them take a value, and how many are
      stars. */
  method SplitPathToParts(p: string) returns (pp: string, rest: seq<string>, num: nat, stars: nat)
    ensures Split(pp, rest) == SplitOf(p)
    ensures num == Params(rest) && stars == Stars(rest)
  {
    rest, num, stars := [], 0, 0;
    var parts := FindAll(p, 0);
    if |parts| < 2 {
      pp := p;
      return;
    }
    pp := parts[0];
    for i := 1 to |parts|
      invariant rest == PartsOf(parts[1..i]) && num == Params(rest) && stars == Stars(rest)
    {
      rest, num, stars := KeepPieces(parts[i], rest, num, stars);
      OneMore(parts, i);
    }
    assert parts[1..|parts|] == parts[1..];
  }

  lemma OneMore(parts: seq<string>, i: nat)
    requires 1 <= i < |parts|
    ensures PartsOf(parts[1..i + 1]) == PartsOf(parts[1..i]) + Keep(Calls(parts[i], '/'))
  {
    assert parts[1..i + 1] == parts[1..i] + [parts[i]];
    PartsOfConcat(parts[1..i], [parts[i]]);
    assert PartsOf([parts[i]][1..]) == [];
  }

  // ---- Every route text ----------------------------------------------------------------

  predicate AllParts(parts: seq<string>) {
    forall i :: 0 <= i < |parts| ==> IsPart(parts[i])
  }

  lemma {:induction false} KeepAllParts(calls: seq<Call>)
    ensures AllParts(Keep(calls))
  {
    if |calls| > 0 {
      KeepAllParts(calls[1..]);
    }
  }

  lemma {:induction false} PartsAreParts(chunks: seq<string>)
    ensures AllParts(PartsOf(chunks))
  {
    if |chunks| > 0 {
      KeepAllParts(Calls(chunks[0], '/'));
      PartsAreParts(chunks[1..]);
    }
  }

  predicate StarOnlyLast(parts: seq<string>) {
    forall i :: 0 <= i < |parts| - 1 ==> IsPart(parts[i]) && parts[i][0] != '*'
  }

  lemma {:induction false} StarsCount(parts: seq<string>, i: nat)
    requires AllParts(parts) && i < |parts| && parts[i][0] == '*'
    ensures Stars(parts) >= 1
    ensures Stars(parts) == 1 ==> forall j :: 0 <= j < |parts| && parts[j][0] == '*' ==> j == i
  {
    var init := parts[..|parts| - 1];
    if i < |parts| - 1 {
      StarsCount(init, i);
    } else if Stars(parts) == 1 {
      forall j | 0 <= j < |init| && init[j][0] == '*'
        ensures false
      {
        StarsCount(init, j);
      }
    }
  }

  /** The two checks of AddRoute leave a star only as the last part. */
  lemma ChecksPlaceStar(parts: seq<string>)
    requires AllParts(parts) && Stars(parts) <= 1
    requires Stars(parts) == 1 ==> |parts| > 0 && parts[|parts| - 1][0] == '*'
    ensures StarOnlyLast(parts)
  {
    forall i | 0 <= i < |parts| - 1 && parts[i][0] == '*'
      ensures false
    {
      StarsCount(parts, i);
    }
  }

  // ---- What the regular expression finds ---------------------------------------------------

  /** A match: a marker only at its start, and something after it. */
  predicate Chunk(c: string) {
    |c| > 0 && (Marker(c[0]) ==> |c| >= 2) && Unmarked(c[1..])
  }

  predicate StartsMarked(c: string) {
    c != "" && Marker(c[0])
  }

  /** A marker that nothing can follow in a match. */
  predicate Lone(p: string, i: nat)
    requires i < |p|
  {
    Marker(p[i]) && (i + 1 == |p| || Marker(p[i + 1]))
  }

  /** The text without such markers. */
  function Kept(p: string, i: nat): string
    requires i <= |p|
    decreases |p| - i
  {
    if i == |p| then "" else if Lone(p, i) then Kept(p, i + 1) else [p[i]] + Kept(p, i + 1)
  }

  lemma {:induction false} KeptRun(p: string, i: nat, k: nat)
    requires i <= k <= |p| && forall j :: i <= j < k ==> !Lone(p, j)
    ensures Kept(p, i) == p[i..k] + Kept(p, k)
    decreases k - i
  {
    if i < k {
      KeptRun(p, i + 1, k);
      Prepend(p[i], p[i + 1..k], Kept(p, k));
      assert p[i..k] == [p[i]] + p[i + 1..k];
    } else {
      assert p[i..k] == "" && "" + Kept(p, k) == Kept(p, k);
    }
  }

  lemma Prepend(c: char, a: string, b: string)
    ensures [c] + (a + b) == [c] + a + b
  {
  }

  /** The matches are all there is but for lone markers, cut before every marker. */
  lemma {:induction false} FindAllIs(p: string, from: nat)
    requires from <= |p|
    ensures Flatten(FindAll(p, from)) == Kept(p, from)
    ensures forall i :: 0 <= i < |FindAll(p, from)| ==> Chunk(FindAll(p, from)[i])
    ensures forall i :: 1 <= i < |FindAll(p, from)| ==> StartsMarked(FindAll(p, from)[i])
    ensures |FindAll(p, from)| > 0 && Marker(p[from]) ==> StartsMarked(FindAll(p, from)[0])
    decreases |p| - from
  {
    if from < |p| {
      if Lone(p, from) {
        FindAllIs(p, from + 1);
      } else {
        var k := NextMarker(p, from + 1);
        FindAllIs(p, k);
        KeptRun(p, from, k);
        var c, more := p[from..k], FindAll(p, k);
        assert Unmarked(c[1..]) by {
          forall i | 0 <= i < |c[1..]|
            ensures !Marker(c[1..][i])
          {
            assert c[1..][i] == p[from + 1 + i];
          }
        }
        assert ([c] + more)[1..] == more;
      }
    }
  }

  // ---- Well-formed routes --------------------------------------------------------------------

  /** An element of a well-formed route: no slash inside, and a ':' or '*' only at
      its start and before a name. */
  predicate Element(e: string) {
    Solid(e) && (Marker(e[0]) ==> |e| >= 2) && forall i :: 1 <= i < |e| ==> !Marker(e[i])
  }

  // The predicates and functions on lists of elements recurse from the front, so
  // that proofs follow the list and never its indices.

  predicate AllElements(es: seq<string>) {
    |es| == 0 || (Element(es[0]) && AllElements(es[1..]))
  }

  predicate AllLiteral(es: seq<string>) {
    |es| == 0 || (Element(es[0]) && !Marker(es[0][0]) && AllLiteral(es[1..]))
  }

  predicate SolidList(es: seq<string>) {
    |es| == 0 || (Solid(es[0]) && SolidList(es[1..]))
  }

  /** The text of a route of elements, with or without a final slash. */
  function RouteText(es: seq<string>, slash: bool): string {
    Join(es) + (if slash then "/" else "")
  }

  function PartText(e: string): string
    requires e != ""
  {
    if Marker(e[0]) then e else "/" + e
  }

  function PartTexts(es: seq<string>): seq<string>
    requires AllElements(es)
  {
    if |es| == 0 then [] else [PartText(es[0])] + PartTexts(es[1..])
  }

  /** The elements before the first parameter, and those from it on. */
  function Front(es: seq<string>): seq<string>
    requires AllElements(es)
  {
    if |es| == 0 || Marker(es[0][0]) then [] else [es[0]] + Front(es[1..])
  }

  function Back(es: seq<string>): seq<string>
    requires AllElements(es)
  {
    if |es| == 0 || Marker(es[0][0]) then es else Back(es[1..])
  }

  lemma {:induction false} SolidAt(es: seq<string>)
    requires SolidList(es)
    ensures forall i :: 0 <= i < |es| ==> Solid(es[i])
  {
    if |es| > 0 {
      SolidAt(es[1..]);
      assert forall i :: 1 <= i < |es| ==> es[i] == es[1..][i - 1];
    }
  }

  lemma {:induction false} FrontAndBack(es: seq<string>)
    requires AllElements(es)
    ensures es == Front(es) + Back(es)
    ensures AllLiteral(Front(es)) && AllElements(Back(es))
    ensures |Back(es)| > 0 ==> Marker(Back(es)[0][0])
  {
    if |es| > 0 && !Marker(es[0][0]) {
      FrontAndBack(es[1..]);
      assert es == [es[0]] + es[1..];
      assert ([es[0]] + Front(es[1..]))[1..] == Front(es[1..]);
    }
  }

  lemma {:induction false} LiteralPush(es: seq<string>, e: string)
    requires AllLiteral(es) && Element(e) && !Marker(e[0])
    ensures AllLiteral(es + [e])
  {
    if |es| > 0 {
      LiteralPush(es[1..], e);
      assert (es + [e])[1..] == es[1..] + [e];
    } else {
      assert [e][1..] == [];
    }
  }

  lemma {:induction false} LiteralsAreElements(es: seq<string>)
    requires AllLiteral(es)
    ensures AllElements(es)
  {
    if |es| > 0 {
      LiteralsAreElements(es[1..]);
    }
  }

  lemma {:induction false} ElementsAreSolid(es: seq<string>)
    requires AllElements(es)
    ensures SolidList(es)
  {
    if |es| > 0 {
      ElementsAreSolid(es[1..]);
    }
  }

  predicate Unmarked(s: string) {
    forall i :: 0 <= i < |s| ==> !Marker(s[i])
  }

  /** A match ends where the next marker starts. */
  lemma {:induction false} FindAllSuffix(p: string, q: string, from: nat, at: nat)
    requires from <= at <= |p| && q == p[from..]
    ensures FindAll(p, at) == FindAll(q, at - from)
    decreases |p| - at
  {
    if at < |p| {
      if Marker(p[at]) && (at + 1 == |p| || Marker(p[at + 1])) {
        FindAllSuffix(p, q, from, at + 1);
      } else {
        var k := NextMarker(p, at + 1);
        NextMarkerIs(q, at + 1 - from, k - from);
        FindAllSuffix(p, q, from, k);
        assert q[at - from..k - from] == p[at..k];
      }
    }
  }

  lemma NextMarkerIs(p: string, i: nat, k: nat)
    requires i <= k <= |p| && (k == |p| || Marker(p[k])) && forall j :: i <= j < k ==> !Marker(p[j])
    ensures NextMarker(p, i) == k
  {
  }

  lemma FindAllSplit(a: string, b: string)
    requires |a| > 0 && (Marker(a[0]) ==> |a| >= 2) && Unmarked(a[1..])
    requires b == "" || Marker(b[0])
    ensures FindAll(a + b, 0) == [a] + FindAll(b, 0)
  {
    var p := a + b;
    assert forall j :: 1 <= j < |a| ==> p[j] == a[1..][j - 1];
    NextMarkerIs(p, 1, |a|);
    assert p[0..|a|] == a && p[|a|..] == b;
    FindAllSuffix(p, b, |a|, |a|);
  }

  /** Each element with its slash. */
  function Slashed(es: seq<string>): seq<string> {
    if |es| == 0 then [] else ["/" + es[0]] + Slashed(es[1..])
  }

  /** The pieces of a joined path are its elements. */
  lemma {:induction false} PiecesAt(s: string, from: nat, pidx: nat, es: seq<string>, slash: bool)
    requires from <= |s| && s[from..] == RouteText(es, slash) && SolidList(es)
    ensures Texts(CallsFrom(s, '/', from, pidx)) == Slashed(es)
    decreases |es|
  {
    if |es| > 0 {
      var e, rest := es[0], RouteText(es[1..], slash);
      JoinCons(e, es[1..]);
      assert es == [e] + es[1..];
      RestStart(es[1..], slash);
      var k := FirstPiece(s, from, e, rest);
      PiecesAt(s, k, pidx + 1, es[1..], slash);
      var more := CallsFrom(s, '/', k, pidx + 1);
      assert ([Call(s[from..k], pidx, k)] + more)[1..] == more;
    } else {
      assert s[from..] == if slash then "/" else "";
      assert |s[from..]| == |s| - from;
      assert from < |s| ==> s[from] == s[from..][0];
    }
  }

  lemma FirstPiece(s: string, from: nat, e: string, rest: string) returns (k: nat)
    requires from <= |s| && s[from..] == "/" + e + rest && Solid(e) && (rest == "" || rest[0] == '/')
    ensures from < k <= |s| && k == NextSep(s, '/', from + 1)
    ensures s[from] == '/' && s[from..k] == "/" + e && s[k..] == rest
  {
    k := from + 1 + |e|;
    assert s[from..][1 + |e|..] == rest && s[k..] == rest;
    assert forall i :: from + 1 <= i < k ==> s[i] == s[from..][i - from] == e[i - from - 1];
    assert s[from..k] == "/" + e;
    assert k < |s| ==> s[k] == rest[0];
    NextSepIs(s, '/', from + 1, k);
  }

  lemma RestStart(es: seq<string>, slash: bool)
    ensures RouteText(es, slash) == "" || RouteText(es, slash)[0] == '/'
  {
    if |es| > 0 {
      JoinCons(es[0], es[1..]);
      assert es == [es[0]] + es[1..];
    }
  }

  lemma NextSepIs(s: string, sep: char, i: nat, k: nat)
    requires i <= k <= |s| && (k == |s| || s[k] == sep) && forall j :: i <= j < k ==> s[j] != sep
    ensures NextSep(s, sep, i) == k
  {
  }

  // ---- What a well-formed route compiles to ------------------------------------------------

  lemma {:induction false} JoinUnmarked(es: seq<string>)
    requires AllLiteral(es)
    ensures Unmarked(Join(es))
  {
    if |es| > 0 {
      var e, rest := es[0], Join(es[1..]);
      JoinUnmarked(es[1..]);
      JoinCons(e, es[1..]);
      assert es == [e] + es[1..];
      assert Unmarked(e) && Unmarked("/" + e);
      UnmarkedConcat("/" + e, rest);
    }
  }

  lemma UnmarkedConcat(a: string, b: string)
    requires Unmarked(a) && Unmarked(b)
    ensures Unmarked(a + b)
  {
  }

  lemma LiteralTextUnmarked(es: seq<string>, slash: bool)
    requires AllLiteral(es)
    ensures Unmarked(RouteText(es, slash))
  {
    JoinUnmarked(es);
    UnmarkedConcat(Join(es), if slash then "/" else "");
  }

  lemma {:induction false} KeepIsTexts(calls: seq<Call>)
    requires AllParts(Texts(calls))
    ensures Keep(calls) == Texts(calls)
  {
    if |calls| > 0 {
      assert IsPart(Texts(calls)[0]);
      assert Texts(calls[1..]) == Texts(calls)[1..];
      KeepIsTexts(calls[1..]);
    }
  }

  /** A parameter and what comes after it. */
  function Tail(e: string, es: seq<string>, slash: bool): string {
    e + RouteText(es, slash)
  }

  lemma TailCalls(e: string, ls: seq<string>, slash: bool)
    requires Element(e) && SolidList(ls)
    ensures Texts(Calls(Tail(e, ls, slash), '/')) == [e] + Slashed(ls)
  {
    var rest := RouteText(ls, slash);
    var a := e + rest;
    RestStart(ls, slash);
    assert a[|e|..] == rest && a[0..|e|] == e;
    assert |e| < |a| ==> a[|e|] == rest[0];
    NextSepIs(a, '/', 1, |e|);
    PiecesAt(a, |e|, 1, ls, slash);
    var more := CallsFrom(a, '/', |e|, 1);
    assert ([Call(e, 0, |e|)] + more)[1..] == more;
  }

  /** The parts of one chunk: a parameter and the literals after it. */
  lemma ChunkParts(e: string, ls: seq<string>, slash: bool)
    requires Element(e) && Marker(e[0]) && AllLiteral(ls)
    ensures Keep(Calls(Tail(e, ls, slash), '/')) == [e] + Slashed(ls)
  {
    LiteralsAreElements(ls);
    ElementsAreSolid(ls);
    TailCalls(e, ls, slash);
    SlashedAreParts(ls);
    KeepIsTexts(Calls(Tail(e, ls, slash), '/'));
  }

  lemma {:induction false} SlashedAreParts(es: seq<string>)
    ensures AllParts(Slashed(es))
  {
    if |es| > 0 {
      SlashedAreParts(es[1..]);
    }
  }

  lemma {:induction false} SlashedPush(es: seq<string>, e: string)
    ensures Slashed(es + [e]) == Slashed(es) + ["/" + e]
  {
    if |es| > 0 {
      SlashedPush(es[1..], e);
      assert (es + [e])[1..] == es[1..] + [e];
    } else {
      assert [e][1..] == [];
    }
  }

  /** A parameter with literals after it, up to the end, is one chunk. */
  lemma TailEnd(e: string, ls: seq<string>, slash: bool)
    requires Element(e) && Marker(e[0]) && AllLiteral(ls)
    ensures FindAll(Tail(e, ls, slash), 0) == [Tail(e, ls, slash)]
  {
    var text := Tail(e, ls, slash);
    LiteralTextUnmarked(ls, slash);
    TailUnmarked(e, RouteText(ls, slash));
    FindAllSplit(text, "");
    assert text + "" == text;
  }

  /** Up to the next parameter it is one chunk that ends in the slash before it. */
  lemma TailNext(e: string, ls: seq<string>, more: seq<string>, slash: bool)
    requires Element(e) && Marker(e[0]) && AllLiteral(ls)
    requires |more| > 0 && Element(more[0]) && Marker(more[0][0])
    ensures FindAll(Tail(e, ls + more, slash), 0)
         == [Tail(e, ls, true)] + FindAll(Tail(more[0], more[1..], slash), 0)
  {
    var a, b := Tail(e, ls, true), Tail(more[0], more[1..], slash);
    LiteralTextUnmarked(ls, true);
    TailUnmarked(e, RouteText(ls, true));
    SplitText(ls, more, slash);
    assert Tail(e, ls + more, slash) == a + b;
    FindAllSplit(a, b);
  }

  lemma TailNextParts(e: string, ls: seq<string>, more: seq<string>, slash: bool)
    requires Element(e) && Marker(e[0]) && AllLiteral(ls)
    requires |more| > 0 && Element(more[0]) && Marker(more[0][0])
    ensures PartsOf(FindAll(Tail(e, ls + more, slash), 0))
         == [e] + Slashed(ls) + PartsOf(FindAll(Tail(more[0], more[1..], slash), 0))
  {
    TailNext(e, ls, more, slash);
    ChunkParts(e, ls, true);
    PartsOfOne(Tail(e, ls, true), FindAll(Tail(more[0], more[1..], slash), 0));
  }

  lemma TailEndParts(e: string, ls: seq<string>, slash: bool)
    requires Element(e) && Marker(e[0]) && AllLiteral(ls)
    ensures PartsOf(FindAll(Tail(e, ls, slash), 0)) == [e] + Slashed(ls)
  {
    TailEnd(e, ls, slash);
    ChunkParts(e, ls, slash);
    PartsOfOne(Tail(e, ls, slash), []);
    assert [Tail(e, ls, slash)] + [] == [Tail(e, ls, slash)];
  }

  /** A literal read counts among those read before it. */
  lemma TailShift(ls: seq<string>, more: seq<string>)
    requires AllLiteral(ls) && AllElements(more) && |more| > 0 && !Marker(more[0][0])
    ensures AllLiteral(ls + [more[0]]) && ls + more == (ls + [more[0]]) + more[1..]
    ensures Slashed(ls) + PartTexts(more) == Slashed(ls + [more[0]]) + PartTexts(more[1..])
  {
    LiteralPush(ls, more[0]);
    SlashedPush(ls, more[0]);
  }

  /** A parameter read ends the chunk of the one before it. */
  lemma NextTexts(e: string, ls: seq<string>, more: seq<string>)
    requires AllElements(more) && |more| > 0 && Marker(more[0][0])
    ensures [] + more[1..] == more[1..]
    ensures ([e] + Slashed(ls)) + ([more[0]] + (Slashed([]) + PartTexts(more[1..]))) == [e] + (Slashed(ls) + PartTexts(more))
  {
  }

  /** From a parameter on, whatever literals have been read after it. */
  lemma {:induction false} TailParts(text: string, e: string, ls: seq<string>, more: seq<string>, slash: bool)
    requires Element(e) && Marker(e[0]) && AllLiteral(ls) && AllElements(more)
    requires text == Tail(e, ls + more, slash)
    ensures PartsOf(FindAll(text, 0)) == [e] + (Slashed(ls) + PartTexts(more))
    decreases |more|
  {
    if |more| == 0 {
      assert ls + more == ls;
      TailEndParts(e, ls, slash);
    } else if !Marker(more[0][0]) {
      TailShift(ls, more);
      TailParts(text, e, ls + [more[0]], more[1..], slash);
    } else {
      TailNextParts(e, ls, more, slash);
      NextTexts(e, ls, more);
      TailParts(Tail(more[0], more[1..], slash), more[0], [], more[1..], slash);
    }
  }

  lemma {:induction false} FindAllSome(e: string, rest: string)
    requires Element(e) && Marker(e[0])
    ensures |FindAll(e + rest, 0)| > 0
  {
    assert (e + rest)[1] == e[1];
  }

  lemma TailUnmarked(e: string, rest: string)
    requires Element(e) && Unmarked(rest)
    ensures Unmarked((e + rest)[1..])
  {
    var t := (e + rest)[1..];
    forall i | 0 <= i < |t|
      ensures !Marker(t[i])
    {
      assert t[i] == if i + 1 < |e| then e[i + 1] else rest[i + 1 - |e|];
    }
  }

  lemma PartsOfOne(chunk: string, more: seq<string>)
    ensures PartsOf([chunk] + more) == Keep(Calls(chunk, '/')) + PartsOf(more)
  {
    assert ([chunk] + more)[1..] == more;
  }

  lemma SplitText(a: seq<string>, b: seq<string>, slash: bool)
    requires |b| > 0
    ensures RouteText(a + b, slash) == RouteText(a, true) + (b[0] + RouteText(b[1..], slash))
  {
    JoinConcat(a, b);
    JoinCons(b[0], b[1..]);
    assert b == [b[0]] + b[1..];
  }

  /** A route without parameters is its own key. */
  lemma CompileLiteral(es: seq<string>, slash: bool)
    requires AllLiteral(es) && (|es| > 0 || slash)
    ensures SplitOf(RouteText(es, slash)) == Split(RouteText(es, slash), [])
  {
    var text := RouteText(es, slash);
    LiteralTextUnmarked(es, slash);
    FindAllSplit(text, "");
    assert text + "" == text;
  }

  /** Any other route is split before its first parameter. */
  lemma CompileParams(front: seq<string>, e: string, more: seq<string>, slash: bool)
    requires AllLiteral(front) && Element(e) && Marker(e[0]) && AllElements(more)
    ensures SplitOf(RouteText(front + ([e] + more), slash))
         == Split(RouteText(front, true), [e] + PartTexts(more))
  {
    var head, tail := RouteText(front, true), Tail(e, more, slash);
    SplitText(front, [e] + more, slash);
    assert ([e] + more)[1..] == more;
    LiteralTextUnmarked(front, true);
    FindAllSplit(head, tail);
    assert [] + more == more;
    TailParts(tail, e, [], more, slash);
    FindAllSome(e, RouteText(more, slash));
    assert Slashed([]) + PartTexts(more) == PartTexts(more);
    var chunks := FindAll(tail, 0);
    assert ([head] + chunks)[1..] == chunks;
  }

  lemma SplitWellFormed(text: string, front: seq<string>, back: seq<string>, slash: bool)
    requires text == RouteText(front + back, slash) && AllLiteral(front) && AllElements(back)
    requires |back| > 0 ==> Marker(back[0][0])
    requires |front| > 0 || |back| > 0 || slash
    ensures SplitOf(text) == if |back| == 0 then Split(text, []) else Split(RouteText(front, true), PartTexts(back))
  {
    if |back| == 0 {
      assert front + back == front;
      CompileLiteral(front, slash);
    } else {
      CompileParams(front, back[0], back[1..], slash);
      assert back == [back[0]] + back[1..];
    }
  }

  /** The key and the parts of a well-formed route: the key is the elements before
      the first parameter, and the parts are the others, literals with their slash. */
  lemma CompileWellFormed(es: seq<string>, slash: bool)
    requires AllElements(es) && (|es| > 0 || slash)
    ensures KeyOf(RouteText(es, slash)) == (if |Front(es)| == 0 then "/" else Join(Front(es)))
    ensures SplitOf(RouteText(es, slash)).rest == AllPartTexts(es)
  {
    var front, back := Front(es), Back(es);
    FrontAndBack(es);
    KeyEnd(front, if |back| == 0 then slash else true);
    SplitWellFormed(RouteText(es, slash), front, back, slash);
    assert |back| == 0 ==> front == es;
  }

  /** The parts of a well-formed route: its elements from the first parameter on. */
  function AllPartTexts(es: seq<string>): seq<string>
    requires AllElements(es)
  {
    FrontAndBack(es);
    PartTexts(Back(es))
  }

  lemma {:induction false} JoinEnd(es: seq<string>)
    requires AllLiteral(es) && |es| > 0
    ensures |Join(es)| > 1 && Join(es)[0] == '/' && Join(es)[|Join(es)| - 1] != '/'
  {
    JoinCons(es[0], es[1..]);
    assert es == [es[0]] + es[1..];
    if |es| > 1 {
      JoinEnd(es[1..]);
      var e, rest := es[0], Join(es[1..]);
      assert ("/" + e + rest)[|"/" + e + rest| - 1] == rest[|rest| - 1];
    } else {
      assert es[1..] == [] && "/" + es[0] + "" == "/" + es[0];
    }
  }

  lemma KeyEnd(front: seq<string>, slash: bool)
    requires AllLiteral(front) && (|front| > 0 || slash)
    ensures TrimSlash(RouteText(front, slash)) == if |front| == 0 then "/" else Join(front)
  {
    if |front| > 0 {
      JoinEnd(front);
    }
  }

  // ---- Nothing of the route is lost ----------------------------------------------------------

  /** Parts as text: a slash is put before the parameters, literals have theirs. */
  function PartsText(parts: seq<string>): string {
    if |parts| == 0 then ""
    else (if parts[0] != "" && Marker(parts[0][0]) then "/" else "") + parts[0] + PartsText(parts[1..])
  }

  lemma {:induction false} PartTextsJoin(es: seq<string>)
    requires AllElements(es)
    ensures PartsText(PartTexts(es)) == Join(es)
  {
    if |es| > 0 {
      PartTextsJoin(es[1..]);
      JoinCons(es[0], es[1..]);
      assert es == [es[0]] + es[1..] && PartTexts(es)[1..] == PartTexts(es[1..]);
    }
  }

  /** The key, taken as empty when it is the root, and the parts rebuild the route
      without its final slash. */
  lemma CompileLosesNothing(es: seq<string>, slash: bool)
    requires AllElements(es) && (|es| > 0 || slash)
    ensures var route := RouteText(es, slash);
            (if KeyOf(route) == "/" then "" else KeyOf(route)) + PartsText(SplitOf(route).rest) == Join(es)
  {
    FrontAndBack(es);
    CompileWellFormed(es, slash);
    PartTextsJoin(Back(es));
    JoinConcat(Front(es), Back(es));
    if |Front(es)| > 0 {
      JoinEnd(Front(es));
    }
  }

  // ---- Well-formed texts -------------------------------------------------------------------------

  /** The elements between the slashes of a rooted text. */
  function Elements(route: string): seq<string> {
    var segs := Segments(route);
    if segs[|segs| - 1] == "" then (if |segs| < 2 then [] else segs[1..|segs| - 1]) else segs[1..]
  }

  predicate WellFormed(route: string) {
    |route| > 0 && route[0] == '/' && AllElements(Elements(route))
  }

  /** Well-formed texts are exactly the texts of lists of elements. */
  lemma WellFormedText(route: string)
    ensures WellFormed(route) <==>
            exists es: seq<string>, slash: bool :: AllElements(es) && (|es| > 0 || slash) && route == RouteText(es, slash)
    ensures WellFormed(route) ==> route == RouteText(Elements(route), EndsInSlash(route))
  {
    if WellFormed(route) {
      ElementsJoin(route);
    }
    forall es: seq<string>, slash: bool | AllElements(es) && (|es| > 0 || slash) && route == RouteText(es, slash)
      ensures WellFormed(route)
    {
      ElementsOfText(es, slash);
    }
  }

  lemma ElementsJoin(route: string)
    requires |route| > 0 && route[0] == '/'
    ensures route == RouteText(Elements(route), EndsInSlash(route))
  {
    var segs, es := Segments(route), Elements(route);
    JoinOfSegments(route);
    assert segs == [""] + segs[1..];
    LastSegmentEmpty(route);
    JoinCons("", segs[1..]);
    assert ("/" + "" + Join(segs[1..]))[1..] == Join(segs[1..]) && ("/" + route)[1..] == route;
    if segs[|segs| - 1] == "" {
      assert segs[1..] == es + [""];
      assert (es + [""])[..|es|] == es;
    }
  }

  lemma {:induction false} LastSegmentEmpty(route: string)
    ensures var segs := Segments(route); segs[|segs| - 1] == "" <==> route == "" || EndsInSlash(route)
  {
    if route != "" {
      LastSegmentEmpty(route[1..]);
      if |route| == 1 {
        assert route[1..] == "";
      }
    }
  }

  lemma ElementsOfText(es: seq<string>, slash: bool)
    requires AllElements(es) && (|es| > 0 || slash)
    ensures WellFormed(RouteText(es, slash)) && Elements(RouteText(es, slash)) == es
  {
    var text := RouteText(es, slash);
    RestStart(es, slash);
    ElementsAreSolid(es);
    SolidAt(es);
    SegmentsOfJoin(es);
    if slash {
      SegmentsConcat(Join(es), "");
      assert text == Join(es) + "/" + "";
      assert Segments(text) == [""] + es + [""];
    } else {
      assert text == Join(es);
      assert Segments(text) == [""] + es;
      assert Solid(es[|es| - 1]);
    }
  }
}
