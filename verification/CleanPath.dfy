/** The URL canonicaliser of router/utils.go: a loop with a lazily allocated
    buffer, proved equal to a fold of the path's segments over a stack. */
module CleanPath {
  import opened PathText

  /** What one segment does to the stack of elements kept so far. */
  function Visit(stack: seq<string>, seg: string): seq<string> {
    if seg == "" || seg == "." then stack
    else if seg == ".." then (if |stack| == 0 then [] else stack[..|stack| - 1])
    else stack + [seg]
  }

  function Walk(stack: seq<string>, segs: seq<string>): seq<string>
    decreases segs
  {
    if segs == [] then stack else Walk(Visit(stack, segs[0]), segs[1..])
  }

  function LastSegment(p: string): string {
    var segs := Segments(p);
    segs[|segs| - 1]
  }

  /** Whether a slash is put after the last kept element. The length test is the
      source's own: the two-character path "a/" loses its slash. */
  predicate KeepsSlash(p: string) {
    LastSegment(p) == "." || EndsInKeptSlash(p)
  }

  /** `stack` as an absolute path. */
  function Absolute(stack: seq<string>): string {
    if |stack| == 0 then "/" else Join(stack)
  }

  function Clean(p: string): string {
    var stack := Walk([], Segments(p));
    Absolute(stack) + (if stack != [] && KeepsSlash(p) then "/" else "")
  }

  /** An element that survives cleaning. */
  predicate Normal(e: string) {
    Solid(e) && e != "." && e != ".."
  }

  predicate AllNormal(elems: seq<string>) {
    forall i :: 0 <= i < |elems| ==> Normal(elems[i])
  }

  /** "/" or "/a/b/c" or "/a/b/c/" where every element is Normal. */
  ghost predicate Canonical(p: string) {
    exists stack: seq<string>, slash: bool ::
      AllNormal(stack) && p == Shape(stack, slash)
  }

  function Shape(stack: seq<string>, slash: bool): string {
    Absolute(stack) + (if stack != [] && slash then "/" else "")
  }

  // ---- The loop -----------------------------------------------------------

  /** The first `w` bytes of output: they live in `p` until a buffer exists. */
  ghost function Output(buf: array?<char>, p: string, w: nat): string
    requires if buf == null then w <= |p| else w <= buf.Length
    reads buf
  {
    if buf == null then p[..w] else buf[..w]
  }

  /** Appends `c` at `w`, allocating the buffer only once the output differs from
      the input. */
  method BufApp(buf: array?<char>, s: string, w: nat, c: char) returns (out: array?<char>)
    requires w < if buf == null then |s| else buf.Length
    modifies buf
    ensures out == null ==> buf == null
    ensures buf != null ==> out == buf
    ensures buf == null && out != null ==> fresh(out) && out.Length == |s| && s[w] != c
    ensures Output(out, s, w + 1) == old(Output(buf, s, w)) + [c]
  {
    out := buf;
    if out == null {
      if s[w] == c {
        return;
      }
      out := new char[|s|](i requires 0 <= i < |s| => if i < w then s[i] else '\0');
    }
    out[w] := c;
  }

  // ---- What the loop computes, position by position ------------------------

  predicate DotAt(p: string, r: nat)
    requires r < |p|
  {
    p[r] == '.' && (r + 1 == |p| || p[r + 1] == '/')
  }

  predicate DotDotAt(p: string, r: nat)
    requires r < |p|
  {
    p[r] == '.' && r + 1 < |p| && p[r + 1] == '.' && (r + 2 == |p| || p[r + 2] == '/')
  }

  function ElementEnd(p: string, r: nat): (k: nat)
    requires r <= |p|
    ensures r <= k <= |p| && (k == |p| || p[k] == '/')
    ensures forall i :: r <= i < k ==> p[i] != '/'
    decreases |p| - r
  {
    if r == |p| || p[r] == '/' then r else ElementEnd(p, r + 1)
  }

  /** Where the search for the last slash of `text` stops. */
  function BackTo(text: string, v: nat): (u: nat)
    requires 1 <= v < |text|
    ensures 1 <= u <= v
  {
    if v > 1 && text[v] != '/' then BackTo(text, v - 1) else v
  }

  function Back(text: string): string {
    if |text| > 1 then text[..BackTo(text, |text| - 1)] else text
  }

  function Put(text: string, e: string): string {
    text + (if |text| > 1 then "/" else "") + e
  }

  /** Where one turn leaves the reader, and the output it leaves. */
  function NextPosition(p: string, r: nat): (k: nat)
    requires r < |p|
    ensures r < k <= |p|
  {
    if p[r] == '/' || DotAt(p, r) then r + 1
    else if DotDotAt(p, r) then r + 2
    else ElementEnd(p, r + 1)
  }

  function NextText(p: string, r: nat, text: string): string
    requires r < |p|
  {
    if p[r] == '/' || DotAt(p, r) then text
    else if DotDotAt(p, r) then Back(text)
    else Put(text, p[r..ElementEnd(p, r + 1)])
  }

  /** The output once the path has been read from `r` on, given what has been
      written before. */
  function Settle(p: string, r: nat, text: string): string
    requires r <= |p|
    decreases |p| - r
  {
    if r == |p| then text else Settle(p, NextPosition(p, r), NextText(p, r, text))
  }

  // ---- The loop itself ------------------------------------------------------

  /** The source's own test for a slash to keep at the end. */
  predicate EndsInKeptSlash(p: string) {
    |p| > 2 && p[|p| - 1] == '/'
  }

  predicate EndsInDot(p: string) {
    |p| > 0 && p[|p| - 1] == '.' && (|p| == 1 || p[|p| - 2] == '/')
  }

  ghost predicate BufferFits(buf: array?<char>, p: string)
    requires |p| > 0
  {
    if buf == null then p[0] == '/' else buf.Length == if p[0] == '/' then |p| else |p| + 1
  }

  /** The room between the output and the next unread byte. An unrooted path has
      one byte extra for its new leading slash; a rooted path that needed a buffer
      has fallen behind by at least one. */
  ghost predicate Room(p: string, r: nat, w: nat, buffered: bool)
    requires |p| > 0
  {
    w + (if p[0] == '/' && buffered then 1 else 0) <= if p[0] == '/' then r else r + 1
  }

  /** What holds at every turn of the loop, apart from what has been written: there
      is room for the slash that is still to come, `r` is not inside an element, and
      `trailing` is decided by what has been read. */
  ghost predicate AtTurn(buf: array?<char>, p: string, r: nat, w: nat, trailing: bool)
    requires |p| > 0
  {
    && r <= |p| && 1 <= w
    && BufferFits(buf, p)
    && Room(p, r, if w > 1 && (if r < |p| then p[r] != '/' else trailing) then w + 1 else w, buf != null)
    && (r < |p| && p[r] != '/' ==> r == 0 || p[r - 1] == '/')
    && (trailing <==> EndsInKeptSlash(p) || (r == |p| && EndsInDot(p)))
  }

  /** Moves `w` back to the slash before the last written element. */
  method StepBack(buf: array?<char>, p: string, w: nat) returns (v: nat)
    requires w > 1 && if buf == null then w <= |p| else w <= buf.Length
    ensures 1 <= v < w
    ensures Output(buf, p, v) == Back(Output(buf, p, w))
  {
    ghost var text := Output(buf, p, w);
    v := w - 1;
    if buf == null {
      while v > 1 && p[v] != '/'
        invariant 1 <= v < w
        invariant BackTo(text, v) == BackTo(text, w - 1)
      {
        v := v - 1;
      }
    } else {
      while v > 1 && buf[v] != '/'
        invariant 1 <= v < w
        invariant BackTo(text, v) == BackTo(text, w - 1)
      {
        v := v - 1;
      }
    }
  }

  lemma Extend(before: string, p: string, start: nat, r: nat)
    requires start <= r < |p|
    ensures before + p[start..r + 1] == before + p[start..r] + [p[r]]
  {
  }

  /** One byte of an element. A rooted path only needs a buffer once it has fallen
      behind. */
  method CopyByte(buf: array?<char>, p: string, r: nat, w: nat) returns (out: array?<char>)
    requires r < |p| && BufferFits(buf, p) && Room(p, r, w, buf != null)
    modifies buf
    ensures BufferFits(out, p) && Room(p, r + 1, w + 1, out != null)
    ensures out == null || out == buf || fresh(out)
    ensures Output(out, p, w + 1) == old(Output(buf, p, w)) + [p[r]]
  {
    out := BufApp(buf, p, w, p[r]);
  }

  method CopyElement(buf: array?<char>, p: string, start: nat, at: nat)
    returns (out: array?<char>, r: nat, w: nat)
    requires start < |p| && p[start] != '/' && 1 <= at
    requires BufferFits(buf, p) && Room(p, start, at, buf != null)
    modifies buf
    ensures start < r && r == ElementEnd(p, start) && w == at + r - start
    ensures BufferFits(out, p) && Room(p, r, w, out != null)
    ensures out == null || out == buf || fresh(out)
    ensures Output(out, p, w) == old(Output(buf, p, at)) + p[start..r]
  {
    out, r, w := buf, start, at;
    ghost var before := Output(buf, p, at);
    ghost var text := before;
    assert p[start..start] == "";
    while r < |p| && p[r] != '/'
      invariant start <= r <= |p| && w == at + r - start
      invariant ElementEnd(p, r) == ElementEnd(p, start)
      invariant BufferFits(out, p) && Room(p, r, w, out != null)
      invariant out == null || out == buf || fresh(out)
      invariant text == before + p[start..r]
      invariant Output(out, p, w) == text
    {
      out := CopyByte(out, p, r, w);
      Extend(before, p, start, r);
      text := text + [p[r]];
      w := w + 1;
      r := r + 1;
    }
  }

  /** A real path element: writes it, after a slash if one is needed. */
  method AppendElement(buf: array?<char>, p: string, start: nat, at: nat, ghost trailing: bool)
    returns (out: array?<char>, r: nat, w: nat)
    requires start < |p| && p[start] != '/' && !DotAt(p, start)
    requires AtTurn(buf, p, start, at, trailing)
    modifies buf
    ensures r == ElementEnd(p, start + 1)
    ensures out == null || out == buf || fresh(out)
    ensures AtTurn(out, p, r, w, trailing)
    ensures Output(out, p, w) == old(Put(Output(buf, p, at), p[start..r]))
  {
    out, w := buf, at;
    if w > 1 {
      out := BufApp(out, p, w, '/');
      w := w + 1;
    }
    out, r, w := CopyElement(out, p, start, w);
  }

  /** The ".." branch: drops the last written element, if there is one. */
  method DropElement(buf: array?<char>, p: string, r: nat, w: nat, ghost trailing: bool) returns (v: nat)
    requires r < |p| && DotDotAt(p, r) && AtTurn(buf, p, r, w, trailing)
    ensures AtTurn(buf, p, r + 2, v, trailing)
    ensures Output(buf, p, v) == Back(Output(buf, p, w))
  {
    v := w;
    if v > 1 {
      v := StepBack(buf, p, v);
    }
  }

  /** The code after the loop: the trailing slash, and which storage to return. */
  method EndPath(buf: array?<char>, p: string, at: nat, trailing: bool)
    returns (result: string, modified: bool)
    requires |p| > 0 && AtTurn(buf, p, |p|, at, trailing) && Output(buf, p, at)[0] == '/'
    modifies buf
    ensures result == old(Output(buf, p, at)) + (if at > 1 && trailing then "/" else "")
    ensures modified <==> result != p
  {
    var out, w := buf, at;
    if trailing && w > 1 {
      out := BufApp(out, p, w, '/');
      w := w + 1;
    }
    assert Output(out, p, w)[0] == '/';
    if out == null {
      return p[..w], w < |p|;
    }
    return out[..w], true;
  }

  /** Passing over a slash, or over a "." element, writes nothing. */
  lemma SkipTurn(buf: array?<char>, p: string, r: nat, w: nat, trailing: bool)
    requires r < |p| && (p[r] == '/' || DotAt(p, r)) && AtTurn(buf, p, r, w, trailing)
    ensures AtTurn(buf, p, r + 1, w, trailing || (p[r] == '.' && r + 1 == |p|))
  {
  }

  /** One turn of the loop: the branches of its switch. */
  method Turn(buf: array?<char>, p: string, at: nat, start: nat, ends: bool)
    returns (out: array?<char>, r: nat, w: nat, trailing: bool)
    requires start < |p| && AtTurn(buf, p, start, at, ends)
    modifies buf
    ensures r == NextPosition(p, start) && AtTurn(out, p, r, w, trailing)
    ensures out == null || out == buf || fresh(out)
    ensures Output(out, p, w) == old(NextText(p, start, Output(buf, p, at)))
    ensures old(Output(buf, p, at))[0] == '/' ==> Output(out, p, w)[0] == '/'
  {
    out, r, w, trailing := buf, start, at, ends;
    var n := |p|;
    if p[r] == '/' {
      // empty path element
      SkipTurn(buf, p, r, w, trailing);
      r := r + 1;
    } else if p[r] == '.' && r + 1 == n {
      SkipTurn(buf, p, r, w, trailing);
      trailing := true;
      r := r + 1;
    } else if p[r] == '.' && p[r + 1] == '/' {
      SkipTurn(buf, p, r, w, trailing);
      r := r + 1;
    } else if p[r] == '.' && p[r + 1] == '.' && (r + 2 == n || p[r + 2] == '/') {
      w := DropElement(buf, p, r, w, trailing);
      r := r + 2;
    } else {
      out, r, w := AppendElement(buf, p, r, w, trailing);
    }
  }

  /** The body of cleanPath for a non-empty path. */
  method CleanNonEmpty(p: string) returns (result: string, modified: bool)
    requires |p| > 0
    ensures var text := Settle(p, if p[0] == '/' then 1 else 0, "/");
            result == text + (if |text| > 1 && (EndsInKeptSlash(p) || EndsInDot(p)) then "/" else "")
    ensures modified <==> result != p
  {
    var buf: array?<char> := null;
    var r, w := 1, 1;
    if p[0] != '/' {
      r := 0;
      buf := new char[|p| + 1];
      buf[0] := '/';
    }
    var trailing := |p| > 2 && p[|p| - 1] == '/';

    ghost var goal := Settle(p, r, "/");
    assert Output(buf, p, w) == "/";
    while r < |p|
      invariant AtTurn(buf, p, r, w, trailing)
      invariant Settle(p, r, Output(buf, p, w)) == goal
      invariant Output(buf, p, w)[0] == '/'
      invariant buf != null ==> fresh(buf)
      decreases |p| - r
    {
      buf, r, w, trailing := Turn(buf, p, w, r, trailing);
    }
    result, modified := EndPath(buf, p, w, trailing);
  }

  // ---- Lemmas on the fold -------------------------------------------------

  lemma {:induction false} WalkConcat(stack: seq<string>, a: seq<string>, b: seq<string>)
    ensures Walk(stack, a + b) == Walk(Walk(stack, a), b)
    decreases a
  {
    if a == [] {
      assert a + b == b;
    } else {
      assert (a + b)[1..] == a[1..] + b;
      WalkConcat(Visit(stack, a[0]), a[1..], b);
    }
  }

  lemma {:induction false} WalkNormal(stack: seq<string>, segs: seq<string>)
    requires AllNormal(stack)
    requires forall i :: 0 <= i < |segs| ==> SlashFree(segs[i])
    ensures AllNormal(Walk(stack, segs))
    decreases segs
  {
    if segs != [] {
      WalkNormal(Visit(stack, segs[0]), segs[1..]);
    }
  }

  /** Normal elements are pushed unchanged. */
  lemma {:induction false} WalkPushes(stack: seq<string>, segs: seq<string>)
    requires AllNormal(segs)
    ensures Walk(stack, segs) == stack + segs
    decreases segs
  {
    if segs != [] {
      WalkPushes(stack + [segs[0]], segs[1..]);
      assert stack + [segs[0]] + segs[1..] == stack + segs;
    }
  }

  /** A leading slash-free piece is one segment. */
  lemma SegmentsAt(p: string, r: nat, k: nat)
    requires r <= k <= |p| && SlashFree(p[r..k]) && (k == |p| || p[k] == '/')
    ensures k == |p| ==> Segments(p[r..]) == [p[r..k]]
    ensures k < |p| ==> Segments(p[r..]) == [p[r..k]] + Segments(p[k + 1..])
  {
    SegmentsSlashFree(p[r..k]);
    if k == |p| {
      assert p[r..] == p[r..k];
    } else {
      assert p[r..] == p[r..k] + "/" + p[k + 1..];
      SegmentsConcat(p[r..k], p[k + 1..]);
    }
  }

  /** Skipping one slash visits one empty segment. */
  lemma SkipSlash(stack: seq<string>, p: string, r: nat)
    requires r < |p| && p[r] == '/'
    ensures Walk(stack, Segments(p[r..])) == Walk(stack, Segments(p[r + 1..]))
  {
    assert p[r..][1..] == p[r + 1..];
    var rest := Segments(p[r + 1..]);
    assert ([""] + rest)[1..] == rest;
  }

  /** Consuming one segment visits it. The position afterwards is a slash or the
      end of the path, which visits one more empty segment. */
  lemma TakeSegment(stack: seq<string>, p: string, r: nat, k: nat)
    requires r <= k <= |p| && SlashFree(p[r..k]) && (k == |p| || p[k] == '/')
    ensures Walk(stack, Segments(p[r..])) == Walk(Visit(stack, p[r..k]), Segments(p[k..]))
  {
    SegmentsAt(p, r, k);
    var seg, next := p[r..k], Visit(stack, p[r..k]);
    if k == |p| {
      assert p[k..] == "";
      assert [seg][1..] == [] && [""][1..] == [];
      assert Walk(next, [""]) == Walk(next, []);
    } else {
      SkipSlash(next, p, k);
      var rest := Segments(p[k + 1..]);
      assert ([seg] + rest)[1..] == rest;
    }
  }

  /** The last segment is "." exactly when the path ends in a lone dot. */
  lemma {:induction false} LastSegmentDot(p: string)
    ensures LastSegment(p) == "." <==> EndsInDot(p)
  {
    if |p| > 1 {
      LastSegmentDot(p[1..]);
      var tail := Segments(p[1..]);
      if p[0] != '/' && |tail| == 1 {
        SingleSegment(p[1..]);
      }
      if p[0] == '/' && |p| == 2 && p[1] != '/' {
        assert p[1..][1..] == "";
      }
    } else if |p| == 1 {
      assert p[1..] == "" && p == [p[0]];
      assert Segments(p[1..]) == [""];
      assert LastSegment(p) == if p[0] == '/' then "" else p;
    }
  }

  lemma {:induction false} SingleSegment(s: string)
    requires |Segments(s)| == 1
    ensures Segments(s) == [s] && SlashFree(s)
  {
    if s != "" {
      SingleSegment(s[1..]);
      assert [s[0]] + s[1..] == s;
    }
  }


  // ---- The loop computes the fold ------------------------------------------

  lemma {:induction false} JoinLength(stack: seq<string>)
    requires AllSolid(stack) && |stack| > 0
    ensures |Join(stack)| >= 2 && Join(stack)[0] == '/' && Join(stack)[|Join(stack)| - 1] != '/'
  {
    var init, last := stack[..|stack| - 1], stack[|stack| - 1];
    if |init| > 0 {
      JoinLength(init);
    }
    assert Join(stack)[|Join(stack)| - 1] == last[|last| - 1];
  }

  lemma RootedLength(stack: seq<string>)
    requires AllSolid(stack)
    ensures |Absolute(stack)| >= 1 && Absolute(stack)[0] == '/' && (|Absolute(stack)| > 1 <==> |stack| > 0)
  {
    if |stack| > 0 {
      JoinLength(stack);
    }
  }

  lemma PutIsPush(stack: seq<string>, e: string)
    requires AllSolid(stack)
    ensures Put(Absolute(stack), e) == Absolute(stack + [e])
  {
    assert (stack + [e])[..|stack|] == stack;
    RootedLength(stack);
    if |stack| == 0 {
      assert Join(stack + [e]) == "" + "/" + e;
    }
  }

  lemma {:induction false} BackToSlash(text: string, v: nat, slash: nat)
    requires slash <= v < |text| && 1 <= v
    requires text[slash] == '/' && forall i :: slash < i <= v ==> text[i] != '/'
    ensures BackTo(text, v) == if slash > 1 then slash else 1
  {
    if v > 1 && v != slash {
      BackToSlash(text, v - 1, slash);
    }
  }

  lemma BackIsPop(stack: seq<string>)
    requires AllSolid(stack)
    ensures Back(Absolute(stack)) == Absolute(if |stack| == 0 then [] else stack[..|stack| - 1])
  {
    if |stack| > 0 {
      var init, last := stack[..|stack| - 1], stack[|stack| - 1];
      var base := Join(init);
      var text := base + "/" + last;
      JoinLength(stack);
      assert forall i :: |base| < i < |text| ==> text[i] == last[i - |base| - 1];
      BackToSlash(text, |text| - 1, |base|);
      if |init| > 0 {
        JoinLength(init);
      }
    }
  }

  lemma {:induction false} SettleIsWalk(p: string, r: nat, stack: seq<string>)
    requires r <= |p| && AllSolid(stack)
    ensures Settle(p, r, Absolute(stack)) == Absolute(Walk(stack, Segments(p[r..])))
    decreases |p| - r
  {
    if r == |p| {
      assert p[r..] == "" && [""][1..] == [];
      assert Walk(stack, [""]) == Walk(stack, []);
    } else if p[r] == '/' {
      SkipSlash(stack, p, r);
      SettleIsWalk(p, r + 1, stack);
    } else {
      var k := NextPosition(p, r);
      var seg := p[r..k];
      var next := Visit(stack, seg);
      ReadSegment(p, r);
      TakeSegment(stack, p, r, k);
      BackIsPop(stack);
      PutIsPush(stack, seg);
      SettleIsWalk(p, k, next);
    }
  }

  /** A turn that is not on a slash reads one whole segment. */
  lemma ReadSegment(p: string, r: nat)
    requires r < |p| && p[r] != '/'
    ensures var k := NextPosition(p, r);
            && Solid(p[r..k]) && (k == |p| || p[k] == '/')
            && (DotAt(p, r) <==> p[r..k] == ".")
            && (!DotAt(p, r) ==> (DotDotAt(p, r) <==> p[r..k] == ".."))
  {
    var k := NextPosition(p, r);
    assert p[r] == p[r..k][0];
    if r + 1 < k {
      assert p[r + 1] == p[r..k][1];
    }
  }

  // ---- Main results ----------------------------------------------------------

  /** cleanPath. The result is the fold of the segments; `modified` tells exactly
      whether a non-empty input was changed. */
  method CleanPath(p: string) returns (result: string, modified: bool)
    ensures result == Clean(p)
    ensures modified <==> p != "" && result != p
  {
    if p == "" {
      return "/", false;
    }
    LoopArrives(p);
    result, modified := CleanNonEmpty(p);
  }

  lemma LoopArrives(p: string)
    requires p != ""
    ensures var text := Settle(p, if p[0] == '/' then 1 else 0, "/");
            Clean(p) == text + (if |text| > 1 && (EndsInKeptSlash(p) || EndsInDot(p)) then "/" else "")
  {
    var stack := Walk([], Segments(p));
    SegmentsAreSlashFree(p);
    WalkNormal([], Segments(p));
    RootedLength(stack);
    LastSegmentDot(p);
    assert p[0..] == p;
    if p[0] == '/' {
      SkipSlash([], p, 0);
      SettleIsWalk(p, 1, []);
    } else {
      SettleIsWalk(p, 0, []);
    }
  }

  /** The output is rooted and has no empty, "." or ".." element. */
  lemma CleanIsCanonical(p: string)
    ensures Canonical(Clean(p))
  {
    var stack := Walk([], Segments(p));
    SegmentsAreSlashFree(p);
    WalkNormal([], Segments(p));
    assert Clean(p) == Shape(stack, KeepsSlash(p));
  }

  /** Exactly the canonical paths are left alone. */
  lemma CleanFixesCanonical(p: string)
    ensures Clean(p) == p <==> Canonical(p)
  {
    CleanIsCanonical(p);
    if Canonical(p) {
      var stack: seq<string>, slash: bool :| AllNormal(stack) && p == Shape(stack, slash);
      CleanShape(stack, slash);
    }
  }

  lemma WalkShape(stack: seq<string>, slash: bool)
    requires AllNormal(stack)
    ensures Walk([], Segments(Shape(stack, slash))) == stack
  {
    WalkPushes([], stack);
    assert ([""] + stack)[1..] == stack && [] + stack == stack;
    assert Walk([], [""] + stack) == stack;
    assert Walk(stack, [""]) == Walk(stack, [""][1..]) == stack;
    SegmentsOfJoin(stack);
    if |stack| == 0 || slash {
      SegmentsConcat(Join(stack), "");
      assert Join(stack) + "/" + "" == Shape(stack, slash);
      WalkConcat([], [""] + stack, [""]);
    } else {
      assert Shape(stack, slash) == Join(stack);
    }
  }

  lemma CleanShape(stack: seq<string>, slash: bool)
    requires AllNormal(stack)
    ensures Clean(Shape(stack, slash)) == Shape(stack, slash)
  {
    var p := Shape(stack, slash);
    WalkShape(stack, slash);
    LastSegmentDot(p);
    if |stack| > 0 {
      JoinLength(stack);
      LoneDot(stack);
      assert KeepsSlash(p) == slash;
    }
  }

  /** A joined stack of normal elements does not end in a lone dot. */
  lemma LoneDot(stack: seq<string>)
    requires AllNormal(stack) && |stack| > 0
    ensures !EndsInDot(Join(stack))
  {
    var init, last := stack[..|stack| - 1], stack[|stack| - 1];
    var text := Join(stack);
    assert text[|text| - 1] == last[|last| - 1];
    if |last| > 1 {
      assert text[|text| - 2] == last[|last| - 2];
    }
  }

  lemma CleanIdempotent(p: string)
    ensures Clean(Clean(p)) == Clean(p)
  {
    CleanIsCanonical(p);
    CleanFixesCanonical(Clean(p));
  }

  // ---- The rules of the source's own comment --------------------------------

  /** A path in three parts, folded part by part. */
  lemma WalkParts(a: string, m: string, b: string)
    ensures Walk([], Segments(a + "/" + m + "/" + b))
         == Walk(Walk(Walk([], Segments(a)), Segments(m)), Segments(b))
  {
    WalkHalves(a + "/" + m, b);
    WalkHalves(a, m);
  }

  lemma WalkHalves(a: string, b: string)
    ensures Walk([], Segments(a + "/" + b)) == Walk(Walk([], Segments(a)), Segments(b))
  {
    SegmentsConcat(a, b);
    WalkConcat([], Segments(a), Segments(b));
  }

  lemma LastSegmentConcat(a: string, b: string)
    ensures LastSegment(a + "/" + b) == LastSegment(b)
  {
    SegmentsConcat(a, b);
  }

  lemma VisitOne(stack: seq<string>, seg: string)
    requires SlashFree(seg)
    ensures Walk(stack, Segments(seg)) == Visit(stack, seg)
  {
    SegmentsSlashFree(seg);
    assert [seg][1..] == [];
    assert Walk(Visit(stack, seg), []) == Visit(stack, seg);
  }

  /** A slash at the end folds to nothing. */
  lemma WalkSlash(p: string)
    ensures Walk([], Segments(p + "/")) == Walk([], Segments(p))
  {
    assert p + "/" + "" == p + "/";
    VisitOne(Walk([], Segments(p)), "");
    WalkHalves(p, "");
  }

  /** The one kind of path that the source's length test treats differently: an element
      of one character and a slash. */
  predicate LosesSlash(p: string) {
    |p| == 2 && p[1] == '/' && p[0] != '/' && p[0] != '.'
  }

  lemma NothingKept()
    ensures Walk([], Segments("/")) == [] && Walk([], Segments("//")) == [] && Walk([], Segments("./")) == []
  {
    VisitOne([], "");
    VisitOne([], ".");
    WalkSlash("");
    WalkSlash("/");
    WalkSlash(".");
    assert "" + "/" == "/" && "/" + "/" == "//" && "." + "/" == "./";
  }

  /** Any other path that keeps an element and ends in a slash keeps it. */
  lemma SlashCounts(p: string)
    requires Walk([], Segments(p)) != []
    ensures EndsInKeptSlash(p) <==> EndsInSlash(p) && !LosesSlash(p)
  {
    NothingKept();
    assert |p| <= 2 && EndsInSlash(p) && !LosesSlash(p) ==> p == "/" || p == "//" || p == "./";
  }

  /** A path that loses its slash keeps its element. */
  lemma ShortIsKept(p: string)
    requires LosesSlash(p)
    ensures Walk([], Segments(p)) != []
  {
    var e := p[..1];
    assert p == e + "/";
    VisitOne([], e);
    WalkSlash(e);
  }

  /** A path that ends in a slash does not end in a lone dot. */
  lemma KeepsSlashIs(p: string)
    requires Walk([], Segments(p)) != []
    ensures KeepsSlash(p) <==> EndsInDot(p) || (EndsInSlash(p) && !LosesSlash(p))
  {
    SlashCounts(p);
    LastSegmentDot(p);
  }

  lemma ShapeTells(stack: seq<string>, slash: bool, other: bool)
    ensures Shape(stack, slash) == Shape(stack, other) <==> stack == [] || slash == other
  {
    if stack != [] && slash != other {
      assert |Shape(stack, slash)| != |Shape(stack, other)|;
    }
  }

  /** When two paths with the same fold clean alike. */
  lemma CleanAlike(p: string, q: string)
    requires Walk([], Segments(p)) == Walk([], Segments(q))
    ensures Clean(p) == Clean(q)
            <==> Walk([], Segments(p)) == [] || (KeepsSlash(p) <==> KeepsSlash(q))
  {
    ShapeTells(Walk([], Segments(p)), KeepsSlash(p), KeepsSlash(q));
  }

  /** Paths that also end alike, the first of which is long enough. */
  lemma SameEnding(p: string, q: string)
    requires Walk([], Segments(p)) == Walk([], Segments(q))
    requires Walk([], Segments(p)) != [] ==>
               (EndsInDot(p) <==> EndsInDot(q)) && (EndsInSlash(p) <==> EndsInSlash(q)) && !LosesSlash(p)
    ensures Clean(p) == Clean(q) <==> !LosesSlash(q)
  {
    CleanAlike(p, q);
    if Walk([], Segments(p)) != [] {
      KeepsSlashIs(p);
      KeepsSlashIs(q);
    } else if LosesSlash(q) {
      ShortIsKept(q);
    }
  }

  /** A text after a slash decides how a path ends. */
  lemma EndOf(a: string, b: string)
    ensures EndsInDot(a + "/" + b) <==> EndsInDot(b)
    ensures EndsInSlash(a + "/" + b) <==> b == "" || EndsInSlash(b)
  {
    LastSegmentConcat(a, b);
    LastSegmentDot(a + "/" + b);
    LastSegmentDot(b);
  }

  /** Dropping a middle part that folds to nothing changes nothing, but for a path that
      becomes too short to keep its slash. This covers rule 1 (`m` is empty: two
      slashes become one), rule 2 (`m` is "."), rule 3 (`m` is an element followed by
      "..") and rule 4 (`a` is empty, `m` is ".."). */
  lemma DropNeutral(a: string, m: string, b: string)
    requires Walk(Walk([], Segments(a)), Segments(m)) == Walk([], Segments(a))
    ensures Clean(a + "/" + m + "/" + b) == Clean(a + "/" + b) <==> !LosesSlash(a + "/" + b)
  {
    WalkParts(a, m, b);
    WalkHalves(a, b);
    EndOf(a + "/" + m, b);
    EndOf(a, b);
    SameEnding(a + "/" + m + "/" + b, a + "/" + b);
  }

  /** The same for a part at the start: the rules' "./b", "x/../b" and "../b", and a
      leading slash that was not there. */
  lemma DropFirst(m: string, b: string)
    requires Walk([], Segments(m)) == []
    ensures Clean(m + "/" + b) == Clean(b) <==> !LosesSlash(b)
  {
    WalkHalves(m, b);
    EndOf(m, b);
    if b == "" {
      VisitOne([], "");
    }
    SameEnding(m + "/" + b, b);
  }

  /** A part at the end leaves the fold of what comes before it. The slash stays if the
      part ends in "." or in a slash. */
  lemma DropLast(a: string, m: string)
    requires Walk(Walk([], Segments(a)), Segments(m)) == Walk([], Segments(a))
    ensures Clean(a + "/" + m) == Shape(Walk([], Segments(a)), KeepsSlash(a + "/" + m))
    ensures Clean(a + "/" + m) == Clean(a + "/")
            <==> Walk([], Segments(a)) == [] || (KeepsSlash(a + "/" + m) <==> !LosesSlash(a + "/"))
  {
    WalkHalves(a, m);
    WalkSlash(a);
    CleanAlike(a + "/" + m, a + "/");
    if Walk([], Segments(a)) != [] {
      assert a + "/" + "" == a + "/";
      EndOf(a, "");
      KeepsSlashIs(a + "/");
    }
  }

  /** A part that is the whole path leaves the root. */
  lemma DropWhole(m: string)
    ensures Clean(m) == "/" <==> Walk([], Segments(m)) == []
  {
    var stack := Walk([], Segments(m));
    SegmentsAreSlashFree(m);
    WalkNormal([], Segments(m));
    RootedLength(stack);
  }

  lemma Regroup(a: string, m: string, b: string)
    ensures a + "/" + m + "/" + b == a + ("/" + m + "/") + b
  {
  }

  /** Rule 1: two slashes are one. */
  lemma CleanCollapsesSlashes(a: string, b: string)
    ensures Clean(a + "//" + b) == Clean(a + "/" + b) <==> !LosesSlash(a + "/" + b)
  {
    VisitOne(Walk([], Segments(a)), "");
    DropNeutral(a, "", b);
    Regroup(a, "", b);
    assert "/" + "" + "/" == "//";
  }

  /** Rule 2: a "." element goes, in the middle, at the start and at the end. */
  lemma CleanDropsDot(a: string, b: string)
    ensures Clean(a + "/./" + b) == Clean(a + "/" + b) <==> !LosesSlash(a + "/" + b)
    ensures Clean("./" + b) == Clean(b) <==> !LosesSlash(b)
    ensures Clean(a + "/.") == Clean(a + "/") <==> !LosesSlash(a + "/")
  {
    var dot := ".";
    VisitOne(Walk([], Segments(a)), dot);
    DropNeutral(a, dot, b);
    Regroup(a, dot, b);
    assert "/" + dot + "/" == "/./";
    VisitOne([], dot);
    DropFirst(dot, b);
    assert dot + "/" == "./";
    DotAtEnd(a);
  }

  lemma DotAtEnd(a: string)
    ensures Clean(a + "/.") == Clean(a + "/") <==> !LosesSlash(a + "/")
  {
    var dot := ".";
    VisitOne(Walk([], Segments(a)), dot);
    DropLast(a, dot);
    LastSegmentConcat(a, dot);
    LastSegmentDot(dot);
    assert a + "/" + dot == a + "/.";
    if LosesSlash(a + "/") {
      ShortIsKept(a + "/");
      WalkSlash(a);
    }
  }

  /** Rule 3: a ".." goes, with the element before it, in the middle and at the start.
      At the end no slash is left, so it is not as if the element had not been there. */
  lemma CleanDropsParent(a: string, x: string, b: string)
    requires Normal(x)
    ensures Clean(a + "/" + (x + "/" + "..") + "/" + b) == Clean(a + "/" + b) <==> !LosesSlash(a + "/" + b)
    ensures Clean((x + "/" + "..") + "/" + b) == Clean(b) <==> !LosesSlash(b)
    ensures Clean(a + "/" + (x + "/" + "..")) == Absolute(Walk([], Segments(a)))
    ensures Clean(a + "/" + (x + "/" + "..")) == Clean(a + "/")
            <==> Walk([], Segments(a)) == [] || LosesSlash(a + "/")
  {
    var m := x + "/" + "..";
    WalkParent(Walk([], Segments(a)), x);
    DropNeutral(a, m, b);
    WalkParent([], x);
    DropFirst(m, b);
    ParentAtEnd(a, x, m);
  }

  lemma ParentAtEnd(a: string, x: string, m: string)
    requires Normal(x) && m == x + "/" + ".."
    ensures Clean(a + "/" + m) == Absolute(Walk([], Segments(a)))
    ensures Clean(a + "/" + m) == Clean(a + "/") <==> Walk([], Segments(a)) == [] || LosesSlash(a + "/")
  {
    WalkParent(Walk([], Segments(a)), x);
    DropLast(a, m);
    ParentEnds(x);
    EndOf(a, m);
    LastSegmentDot(a + "/" + m);
  }

  lemma ParentEnds(x: string)
    ensures !EndsInDot(x + "/" + "..") && !EndsInSlash(x + "/" + "..")
  {
    EndOf(x, "..");
  }

  lemma WalkParent(stack: seq<string>, x: string)
    requires Normal(x)
    ensures Walk(stack, Segments(x + "/" + "..")) == stack
  {
    SegmentsConcat(x, "..");
    WalkConcat(stack, Segments(x), Segments(".."));
    VisitOne(stack, x);
    VisitOne(stack + [x], "..");
  }

  /** Rule 4: ".." at the root is the root, followed by anything or nothing. */
  lemma CleanDropsRootParent(b: string)
    ensures Clean("/../" + b) == Clean("/" + b)
    ensures Clean("/..") == "/"
  {
    var root, up := "", "..";
    VisitOne([], root);
    VisitOne([], up);
    DropNeutral(root, up, b);
    assert root + "/" + up + "/" == "/../" && root + "/" == "/";
    WalkHalves(root, up);
    assert root + "/" + up == "/..";
    DropWhole("/..");
  }
}
