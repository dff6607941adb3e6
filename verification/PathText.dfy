/** Slash-separated path text. A `char` stands for one byte of a Go string: the
    code only ever compares bytes with ASCII constants. */
module PathText {

  /** `s` split at every '/'; there is always at least one segment. */
  function Segments(s: string): (segs: seq<string>)
    ensures |segs| >= 1
  {
    if s == "" then [""]
    else if s[0] == '/' then [""] + Segments(s[1..])
    else
      var tail := Segments(s[1..]);
      [[s[0]] + tail[0]] + tail[1..]
  }

  /** Each element preceded by a slash: the inverse of splitting. */
  function Join(elems: seq<string>): string {
    if |elems| == 0 then "" else Join(elems[..|elems| - 1]) + "/" + elems[|elems| - 1]
  }

  predicate EndsInSlash(s: string) {
    |s| > 0 && s[|s| - 1] == '/'
  }

  predicate SlashFree(s: string) {
    forall i :: 0 <= i < |s| ==> s[i] != '/'
  }

  /** An element that is neither empty nor contains a slash. */
  predicate Solid(e: string) {
    |e| > 0 && SlashFree(e)
  }

  predicate AllSolid(elems: seq<string>) {
    forall i :: 0 <= i < |elems| ==> Solid(elems[i])
  }

  lemma {:induction false} JoinCons(e: string, elems: seq<string>)
    ensures Join([e] + elems) == "/" + e + Join(elems)
  {
    if elems != [] {
      var init, last := elems[..|elems| - 1], elems[|elems| - 1];
      JoinCons(e, init);
      assert ([e] + elems)[..|elems|] == [e] + init;
      assert Join([e] + elems) == ("/" + e + Join(init)) + "/" + last;
    } else {
      assert ([e] + elems)[..0] == [];
    }
  }

  lemma {:induction false} JoinConcat(a: seq<string>, b: seq<string>)
    ensures Join(a + b) == Join(a) + Join(b)
  {
    if b == [] {
      assert a + b == a;
    } else {
      var init, last := b[..|b| - 1], b[|b| - 1];
      JoinConcat(a, init);
      assert (a + b)[..|a + b| - 1] == a + init;
      assert Join(a + b) == (Join(a) + Join(init)) + "/" + last;
    }
  }

  /** Splitting at a slash in the middle splits both halves on their own. */
  lemma {:induction false} SegmentsConcat(a: string, b: string)
    ensures Segments(a + "/" + b) == Segments(a) + Segments(b)
  {
    if a == "" {
      assert (a + "/" + b)[1..] == b;
    } else {
      assert (a + "/" + b)[1..] == a[1..] + "/" + b;
      SegmentsConcat(a[1..], b);
    }
  }

  lemma {:induction false} SegmentsSlashFree(e: string)
    requires SlashFree(e)
    ensures Segments(e) == [e]
  {
    if e != "" {
      SegmentsSlashFree(e[1..]);
      assert [e[0]] + e[1..] == e;
    }
  }

  /** Splitting undoes joining. */
  lemma {:induction false} SegmentsOfJoin(elems: seq<string>)
    requires forall i :: 0 <= i < |elems| ==> SlashFree(elems[i])
    ensures Segments(Join(elems)) == [""] + elems
  {
    if elems != [] {
      var init, last := elems[..|elems| - 1], elems[|elems| - 1];
      SegmentsOfJoin(init);
      SegmentsConcat(Join(init), last);
      SegmentsSlashFree(last);
      assert ([""] + init) + [last] == [""] + elems;
    }
  }

  lemma {:induction false} SegmentsAreSlashFree(s: string)
    ensures forall i :: 0 <= i < |Segments(s)| ==> SlashFree(Segments(s)[i])
  {
    if s != "" {
      SegmentsAreSlashFree(s[1..]);
    }
  }

  /** Joining undoes splitting, so Segments loses nothing. */
  lemma {:induction false} JoinOfSegments(s: string)
    ensures Join(Segments(s)) == "/" + s
  {
    if s == "" {
      JoinCons("", []);
      assert Segments(s) == [""] + [];
    } else {
      var tail := Segments(s[1..]);
      JoinOfSegments(s[1..]);
      assert s == [s[0]] + s[1..];
      if s[0] == '/' {
        JoinCons("", tail);
      } else {
        JoinPush(s[0], tail);
        assert ("/" + s[1..])[1..] == s[1..];
        assert "/" + [s[0]] + s[1..] == "/" + s;
      }
    }
  }

  lemma JoinPush(c: char, segs: seq<string>)
    requires segs != []
    ensures Join([[c] + segs[0]] + segs[1..]) == "/" + [c] + Join(segs)[1..]
  {
    var head, rest := segs[0], segs[1..];
    assert segs == [head] + rest;
    JoinCons(head, rest);
    JoinCons([c] + head, rest);
    PushChar(c, head, Join(rest));
  }

  lemma PushChar(c: char, head: string, rest: string)
    ensures "/" + ([c] + head) + rest == "/" + [c] + ("/" + head + rest)[1..]
  {
  }
}
