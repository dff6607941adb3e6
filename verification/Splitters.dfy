/** The two splitters of router/utils.go that drive the route table: one walks a
    path forward piece by piece, the other walks it backward boundary by boundary. */
module Splitters {

  /** The arguments of one callback: the text, how many calls came before, and the
      offset at which the text ends. */
  datatype Call = Call(p: string, pidx: nat, idx: nat)

  /** What the forward callback does: return false, return true, or index out of
      range. */
  datatype Signal = Go | Stop | Fault

  // ---- What the splitters see ------------------------------------------------------

  /** First position at or after `i` that holds a separator, or the length. */
  function NextSep(s: string, sep: char, i: nat): (k: nat)
    requires i <= |s|
    ensures i <= k <= |s| && (k == |s| || s[k] == sep)
    ensures forall j :: i <= j < k ==> s[j] != sep
    decreases |s| - i
  {
    if i == |s| || s[i] == sep then i else NextSep(s, sep, i + 1)
  }

  /** The forward calls from position `from` on: each piece runs up to the next
      separator and starts with the one before it. A final separator is no piece. */
  function CallsFrom(s: string, sep: char, from: nat, pidx: nat): seq<Call>
    requires from <= |s|
    decreases |s| - from
  {
    if from == |s| || (from + 1 == |s| && s[from] == sep) then []
    else
      var k := NextSep(s, sep, from + 1);
      [Call(s[from..k], pidx, k)] + CallsFrom(s, sep, k, pidx + 1)
  }

  function Calls(s: string, sep: char): seq<Call> {
    CallsFrom(s, sep, 0, 0)
  }

  /** Separators at or after `i`. */
  function Count(s: string, sep: char, i: nat): nat
    requires i <= |s|
    decreases |s| - i
  {
    if i == |s| then 0 else (if s[i] == sep then 1 else 0) + Count(s, sep, i + 1)
  }

  /** An end of a prefix that the backward splitter offers: the end of the path, or
      a separator that is not the first one. */
  predicate Boundary(s: string, sep: char, j: nat) {
    j <= |s| && (j == |s| || s[j] == sep) && exists i :: 0 <= i < j && s[i] == sep
  }

  function LastSep(s: string, sep: char, j: nat): nat
    requires j <= |s|
  {
    if j == 0 then 0 else if s[j - 1] == sep then j - 1 else LastSep(s, sep, j - 1)
  }

  lemma {:induction false} LastSepBefore(s: string, sep: char, j: nat, i: nat)
    requires i < j <= |s| && s[i] == sep && forall k :: i < k < j ==> s[k] != sep
    ensures LastSep(s, sep, j) == i
  {
    if i < j - 1 {
      LastSepBefore(s, sep, j - 1, i);
    }
  }

  lemma {:induction false} CountSkips(s: string, sep: char, i: nat, j: nat)
    requires i <= j <= |s| && forall k :: i <= k < j ==> s[k] != sep
    ensures Count(s, sep, i) == Count(s, sep, j)
    decreases j - i
  {
    if i < j {
      CountSkips(s, sep, i + 1, j);
    }
  }

  function RevCall(s: string, sep: char, j: nat): Call
    requires j <= |s|
  {
    var i := LastSep(s, sep, j);
    Call(s[if i <= j then i else j..j], Count(s, sep, j), j)
  }

  // ---- The loops ---------------------------------------------------------------------

  /** splitPathFn: makes the first `n` forward calls, all of them unless the last one
      did not return false. */
  method SplitPathFn(s: string, sep: char, fn: Call -> Signal) returns (n: nat, last: Signal)
    ensures n <= |Calls(s, sep)|
    ensures forall k :: 0 <= k < n && (k < n - 1 || last == Go) ==> fn(Calls(s, sep)[k]) == Go
    ensures if last == Go then n == |Calls(s, sep)| else n > 0 && fn(Calls(s, sep)[n - 1]) == last
  {
    ghost var calls := Calls(s, sep);
    var pi, from, i := 0, 0, 0;
    while i < |s|
      invariant from <= |s| && from <= i <= |s| + 1
      invariant i <= |s| ==> forall j :: from < j < i ==> s[j] != sep
      invariant from < |s| && from < i ==> s[from] == sep || from == 0
      invariant i < |s| && from == i ==> i == 0
      invariant i > |s| ==> from == |s|
      invariant from < |s| && i == |s| ==> from + 1 == |s| && s[from] == sep
      invariant pi <= |calls| && calls[pi..] == CallsFrom(s, sep, from, pi)
      invariant forall k :: 0 <= k < pi ==> fn(calls[k]) == Go
      decreases |s| - i
    {
      if s[i] != sep {
        if i < |s| - 1 {
          i := i + 1;
          continue;
        }
        i := |s|;
      }
      if from < i {
        assert NextSep(s, sep, from + 1) == i;
        assert calls[pi..][0] == calls[pi] && calls[pi..][1..] == calls[pi + 1..];
        var r := fn(Call(s[from..i], pi, i));
        if r != Go {
          return pi + 1, r;
        }
        from := i;
        pi := pi + 1;
      }
      i := i + 1;
    }
    return pi, Go;
  }

  /** revSplitPathFn: offers the boundaries from the longest prefix down, until the
      callback accepts one. */
  method RevSplitPathFn(s: string, sep: char, fn: Call -> bool) returns (found: bool, pidx: nat, idx: nat)
    ensures found ==> Boundary(s, sep, idx) && pidx == Count(s, sep, idx) && fn(RevCall(s, sep, idx))
    ensures forall j :: (if found then idx < j else 0 <= j) && Boundary(s, sep, j) ==> !fn(RevCall(s, sep, j))
  {
    var pi, last, i := 0, |s|, |s|;
    while i > 0
      invariant 0 <= i <= last <= |s| && (last == |s| || s[last] == sep)
      invariant forall k :: i <= k < last ==> s[k] != sep
      invariant i < last || i == |s| || i == last
      invariant pi == Count(s, sep, last)
      invariant forall j :: last < j && Boundary(s, sep, j) ==> !fn(RevCall(s, sep, j))
    {
      i := i - 1;
      if s[i] != sep {
        continue;
      }
      var ss := s[i..last];
      if ss != "" {
        LastSepBefore(s, sep, last, i);
        if fn(Call(ss, pi, last)) {
          assert Boundary(s, sep, last);
          return true, pi, last;
        }
        CountSkips(s, sep, i + 1, last);
        last := i;
        pi := pi + 1;
      }
    }
    return false, 0, 0;
  }

  // ---- The two splitters agree ----------------------------------------------------------

  /** From a separator or the end, the forward splitter makes as many calls as there
      are separators, less one for a final separator. */
  lemma {:induction false} CallCount(s: string, sep: char, from: nat, pidx: nat)
    requires from <= |s| && (from == |s| || s[from] == sep)
    ensures |CallsFrom(s, sep, from, pidx)|
         == Count(s, sep, from) - (if from < |s| && s[|s| - 1] == sep then 1 else 0)
    decreases |s| - from
  {
    if from < |s| && !(from + 1 == |s| && s[from] == sep) {
      var k := NextSep(s, sep, from + 1);
      CountSkips(s, sep, from + 1, k);
      CallCount(s, sep, k, pidx + 1);
    }
  }

  lemma {:induction false} CallIndex(s: string, sep: char, from: nat, pidx: nat, k: nat)
    requires from <= |s| && k < |CallsFrom(s, sep, from, pidx)|
    ensures CallsFrom(s, sep, from, pidx)[k].pidx == pidx + k && CallsFrom(s, sep, from, pidx)[k].p != ""
    decreases |s| - from
  {
    if k > 0 {
      CallIndex(s, sep, NextSep(s, sep, from + 1), pidx + 1, k - 1);
    }
  }

  /** The text of a call ends at its offset, and has a separator only at its start. */
  lemma {:induction false} CallText(s: string, sep: char, from: nat, pidx: nat, k: nat)
    requires from <= |s| && k < |CallsFrom(s, sep, from, pidx)|
    ensures var c := CallsFrom(s, sep, from, pidx)[k];
            && from <= c.idx <= |s| && (c.idx == |s| || s[c.idx] == sep)
            && |c.p| <= c.idx - from && c.p == s[c.idx - |c.p|..c.idx]
            && forall i :: 1 <= i < |c.p| ==> c.p[i] != sep
    decreases |s| - from
  {
    var next := NextSep(s, sep, from + 1);
    if k > 0 {
      CallText(s, sep, next, pidx + 1, k - 1);
    }
  }

  /** What is offered at a boundary: the text from the separator before it. */
  lemma RevCallText(s: string, sep: char, j: nat)
    requires Boundary(s, sep, j)
    ensures var c := RevCall(s, sep, j);
            && c.idx == j && 0 < |c.p| <= j && c.p == s[j - |c.p|..j] && c.p[0] == sep
            && forall i :: 1 <= i < |c.p| ==> c.p[i] != sep
  {
    var i := LastBefore(s, sep, j);
    LastSepBefore(s, sep, j, i);
  }

  lemma {:induction false} LastBefore(s: string, sep: char, j: nat) returns (i: nat)
    requires j <= |s| && exists k :: 0 <= k < j && s[k] == sep
    ensures i < j && s[i] == sep && forall k :: i < k < j ==> s[k] != sep
  {
    if s[j - 1] == sep {
      i := j - 1;
    } else {
      i := LastBefore(s, sep, j - 1);
    }
  }

  function Texts(calls: seq<Call>): (r: seq<string>)
    ensures |r| == |calls|
  {
    if |calls| == 0 then [] else [calls[0].p] + Texts(calls[1..])
  }

  function Flatten(texts: seq<string>): string {
    if |texts| == 0 then "" else texts[0] + Flatten(texts[1..])
  }

  /** The forward pieces put together are the path without a final separator. */
  lemma {:induction false} NothingLost(s: string, sep: char, from: nat, pidx: nat)
    requires from <= |s|
    ensures Flatten(Texts(CallsFrom(s, sep, from, pidx)))
         == s[from..if from < |s| && s[|s| - 1] == sep then |s| - 1 else |s|]
    decreases |s| - from
  {
    if from < |s| && !(from + 1 == |s| && s[from] == sep) {
      var k := NextSep(s, sep, from + 1);
      NothingLost(s, sep, k, pidx + 1);
      var rest := CallsFrom(s, sep, k, pidx + 1);
      assert ([Call(s[from..k], pidx, k)] + rest)[1..] == rest;
    }
  }
}
