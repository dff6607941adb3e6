/** Groups and sub-groups of group.go, whose middleware slices share backing arrays
    under Go's append and capacity rules. */
module GroupTree {

  type Handler = nat

  /** A Go slice that starts at the beginning of its array. */
  datatype Slice = Slice(arr: array?<Handler>, len: nat, cap: nat)

  ghost predicate SliceOk(s: Slice) {
    s.len <= s.cap && if s.arr == null then s.cap == 0 else s.cap <= s.arr.Length
  }

  ghost function Content(s: Slice): seq<Handler>
    requires SliceOk(s)
    reads s.arr
  {
    if s.arr == null then [] else s.arr[..s.len]
  }

  /** A view of the array of `s` that appending to `s` leaves alone. */
  ghost predicate Shared(s: Slice, v: Slice) {
    SliceOk(v) && v.arr == s.arr && (s.len < s.cap ==> v.len <= s.len)
  }

  /** append: in place while the capacity lasts, otherwise into a new array of any
      sufficient capacity. */
  method Append(s: Slice, xs: seq<Handler>) returns (t: Slice)
    requires SliceOk(s)
    modifies s.arr
    ensures SliceOk(t) && Content(t) == old(Content(s)) + xs && t.len == s.len + |xs|
    ensures xs == [] ==> t == s
    ensures xs != [] && t.len <= s.cap ==> t.arr == s.arr && t.cap == s.cap
    ensures xs != [] && t.len > s.cap ==> t.arr != null && fresh(t.arr)
    ensures forall v: Slice | Shared(s, v) :: Content(v) == old(Content(v))
  {
    if xs == [] {
      return s;
    }
    var n := s.len + |xs|;
    if n <= s.cap {
      forall i | 0 <= i < |xs| {
        s.arr[s.len + i] := xs[i];
      }
      return Slice(s.arr, n, s.cap);
    }
    var c: nat :| c >= n;
    var a := new Handler[c];
    forall i | 0 <= i < s.len {
      a[i] := s.arr[i];
    }
    forall i | 0 <= i < |xs| {
      a[s.len + i] := xs[i];
    }
    return Slice(a, n, c);
  }

  class Group {
    var mw: Slice

    constructor (mw: Slice)
      ensures this.mw == mw
    {
      this.mw := mw;
    }
  }

  // ---- The meaning of a sequence of operations -----------------------------------

  datatype Op = Use(g: nat, mw: seq<Handler>) | SubGroup(parent: nat, mw: seq<Handler>)

  /** Only groups that exist are operated on. */
  predicate Fits(op: Op, n: nat) {
    match op
    case Use(g, _) => g < n
    case SubGroup(parent, _) => parent < n
  }

  function Apply(chains: seq<seq<Handler>>, op: Op): seq<seq<Handler>>
    requires Fits(op, |chains|)
  {
    match op
    case Use(g, mw) => chains[g := chains[g] + mw]
    case SubGroup(parent, mw) => chains + [chains[parent] + mw]
  }

  function Created(op: Op): nat {
    if op.SubGroup? then 1 else 0
  }

  predicate AllFit(ops: seq<Op>, n: nat)
    decreases ops
  {
    |ops| == 0 || (Fits(ops[0], n) && AllFit(ops[1..], n + Created(ops[0])))
  }

  function Run(chains: seq<seq<Handler>>, ops: seq<Op>): seq<seq<Handler>>
    requires AllFit(ops, |chains|)
    decreases ops
  {
    if |ops| == 0 then chains else Run(Apply(chains, ops[0]), ops[1..])
  }

  /** What is added to group `g` itself. */
  function Own(ops: seq<Op>, g: nat): seq<Handler> {
    if |ops| == 0 then []
    else (if ops[0].Use? && ops[0].g == g then ops[0].mw else []) + Own(ops[1..], g)
  }

  /** Operations on a group only ever add to that group. */
  lemma {:induction false} RunAddsOwn(chains: seq<seq<Handler>>, ops: seq<Op>, g: nat)
    requires AllFit(ops, |chains|) && g < |chains|
    ensures |Run(chains, ops)| >= |chains| && Run(chains, ops)[g] == chains[g] + Own(ops, g)
    decreases ops
  {
    if |ops| > 0 {
      var next := Apply(chains, ops[0]);
      var first := if ops[0].Use? && ops[0].g == g then ops[0].mw else [];
      RunAddsOwn(next, ops[1..], g);
      assert next[g] == chains[g] + first;
      assert (chains[g] + first) + Own(ops[1..], g) == chains[g] + (first + Own(ops[1..], g));
    }
  }

  lemma {:induction false} RunConcat(chains: seq<seq<Handler>>, a: seq<Op>, b: seq<Op>)
    requires AllFit(a + b, |chains|)
    ensures AllFit(a, |chains|) && AllFit(b, |Run(chains, a)|)
    ensures Run(chains, a + b) == Run(Run(chains, a), b)
    decreases a
  {
    if |a| == 0 {
      assert a + b == b;
    } else {
      assert (a + b)[0] == a[0] && (a + b)[1..] == a[1..] + b;
      RunConcat(Apply(chains, a[0]), a[1..], b);
    }
  }

  /** The chain of a sub-group is its parent's chain when it was made, then what it
      was made with, then its own later additions; whatever else happened. */
  lemma ChainOfSubGroup(before: seq<Op>, parent: nat, mw: seq<Handler>, later: seq<Op>)
    requires AllFit(before + ([SubGroup(parent, mw)] + later), 1)
    ensures AllFit(before, 1)
    ensures var made := Run([[]], before);
            var ops := before + ([SubGroup(parent, mw)] + later);
            && parent < |made| && |Run([[]], ops)| > |made|
            && Run([[]], ops)[|made|] == made[parent] + mw + Own(later, |made|)
  {
    RunConcat([[]], before, [SubGroup(parent, mw)] + later);
    var made := Run([[]], before);
    var rest := [SubGroup(parent, mw)] + later;
    assert rest[0] == SubGroup(parent, mw) && rest[1..] == later;
    RunAddsOwn(Apply(made, rest[0]), later, |made|);
  }

  // ---- The groups of one server ---------------------------------------------------

  /** If `s` can be appended to in place, `t` does not reach beyond it. */
  ghost predicate Apart(s: Slice, t: Slice) {
    s.arr != null && s.arr == t.arr && s.len < s.cap ==> t.len <= s.len && t.len == t.cap
  }

  /** At most one slice can write into a shared array, and only beyond what every
      other slice sees of it. */
  ghost predicate Isolated(slices: seq<Slice>) {
    && (forall i :: 0 <= i < |slices| ==> SliceOk(slices[i]))
    && (forall i, j :: 0 <= i < |slices| && 0 <= j < |slices| && i != j ==> Apart(slices[i], slices[j]))
  }

  /** Putting the result of an append in the place of its argument. */
  lemma IsolatedUse(slices: seq<Slice>, g: nat, t: Slice)
    requires Isolated(slices) && g < |slices| && SliceOk(t)
    requires var s := slices[g];
             t == s
             || (t.arr == s.arr && t.cap == s.cap && t.len >= s.len && s.len < s.cap)
             || forall i :: 0 <= i < |slices| ==> slices[i].arr != t.arr
    ensures Isolated(slices[g := t])
  {
    forall i | 0 <= i < |slices| && i != g
      ensures Apart(t, slices[i]) && Apart(slices[i], t)
    {
      assert Apart(slices[g], slices[i]) && Apart(slices[i], slices[g]);
    }
  }

  /** Adding a slice that is cut to its length, or that has an array of its own. */
  lemma IsolatedSubGroup(slices: seq<Slice>, parent: nat, t: Slice)
    requires Isolated(slices) && parent < |slices| && SliceOk(t)
    requires t == Slice(slices[parent].arr, slices[parent].len, slices[parent].len)
             || forall i :: 0 <= i < |slices| ==> slices[i].arr != t.arr
    ensures Isolated(slices + [t])
  {
    forall i | 0 <= i < |slices|
      ensures Apart(t, slices[i]) && Apart(slices[i], t)
    {
      assert i != parent ==> Apart(slices[i], slices[parent]);
    }
  }

  /** Appending to one of a server's slices, or to one that is cut to its length, changes
      what no other slice holds. */
  method AppendAmong(ghost slices: seq<Slice>, ghost g: nat, s: Slice, xs: seq<Handler>) returns (t: Slice)
    requires Isolated(slices) && SliceOk(s) && if g < |slices| then s == slices[g] else s.len == s.cap
    modifies s.arr
    ensures SliceOk(t) && Content(t) == old(Content(s)) + xs
    ensures t == s
            || (t.arr == s.arr && t.cap == s.cap && t.len >= s.len && s.len < s.cap)
            || (t.arr != null && fresh(t.arr))
    ensures forall i :: 0 <= i < |slices| && i != g ==> Content(slices[i]) == old(Content(slices[i]))
  {
    KeepOthers(slices, g, s);
    t := Append(s, xs);
    forall i | 0 <= i < |slices| && i != g
      ensures Content(slices[i]) == old(Content(slices[i]))
    {
      assert slices[i].arr == s.arr ==> Shared(s, slices[i]);
    }
  }

  /** Appending to a slice that is cut to its length. */
  method AppendCut(ghost slices: seq<Slice>, ghost parent: nat, p: Slice, xs: seq<Handler>) returns (t: Slice)
    requires Isolated(slices) && parent < |slices| && p == slices[parent]
    modifies p.arr
    ensures Isolated(slices + [t]) && SliceOk(t) && Content(t) == old(Content(p)) + xs
    ensures t.arr == p.arr || (t.arr != null && fresh(t.arr))
    ensures forall i :: 0 <= i < |slices| ==> Content(slices[i]) == old(Content(slices[i]))
  {
    var cut := Slice(p.arr, p.len, p.len);
    t := AppendAmong(slices, |slices|, cut, xs);
    assert t == cut || forall i :: 0 <= i < |slices| ==> slices[i].arr != t.arr;
    IsolatedSubGroup(slices, parent, t);
  }

  class Tree {
    var groups: seq<Group>
    ghost var slices: seq<Slice>
    ghost var chains: seq<seq<Handler>>  // every group's middleware, in order of creation

    ghost predicate Valid()
      reads this, groups, set s | s in slices :: s.arr
    {
      && |groups| == |slices| == |chains|
      && (forall i :: 0 <= i < |groups| ==> groups[i].mw == slices[i])
      && (forall i, j :: 0 <= i < j < |groups| ==> groups[i] != groups[j])
      && Isolated(slices)
      && (forall i :: 0 <= i < |slices| ==> Content(slices[i]) == chains[i])
    }

    /** The backing arrays in use. */
    ghost function Arrays(): set<object>
      reads this
    {
      set i: nat | i < |slices| && slices[i].arr != null :: slices[i].arr as object
    }

    constructor ()
      ensures Valid() && chains == [[]] && fresh(groups) && Arrays() == {}
    {
      var root := new Group(Slice(null, 0, 0));
      groups := [root];
      slices := [Slice(null, 0, 0)];
      chains := [[]];
    }

    /** Group.Use */
    method Use(g: nat, mw: seq<Handler>)
      requires Valid() && g < |groups|
      modifies this`slices, this`chains, groups[g], groups[g].mw.arr
      ensures Valid() && groups == old(groups) && fresh(Arrays() - old(Arrays()))
      ensures chains == Apply(old(chains), Op.Use(g, mw))
    {
      var s := groups[g].mw;
      var t := AppendAmong(slices, g, s, mw);
      IsolatedUse(slices, g, t);
      groups[g].mw := t;
      slices := slices[g := t];
      chains := chains[g := chains[g] + mw];
    }

    /** Group.SubGroup: the parent's slice is cut to its length before appending. */
    method SubGroup(parent: nat, mw: seq<Handler>) returns (g: nat)
      requires Valid() && parent < |groups|
      modifies this, groups[parent].mw.arr
      ensures Valid() && g == |old(groups)| && |groups| == g + 1 && groups[..g] == old(groups)
      ensures fresh(groups[g]) && fresh(Arrays() - old(Arrays()))
      ensures chains == Apply(old(chains), Op.SubGroup(parent, mw))
    {
      var p := groups[parent].mw;
      var s := AppendCut(slices, parent, p, mw);
      var child := new Group(s);
      g := |groups|;
      groups := groups + [child];
      slices := slices + [s];
      chains := chains + [chains[parent] + mw];
    }
  }

  lemma RunStep(chains: seq<seq<Handler>>, ops: seq<Op>, k: nat)
    requires k < |ops| && AllFit(ops[k..], |chains|)
    ensures Fits(ops[k], |chains|) && AllFit(ops[k + 1..], |Apply(chains, ops[k])|)
    ensures Run(chains, ops[k..]) == Run(Apply(chains, ops[k]), ops[k + 1..])
  {
    assert ops[k..][0] == ops[k] && ops[k..][1..] == ops[k + 1..];
  }

  method Perform(tree: Tree, op: Op)
    requires tree.Valid() && Fits(op, |tree.groups|)
    modifies tree, tree.groups, tree.Arrays()
    ensures tree.Valid() && tree.chains == Apply(old(tree.chains), op)
    ensures fresh(tree.Arrays() - old(tree.Arrays()))
    ensures old(tree.groups) <= tree.groups && fresh((set g | g in tree.groups) - old(set g | g in tree.groups))
  {
    ghost var k := if op.Use? then op.g else op.parent;
    assert tree.slices[k].arr != null ==> tree.slices[k].arr as object in tree.Arrays();
    match op {
      case Use(g, mw) => tree.Use(g, mw);
      case SubGroup(parent, mw) => var _ := tree.SubGroup(parent, mw);
    }
  }

  /** Any sequence of operations on a new server leaves every group with the chain
      that the operations mean. */
  method Build(ops: seq<Op>) returns (tree: Tree)
    requires AllFit(ops, 1)
    ensures fresh(tree) && tree.Valid() && tree.chains == Run([[]], ops)
  {
    tree := new Tree();
    for k := 0 to |ops|
      invariant fresh(tree) && fresh(tree.groups) && fresh(tree.Arrays()) && tree.Valid()
      invariant AllFit(ops[k..], |tree.chains|) && Run(tree.chains, ops[k..]) == Run([[]], ops)
    {
      RunStep(tree.chains, ops, k);
      Perform(tree, ops[k]);
    }
  }

  /** Every other slice may look at the array of `s` while it is appended to. */
  lemma KeepOthers(slices: seq<Slice>, g: nat, s: Slice)
    requires Isolated(slices) && (if g < |slices| then s == slices[g] else s.len == s.cap)
    ensures forall i :: 0 <= i < |slices| && i != g && slices[i].arr == s.arr ==> Shared(s, slices[i])
  {
    forall i | 0 <= i < |slices| && i != g && slices[i].arr == s.arr
      ensures Shared(s, slices[i])
    {
      assert g < |slices| ==> Apart(slices[g], slices[i]);
    }
  }
}
