/** The pool of parameter wrappers of router/v3.go, shared by concurrent requests of
    every method. Routes are fixed. A step is one operation of one request, in any interleaving. */
module ParamsPool {
  import opened Wrappers
  import opened Splitters
  import opened RoutePattern
  import opened RouteTable
  import opened RouteMatching

  /** A wrapper's slice: its items and the capacity of its backing array. */
  datatype Wrapper = Wrapper(items: seq<Param>, cap: nat)

  /** A request that holds wrapper `w` for `path` in table `t`, and has appended the first `n` of
      its own parameters. */
  datatype Request = Request(w: nat, t: nat, path: string, own: seq<Param>, n: nat, serving: bool)

  datatype State = State(
    tables: seq<RouteMap>,  // one for each method
    maxParams: nat,
    pool: multiset<nat>,
    wrappers: map<nat, Wrapper>,
    requests: map<nat, Request>)

  datatype Step =
    | Take(q: nat, w: nat, t: nat, path: string)  // match reaches getParams; the pool gives `w` or makes it
    | Append(q: nat, grown: nat)          // match appends one parameter
    | Call(q: nat)                        // the handler is called
    | Put(q: nat)                         // the handler has returned: putParams
    | Leave(q: nat)                       // the request ends without putParams
    | Drop(w: nat)                        // the pool forgets a wrapper

  /** The parameters that the match of `path` appends. */
  function Own(m: RouteMap, path: string): seq<Param> {
    match Lookup(m, path)
    case Matched(_, Some(params)) => params
    case _ => []
  }

  predicate TakesWrapper(m: RouteMap, path: string) {
    match Lookup(m, path)
    case Matched(_, Some(_)) => true
    case _ => false
  }

  predicate Enabled(s: State, step: Step) {
    match step
    case Take(q, w, t, path) =>
      q !in s.requests && t < |s.tables| && TakesWrapper(s.tables[t], path) && (w in s.pool || w !in s.wrappers)
    case Append(q, grown) => q in s.requests && !s.requests[q].serving && s.requests[q].n < |s.requests[q].own|
    case Call(q) => q in s.requests && !s.requests[q].serving && s.requests[q].n == |s.requests[q].own|
    case Put(q) => q in s.requests && s.requests[q].serving
    case Leave(q) => q in s.requests
    case Drop(w) => w in s.pool
  }

  /** append: a full slice moves to a larger array. */
  function GoAppend(w: Wrapper, p: Param, grown: nat): Wrapper {
    Wrapper(w.items + [p], if |w.items| < w.cap then w.cap else |w.items| + 1 + grown)
  }

  function Apply(s: State, step: Step): State
    requires Enabled(s, step)
  {
    match step
    case Take(q, w, t, path) =>
      var made := if w in s.pool then s.wrappers else s.wrappers[w := Wrapper([], s.maxParams)];
      s.(pool := s.pool - multiset{w}, wrappers := made,
         requests := s.requests[q := Request(w, t, path, Own(s.tables[t], path), 0, false)])
    case Append(q, grown) =>
      var r := s.requests[q];
      if r.w !in s.wrappers then s
      else s.(wrappers := s.wrappers[r.w := GoAppend(s.wrappers[r.w], r.own[r.n], grown)],
              requests := s.requests[q := r.(n := r.n + 1)])
    case Call(q) =>
      s.(requests := s.requests[q := s.requests[q].(serving := true)])
    case Put(q) =>
      var w := s.requests[q].w;
      var left := s.(requests := s.requests - {q});
      if w !in s.wrappers || s.wrappers[w].cap != s.maxParams then left
      else left.(wrappers := s.wrappers[w := Wrapper([], s.wrappers[w].cap)], pool := s.pool + multiset{w})
    case Leave(q) => s.(requests := s.requests - {q})
    case Drop(w) => s.(pool := s.pool - multiset{w})
  }

  // ---- The invariant ---------------------------------------------------------------------

  /** A pooled wrapper is empty and of full capacity. */
  predicate PooledOk(s: State, w: nat) {
    s.pool[w] == 1 && w in s.wrappers && s.wrappers[w] == Wrapper([], s.maxParams)
  }

  /** A held wrapper is not pooled and contains what its request has appended. */
  predicate HeldOk(s: State, r: Request) {
    && r.w !in s.pool && r.w in s.wrappers
    && r.n <= |r.own| <= s.maxParams
    && s.wrappers[r.w] == Wrapper(r.own[..r.n], s.maxParams)
    && (r.serving ==> r.n == |r.own|)
  }

  /** Every wrapper is in one place. */
  ghost predicate Apart(s: State) {
    && (forall w :: w in s.pool ==> PooledOk(s, w))
    && (forall q :: q in s.requests ==> HeldOk(s, s.requests[q]))
    && (forall q, q' :: q in s.requests && q' in s.requests && q != q' ==> s.requests[q].w != s.requests[q'].w)
  }

  /** Every request's parameters are those of its own path. */
  ghost predicate Faithful(s: State) {
    forall q :: q in s.requests ==>
      s.requests[q].t < |s.tables| && s.requests[q].own == Own(s.tables[s.requests[q].t], s.requests[q].path)
  }

  predicate TablesOk(tables: seq<RouteMap>, maxParams: nat) {
    forall t :: 0 <= t < |tables| ==> TableOk(tables[t], maxParams)
  }

  ghost predicate Inv(s: State) {
    TablesOk(s.tables, s.maxParams) && Apart(s) && Faithful(s)
  }

  // ---- No match appends more than maxParams -----------------------------------------------

  lemma {:induction false} ParamsPrefix(parts: seq<string>, b: nat)
    requires b <= |parts|
    ensures Params(parts[..b]) <= Params(parts)
  {
    if b < |parts| {
      ParamsPrefix(parts[..|parts| - 1], b);
      assert parts[..|parts| - 1][..b] == parts[..b];
    } else {
      assert parts[..b] == parts;
    }
  }

  lemma ParamsNext(parts: seq<string>, b: nat)
    requires b < |parts|
    ensures Params(parts[..b + 1]) == Params(parts[..b]) + (if IsPart(parts[b]) && parts[b][0] != '/' then 1 else 0)
  {
    assert parts[..b + 1][..b] == parts[..b];
  }

  lemma {:induction false} ExtractSize(parts: seq<string>, rest: string, calls: seq<Splitters.Call>, base: nat)
    requires AllParts(parts) && Indexed(calls, base) && base <= |parts|
    ensures Extract(parts, rest, calls).Some? ==>
              |Extract(parts, rest, calls).value| + Params(parts[..base]) <= Params(parts)
    decreases calls
  {
    ParamsPrefix(parts, base);
    if |calls| > 0 && base < |parts| {
      assert IsPart(parts[base]) && calls[0].pidx == base;
      assert forall i :: 0 <= i < |calls[1..]| ==> calls[1..][i] == calls[i + 1];
      ParamsNext(parts, base);
      ParamsPrefix(parts, base + 1);
      ExtractSize(parts, rest, calls[1..], base + 1);
    } else if |calls| > 0 {
      assert calls[0].pidx == base;
    }
  }

  lemma {:induction false} ChooseIsMember(routes: seq<Route>, b: Bucket) returns (k: nat)
    requires Choose(routes, b).Some?
    ensures k < |routes| && routes[k] == Choose(routes, b).value
  {
    if Verdict(routes[0], b) != Stop {
      k := 0;
    } else {
      k := ChooseIsMember(routes[1..], b);
      k := k + 1;
    }
  }

  /** For any path at all. */
  lemma OwnFits(m: RouteMap, maxParams: nat, path: string)
    requires TableOk(m, maxParams)
    ensures |Own(m, path)| <= maxParams
  {
    if TakesWrapper(m, path) {
      var b := FindBucket(m, path).value;
      var k := ChooseIsMember(b.routes, b);
      var key := KeyUsed(m, path);
      var r := b.routes[k];
      assert BucketOk(key, m[key], maxParams) && RouteOk(key, m[key][k], maxParams);
      CallsIndexed(b.rest);
      ExtractSize(r.parts, b.rest, Calls(b.rest, '/'), 0);
    }
  }

  // ---- Every step keeps it ----------------------------------------------------------------

  lemma TakeKeeps(s: State, q: nat, w: nat, t: nat, path: string)
    requires Apart(s) && Enabled(s, Take(q, w, t, path)) && |Own(s.tables[t], path)| <= s.maxParams
    ensures Apart(Apply(s, Take(q, w, t, path)))
  {
    var s' := Apply(s, Take(q, w, t, path));
    TakePooled(s, w);
    assert s'.maxParams == s.maxParams && s'.pool == s.pool - multiset{w};
    assert s'.wrappers == if w in s.pool then s.wrappers else s.wrappers[w := Wrapper([], s.maxParams)];
    forall v | v in s'.pool
      ensures PooledOk(s', v)
    {
      assert PooledOk(s, v);
    }
    forall p | p in s'.requests
      ensures HeldOk(s', s'.requests[p])
      ensures p != q ==> s'.requests[p].w != w
    {
      if p != q {
        assert s'.requests[p] == s.requests[p] && HeldOk(s, s.requests[p]);
      }
    }
  }

  /** A wrapper that the pool gives is out of it, and nobody has it. */
  lemma TakePooled(s: State, w: nat)
    requires Apart(s) && (w in s.pool || w !in s.wrappers)
    ensures w !in s.pool - multiset{w}
    ensures w in s.pool ==> w in s.wrappers && s.wrappers[w] == Wrapper([], s.maxParams)
    ensures forall q :: q in s.requests ==> s.requests[q].w != w
  {
    assert w in s.pool ==> PooledOk(s, w);
    forall q | q in s.requests
      ensures s.requests[q].w != w
    {
      assert HeldOk(s, s.requests[q]);
    }
  }

  lemma AppendKeeps(s: State, q: nat, grown: nat)
    requires Apart(s) && Enabled(s, Append(q, grown))
    ensures Apart(Apply(s, Append(q, grown)))
  {
    var s' := Apply(s, Append(q, grown));
    var r := s.requests[q];
    assert HeldOk(s, r);
    var own := r.own;
    assert own[..r.n + 1] == own[..r.n] + [own[r.n]];
    assert s'.wrappers == s.wrappers[r.w := Wrapper(own[..r.n + 1], s.maxParams)];
    forall v | v in s'.pool
      ensures PooledOk(s', v)
    {
      assert PooledOk(s, v);
    }
    forall p | p in s'.requests
      ensures HeldOk(s', s'.requests[p])
    {
      if p != q {
        assert s'.requests[p] == s.requests[p] && s.requests[p].w != r.w;
        assert HeldOk(s, s.requests[p]);
      }
    }
  }

  lemma PutKeeps(s: State, q: nat)
    requires Apart(s) && Enabled(s, Put(q))
    ensures Apart(Apply(s, Put(q)))
  {
    var s' := Apply(s, Put(q));
    assert HeldOk(s, s.requests[q]);
    forall v | v in s'.pool
      ensures PooledOk(s', v)
    {
      assert v in s.pool ==> PooledOk(s, v);
    }
    forall p | p in s'.requests
      ensures HeldOk(s', s'.requests[p])
    {
      assert HeldOk(s, s.requests[p]);
    }
  }

  lemma CallKeeps(s: State, q: nat)
    requires Apart(s) && Enabled(s, Step.Call(q))
    ensures Apart(Apply(s, Step.Call(q)))
  {
    var s' := Apply(s, Step.Call(q));
    assert s'.pool == s.pool && s'.wrappers == s.wrappers;
    forall v | v in s'.pool
      ensures PooledOk(s', v)
    {
      assert PooledOk(s, v);
    }
    forall p | p in s'.requests
      ensures HeldOk(s', s'.requests[p])
    {
      assert HeldOk(s, s.requests[p]);
    }
  }

  /** Fewer wrappers in the pool, or fewer requests. */
  lemma FewerKeeps(s: State, step: Step)
    requires Apart(s) && Enabled(s, step) && (step.Leave? || step.Drop?)
    ensures Apart(Apply(s, step))
  {
    var s' := Apply(s, step);
    assert s'.wrappers == s.wrappers && s'.pool <= s.pool;
    forall v | v in s'.pool
      ensures PooledOk(s', v)
    {
      assert PooledOk(s, v);
    }
    forall p | p in s'.requests
      ensures HeldOk(s', s'.requests[p])
    {
      assert HeldOk(s, s.requests[p]);
    }
  }

  lemma StepApart(s: State, step: Step)
    requires Inv(s) && Enabled(s, step)
    ensures Apart(Apply(s, step))
  {
    match step
    case Take(q, w, t, path) => OwnFits(s.tables[t], s.maxParams, path); TakeKeeps(s, q, w, t, path);
    case Append(q, grown) => AppendKeeps(s, q, grown);
    case Put(q) => PutKeeps(s, q);
    case Call(q) => CallKeeps(s, q);
    case _ => FewerKeeps(s, step);
  }

  lemma StepFaithful(s: State, step: Step)
    requires Faithful(s) && Enabled(s, step)
    ensures Faithful(Apply(s, step)) && Apply(s, step).tables == s.tables && Apply(s, step).maxParams == s.maxParams
  {
  }

  lemma StepKeeps(s: State, step: Step)
    requires Inv(s) && Enabled(s, step)
    ensures Inv(Apply(s, step)) && Apply(s, step).tables == s.tables && Apply(s, step).maxParams == s.maxParams
  {
    StepApart(s, step);
    StepFaithful(s, step);
  }

  /** A request that ends with putParams gives its wrapper back, empty and of full
      capacity: in a reachable state it never has another one. */
  lemma PutReturns(s: State, q: nat)
    requires Inv(s) && Enabled(s, Put(q))
    ensures var s', w := Apply(s, Put(q)), s.requests[q].w;
            && s'.pool == s.pool + multiset{w} && w in s'.wrappers && s'.wrappers[w] == Wrapper([], s.maxParams)
            && s'.requests == s.requests - {q}
  {
    assert HeldOk(s, s.requests[q]);
  }

  /** A wrapper that the pool gives is used as it is; only otherwise one is made. */
  lemma TakeReuses(s: State, q: nat, w: nat, t: nat, path: string)
    requires Inv(s) && Enabled(s, Take(q, w, t, path))
    ensures var s' := Apply(s, Take(q, w, t, path));
            && s'.wrappers == (if w in s.pool then s.wrappers else s.wrappers[w := Wrapper([], s.maxParams)])
            && s'.wrappers[w] == Wrapper([], s.maxParams) && w !in s'.pool
            && s'.requests.Keys == s.requests.Keys + {q} && s'.requests[q].w == w
  {
    TakePooled(s, w);
  }

  /** `steps` can be taken one after the other. */
  predicate Runs(s: State, steps: seq<Step>)
    decreases steps
  {
    |steps| == 0 || (Enabled(s, steps[0]) && Runs(Apply(s, steps[0]), steps[1..]))
  }

  function Run(s: State, steps: seq<Step>): State
    requires Runs(s, steps)
    decreases steps
  {
    if |steps| == 0 then s else Run(Apply(s, steps[0]), steps[1..])
  }

  function Initial(tables: seq<RouteMap>, maxParams: nat): State {
    State(tables, maxParams, multiset{}, map[], map[])
  }

  lemma {:induction false} RunKeeps(s: State, steps: seq<Step>)
    requires Inv(s) && Runs(s, steps)
    ensures Inv(Run(s, steps)) && Run(s, steps).tables == s.tables && Run(s, steps).maxParams == s.maxParams
    decreases steps
  {
    if |steps| > 0 {
      StepKeeps(s, steps[0]);
      RunKeeps(Apply(s, steps[0]), steps[1..]);
    }
  }

  /** In every interleaving of requests over fixed tables: a wrapper is pooled once,
      empty and of full capacity, or held by at most one request; appending never
      moves it; and what a handler sees are the parameters of its own path. */
  lemma HandlersSeeTheirOwn(tables: seq<RouteMap>, maxParams: nat, steps: seq<Step>)
    requires TablesOk(tables, maxParams) && Runs(Initial(tables, maxParams), steps)
    ensures var s := Run(Initial(tables, maxParams), steps);
            && (forall w :: w in s.pool ==> PooledOk(s, w))
            && (forall q, q' :: q in s.requests && q' in s.requests && q != q' ==> s.requests[q].w != s.requests[q'].w)
            && (forall q :: q in s.requests ==>
                  var r := s.requests[q];
                  r.w !in s.pool && r.w in s.wrappers && s.wrappers[r.w].cap == maxParams
                  && r.t < |tables| && (r.serving ==> s.wrappers[r.w].items == Own(tables[r.t], r.path)))
  {
    RunKeeps(Initial(tables, maxParams), steps);
    var s := Run(Initial(tables, maxParams), steps);
    forall q | q in s.requests
      ensures var r := s.requests[q];
              r.w !in s.pool && r.w in s.wrappers && s.wrappers[r.w].cap == maxParams
              && r.t < |tables| && (r.serving ==> s.wrappers[r.w].items == Own(tables[r.t], r.path))
    {
      assert HeldOk(s, s.requests[q]);
    }
  }
}
