/** The re-entrant handler chain of group.go and the Next family of ctx.go.

    A handler is a finite script: what it calls on the context, in order, and what
    it returns. Every written response marks the context as done. */
module Chain {

  datatype Action = CallNext | CallNextMiddleware | CallNextHandler | Write

  /** nil, a response that the chain writes out, or the Break sentinel. */
  datatype Result = Nil | Response | Break

  datatype Script = Script(actions: seq<Action>, result: Result)

  /** What happens during a request: element `k` of the chain (middleware first,
      then handlers) is entered, or a response is written. */
  datatype Event = Enter(k: nat) | Written

  /** An element that neither writes nor stops its loop. */
  predicate Benign(s: Script) {
    s.result == Nil && Write !in s.actions
  }

  /** The first `n` are benign. */
  predicate BenignUpTo(scripts: seq<Script>, n: nat)
    requires n <= |scripts|
  {
    forall i :: 0 <= i < n ==> Benign(scripts[i])
  }

  /** An element that writes a response, itself or by returning one. */
  predicate Writes(s: Script) {
    s.result == Response || Write in s.actions
  }

  /** An element that calls nothing on the context but writing. */
  predicate Plain(s: Script) {
    forall i :: 0 <= i < |s.actions| ==> s.actions[i] == Write
  }

  predicate AllPlain(scripts: seq<Script>) {
    forall i :: 0 <= i < |scripts| ==> Plain(scripts[i])
  }

  /** Middleware that leaves the handlers to the chain. */
  predicate Passive(s: Script) {
    CallNext !in s.actions && CallNextHandler !in s.actions
  }

  predicate AllPassive(mw: seq<Script>) {
    forall i :: 0 <= i < |mw| ==> Passive(mw[i])
  }

  /** None of the first `n` writes. */
  predicate MuteUpTo(scripts: seq<Script>, n: nat)
    requires n <= |scripts|
  {
    forall i :: 0 <= i < n ==> !Writes(scripts[i])
  }

  /** Of the elements `a .. b - 1`, all but the last return nil. */
  predicate OnlyLastStops(scripts: seq<Script>, a: nat, b: nat)
    requires b <= |scripts|
  {
    forall k :: a <= k < b - 1 ==> scripts[k].result == Nil
  }

  // ---- What is asked about a chain --------------------------------------------------------

  /** The middleware and the handlers of a route. Element `e` is counted through both. */
  datatype Plan = Plan(mw: seq<Script>, hc: seq<Script>) {
    function Element(e: nat): Script
      requires e < |mw| + |hc|
    {
      if e < |mw| then mw[e] else hc[e - |mw|]
    }
  }

  /** Whether `e` is among the first `i` middleware or the first `h` handlers. */
  predicate Among(m: nat, i: nat, h: nat, e: int) {
    0 <= e < i || m <= e < m + h
  }

  /** Every element entered, but for `e`, is benign. */
  predicate BenignBut(p: Plan, i: nat, h: nat, e: nat)
    requires i <= |p.mw| && h <= |p.hc|
  {
    forall k :: 0 <= k < |p.mw| + |p.hc| && Among(|p.mw|, i, h, k) && k != e ==> Benign(p.Element(k))
  }

  /** How many of the first `n` actions write. */
  function Acts(actions: seq<Action>, n: nat): nat
    requires n <= |actions|
  {
    if n == 0 then 0 else Acts(actions, n - 1) + (if actions[n - 1] == Write then 1 else 0)
  }

  /** How many responses an element writes, itself and by returning one. */
  function Answers(s: Script): nat {
    Acts(s.actions, |s.actions|) + (if s.result == Response then 1 else 0)
  }

  /** How many the first `n` elements write. */
  function Total(scripts: seq<Script>, n: nat): nat
    requires n <= |scripts|
  {
    if n == 0 then 0 else Total(scripts, n - 1) + Answers(scripts[n - 1])
  }

  /** How many responses have been written. */
  function Responses(log: seq<Event>): nat {
    if |log| == 0 then 0 else Responses(log[..|log| - 1]) + (if log[|log| - 1] == Written then 1 else 0)
  }

  /** Among the first `n` actions there is, before any that writes, a call that runs the
      middleware. */
  predicate CallsMiddlewareIn(actions: seq<Action>, n: nat)
    requires n <= |actions|
  {
    n > 0 && (CallsMiddlewareIn(actions, n - 1)
              || (Acts(actions, n - 1) == 0 && (actions[n - 1] == CallNext || actions[n - 1] == CallNextMiddleware)))
  }

  /** The same for a call that runs the handlers. */
  predicate CallsHandlersIn(actions: seq<Action>, n: nat)
    requires n <= |actions|
  {
    n > 0 && (CallsHandlersIn(actions, n - 1)
              || (Acts(actions, n - 1) == 0 && (actions[n - 1] == CallNext || actions[n - 1] == CallNextHandler)))
  }

  predicate CallsMiddleware(s: Script) {
    CallsMiddlewareIn(s.actions, |s.actions|)
  }

  predicate CallsHandlers(s: Script) {
    CallsHandlersIn(s.actions, |s.actions|)
  }

  /** Middleware never runs the handlers ahead of the rest of the middleware. */
  predicate Orderly(mw: seq<Script>) {
    forall i :: 0 <= i < |mw| ==> CallNextHandler !in mw[i].actions
  }

  /** The elements entered, in order, among `lo .. hi - 1`. */
  function Entries(log: seq<Event>, lo: nat, hi: nat): seq<nat> {
    if |log| == 0 then []
    else
      var e := log[|log| - 1];
      Entries(log[..|log| - 1], lo, hi) + (if e.Enter? && lo <= e.k < hi then [e.k] else [])
  }

  /** from, from + 1, .. from + n - 1 */
  function Range(from: nat, n: nat): seq<nat> {
    if n == 0 then [] else Range(from, n - 1) + [from + n - 1]
  }

  /** No element is entered after a response has been written. */
  predicate QuietAfterWrite(log: seq<Event>) {
    |log| == 0
    || (QuietAfterWrite(log[..|log| - 1]) && (log[|log| - 1].Enter? ==> Written !in log[..|log| - 1]))
  }

  /** `log` is the log of a request that has entered the first `i` of `m` middleware
      and the first `h` handlers, in order, and nothing after a response was written.
      If it is `orderly`, no handler came before the last middleware. */
  predicate Traces(log: seq<Event>, m: nat, i: nat, h: nat, done: bool, orderly: bool) {
    if |log| == 0 then i == h == 0 && !done
    else
      var init := log[..|log| - 1];
      match log[|log| - 1]
      case Written => done && (Traces(init, m, i, h, true, orderly) || Traces(init, m, i, h, false, orderly))
      case Enter(k) =>
        !done && if k < m then i == k + 1 && (orderly ==> h == 0) && Traces(init, m, k, h, false, orderly)
                 else h == k - m + 1 && (orderly ==> i == m) && Traces(init, m, i, k - m, false, orderly)
  }

  lemma TracesPush(log: seq<Event>, e: Event, m: nat, i: nat, h: nat, done: bool, orderly: bool)
    requires Traces(log, m, i, h, done, orderly)
    ensures e == Written ==> Traces(log + [e], m, i, h, true, orderly)
    ensures !done && e == Enter(i) && i < m && (orderly ==> h == 0) ==> Traces(log + [e], m, i + 1, h, false, orderly)
    ensures !done && e == Enter(m + h) && (orderly ==> i == m) ==> Traces(log + [e], m, i, h + 1, false, orderly)
  {
    assert (log + [e])[..|log|] == log;
  }

  /** The log without its last event is a log of the request before it. */
  lemma TracesInit(log: seq<Event>, m: nat, i: nat, h: nat, done: bool, orderly: bool)
    returns (i': nat, h': nat, done': bool)
    requires Traces(log, m, i, h, done, orderly) && |log| > 0
    ensures Traces(log[..|log| - 1], m, i', h', done', orderly)
    ensures match log[|log| - 1]
            case Written => done && i' == i && h' == h
            case Enter(k) => !done && !done' && if k < m then k == i' && i == i' + 1 && h == h' && (orderly ==> h == 0)
                                               else k == m + h' && h == h' + 1 && i == i' && (orderly ==> i == m)
  {
    match log[|log| - 1]
    case Written => return i, h, Traces(log[..|log| - 1], m, i, h, true, orderly);
    case Enter(k) => return if k < m then k else i, if k < m then h else k - m, false;
  }

  lemma {:induction false} TracesQuiet(log: seq<Event>, m: nat, i: nat, h: nat, done: bool, orderly: bool)
    requires Traces(log, m, i, h, done, orderly)
    ensures QuietAfterWrite(log) && (done <==> Written in log)
  {
    if |log| > 0 {
      var i', h', done' := TracesInit(log, m, i, h, done, orderly);
      TracesQuiet(log[..|log| - 1], m, i', h', done', orderly);
      assert log == log[..|log| - 1] + [log[|log| - 1]];
    }
  }

  lemma {:induction false} TracesEntries(log: seq<Event>, m: nat, n: nat, i: nat, h: nat, done: bool, orderly: bool)
    requires Traces(log, m, i, h, done, orderly) && i <= m && h <= n
    ensures Entries(log, 0, m) == Range(0, i) && Entries(log, m, m + n) == Range(m, h)
  {
    if |log| > 0 {
      var i', h', done' := TracesInit(log, m, i, h, done, orderly);
      TracesEntries(log[..|log| - 1], m, n, i', h', done', orderly);
    }
  }

  lemma {:induction false} TracesPrefix(log: seq<Event>, m: nat, n: nat, i: nat, h: nat, done: bool)
    requires Traces(log, m, i, h, done, true) && i <= m && h <= n
    ensures Entries(log, 0, m + n) == Range(0, i + h) && (h > 0 ==> i == m)
  {
    if |log| > 0 {
      var i', h', done' := TracesInit(log, m, i, h, done, true);
      TracesPrefix(log[..|log| - 1], m, n, i', h', done');
    }
  }

  lemma {:induction false} ResponsesSeen(log: seq<Event>)
    ensures Responses(log) > 0 <==> Written in log
  {
    if |log| > 0 {
      ResponsesSeen(log[..|log| - 1]);
      assert log == log[..|log| - 1] + [log[|log| - 1]];
    }
  }

  lemma ResponsesPush(log: seq<Event>, e: Event)
    ensures Responses(log + [e]) == Responses(log) + (if e == Written then 1 else 0)
  {
    assert (log + [e])[..|log|] == log;
  }

  lemma {:induction false} ActsSeen(actions: seq<Action>, n: nat)
    requires n <= |actions|
    ensures Acts(actions, n) > 0 <==> Write in actions[..n]
  {
    if n > 0 {
      ActsSeen(actions, n - 1);
      assert actions[..n] == actions[..n - 1] + [actions[n - 1]];
    }
  }

  lemma {:induction false} TotalSeen(scripts: seq<Script>, n: nat)
    requires n <= |scripts|
    ensures Total(scripts, n) == 0 <==> MuteUpTo(scripts, n)
  {
    if n > 0 {
      var s := scripts[n - 1];
      TotalSeen(scripts, n - 1);
      ActsSeen(s.actions, |s.actions|);
      assert s.actions[..|s.actions|] == s.actions;
    }
  }

  // ---- The run of a chain ------------------------------------------------------------------

  /** How far a request has come: the middleware and handlers entered, whether each
      continuation is set, whether the context is done, the first element that has written
      or returned something, or -1, and the log. */
  datatype Mark = Mark(i: nat, h: nat, nextMW: bool, next: bool, done: bool, first: int, log: seq<Event>)

  const Start: Mark := Mark(0, 0, true, true, false, -1, [])

  predicate Within(p: Plan, a: Mark) {
    a.i <= |p.mw| && a.h <= |p.hc|
  }

  /** Elements not entered yet. */
  function Rest(p: Plan, a: Mark): nat
    requires Within(p, a)
  {
    |p.mw| - a.i + (|p.hc| - a.h)
  }

  predicate Onward(p: Plan, a: Mark, b: Mark) {
    Within(p, b) && a.i <= b.i && a.h <= b.h
  }

  /** Element `e` is the next of its kind. */
  predicate IsNext(p: Plan, a: Mark, e: nat) {
    if e < |p.mw| then e == a.i else e == |p.mw| + a.h && a.h < |p.hc|
  }

  /** The next handler, counted through the whole chain. */
  function HandlerOf(p: Plan, a: Mark): nat {
    |p.mw| + a.h
  }

  function Enters(p: Plan, a: Mark, e: nat): Mark {
    var a' := a.(log := a.log + [Enter(e)]);
    if e < |p.mw| then a'.(i := a.i + 1) else a'.(h := a.h + 1)
  }

  function Stops(a: Mark, e: nat): Mark {
    if a.first == -1 then a.(first := e) else a
  }

  function Responds(a: Mark, e: nat): Mark {
    Stops(a, e).(done := true, log := a.log + [Written])
  }

  /** What a loop does with the result of `e`. */
  function Concludes(p: Plan, a: Mark, e: nat, r: Result): Mark {
    match r
    case Nil => a
    case Response => Responds(a, e)
    case Break => if e < |p.mw| then Stops(a, e).(next := false) else Stops(a, e)
  }

  function AfterNextMiddleware(p: Plan, a: Mark): (b: Mark)
    requires Within(p, a)
    ensures Onward(p, a, b)
    decreases Rest(p, a), 2
  {
    if a.nextMW then AfterMiddleware(p, a).(nextMW := false) else a
  }

  function AfterNextHandler(p: Plan, a: Mark): (b: Mark)
    requires Within(p, a)
    ensures Onward(p, a, b)
    decreases Rest(p, a), 2
  {
    if a.next then AfterHandlers(p, a).(next := false) else a
  }

  function AfterNext(p: Plan, a: Mark): (b: Mark)
    requires Within(p, a)
    ensures Onward(p, a, b)
    decreases Rest(p, a), 3
  {
    AfterNextHandler(p, AfterNextMiddleware(p, a))
  }

  /** One action of element `e`. */
  function AfterAct(p: Plan, a: Mark, act: Action, e: nat): (b: Mark)
    requires Within(p, a)
    ensures Onward(p, a, b)
    decreases Rest(p, a), 4
  {
    match act
    case CallNext => AfterNext(p, a)
    case CallNextMiddleware => AfterNextMiddleware(p, a)
    case CallNextHandler => AfterNextHandler(p, a)
    case Write => Responds(a, e)
  }

  /** The first `n` actions of element `e`. */
  function AfterActs(p: Plan, a: Mark, e: nat, n: nat): (b: Mark)
    requires Within(p, a) && e < |p.mw| + |p.hc| && n <= |p.Element(e).actions|
    ensures Onward(p, a, b)
    decreases Rest(p, a), 5, n
  {
    if n == 0 then a else AfterAct(p, AfterActs(p, a, e, n - 1), p.Element(e).actions[n - 1], e)
  }

  /** One turn of a loop: element `e` is entered, runs, and its result is dealt with. */
  function AfterTurn(p: Plan, a: Mark, e: nat): (b: Mark)
    requires Within(p, a) && IsNext(p, a, e)
    ensures Onward(p, a, b) && Rest(p, b) < Rest(p, a)
    decreases Rest(p, a), 0
  {
    var s := p.Element(e);
    Concludes(p, AfterActs(p, Enters(p, a, e), e, |s.actions|), e, s.result)
  }

  /** The loop over the middleware. */
  function AfterMiddleware(p: Plan, a: Mark): (b: Mark)
    requires Within(p, a)
    ensures Onward(p, a, b)
    decreases Rest(p, a), 1
  {
    if a.i == |p.mw| || a.done then a
    else
      var b := AfterTurn(p, a, a.i);
      if p.mw[a.i].result != Nil then b else AfterMiddleware(p, b)
  }

  /** The loop over the handlers. */
  function AfterHandlers(p: Plan, a: Mark): (b: Mark)
    requires Within(p, a)
    ensures Onward(p, a, b)
    decreases Rest(p, a), 1
  {
    if a.h == |p.hc| || a.done then a
    else
      var b := AfterTurn(p, a, HandlerOf(p, a));
      if p.hc[a.h].result != Nil then b else AfterHandlers(p, b)
  }

  // ---- The context runs it -------------------------------------------------------------------

  class Context {
    const p: Plan
    var mwIdx: nat
    var hIdx: nat
    var nextMW: bool  // whether ctx.nextMW is set
    var next: bool    // whether ctx.next is set
    var done: bool
    var log: seq<Event>
    ghost var first: int

    ghost function Now(): Mark
      reads this
    {
      Mark(mwIdx, hIdx, nextMW, next, done, first, log)
    }

    constructor (p: Plan)
      ensures this.p == p && Now() == Start
    {
      this.p := p;
      mwIdx, hIdx, nextMW, next, done, log, first := 0, 0, true, true, false, [], -1;
    }

    ghost method Stop(e: nat)
      modifies this`first
      ensures Now() == Stops(old(Now()), e)
    {
      if first == -1 {
        first := e;
      }
    }

    method WriteResponse(ghost e: nat)
      modifies this`done, this`log, this`first
      ensures Now() == Responds(old(Now()), e)
    {
      Stop(e);
      log := log + [Written];
      done := true;
    }

    /** ctx.NextMiddleware */
    method NextMiddleware()
      requires Within(p, Now())
      modifies this
      ensures Now() == AfterNextMiddleware(p, old(Now()))
      decreases Rest(p, Now()), 2
    {
      if nextMW {
        RunMiddleware();
      }
    }

    /** ctx.NextHandler */
    method NextHandler()
      requires Within(p, Now())
      modifies this
      ensures Now() == AfterNextHandler(p, old(Now()))
      decreases Rest(p, Now()), 2
    {
      if next {
        RunHandlers();
      }
    }

    /** ctx.Next */
    method Next()
      requires Within(p, Now())
      modifies this
      ensures Now() == AfterNext(p, old(Now()))
      decreases Rest(p, Now()), 3
    {
      NextMiddleware();
      NextHandler();
    }

    /** Runs element `e`, which has just been entered. */
    method Run(s: Script, ghost e: nat) returns (r: Result)
      requires Within(p, Now()) && e < |p.mw| + |p.hc| && s == p.Element(e)
      modifies this
      ensures Now() == AfterActs(p, old(Now()), e, |s.actions|) && r == s.result
      decreases Rest(p, Now()), 5
    {
      ghost var start := Now();
      for i := 0 to |s.actions|
        invariant Now() == AfterActs(p, start, e, i)
      {
        match s.actions[i] {
          case CallNext => Next();
          case CallNextMiddleware => NextMiddleware();
          case CallNextHandler => NextHandler();
          case Write => WriteResponse(e);
        }
      }
      return s.result;
    }

    /** The closure in ctx.nextMW. */
    method RunMiddleware()
      requires Within(p, Now())
      modifies this
      ensures Now() == AfterMiddleware(p, old(Now())).(nextMW := false)
      decreases Rest(p, Now()), 1
    {
      ghost var goal := AfterMiddleware(p, Now());
      while mwIdx < |p.mw| && !done
        invariant Within(p, Now()) && Rest(p, Now()) <= old(Rest(p, Now()))
        invariant AfterMiddleware(p, Now()) == goal
        decreases Rest(p, Now())
      {
        ghost var e := mwIdx;
        ghost var before := Now();
        var h := p.mw[mwIdx];
        log := log + [Enter(mwIdx)];
        mwIdx := mwIdx + 1;
        assert Now() == Enters(p, before, e);
        var r := Run(h, e);
        if r != Nil {
          if r != Break {
            WriteResponse(e);
          } else {
            Stop(e);
            next := false;
          }
          assert Now() == AfterTurn(p, before, e) == goal;
          break;
        }
      }
      nextMW := false;
    }

    /** The closure in ctx.next. */
    method RunHandlers()
      requires Within(p, Now())
      modifies this
      ensures Now() == AfterHandlers(p, old(Now())).(next := false)
      decreases Rest(p, Now()), 1
    {
      ghost var goal := AfterHandlers(p, Now());
      while hIdx < |p.hc| && !done
        invariant Within(p, Now()) && Rest(p, Now()) <= old(Rest(p, Now()))
        invariant AfterHandlers(p, Now()) == goal
        decreases Rest(p, Now())
      {
        ghost var e := HandlerOf(p, Now());
        ghost var before := Now();
        var h := p.hc[hIdx];
        log := log + [Enter(|p.mw| + hIdx)];
        hIdx := hIdx + 1;
        assert Now() == Enters(p, before, e);
        var r := Run(h, e);
        if r != Nil {
          if r != Break {
            WriteResponse(e);
          } else {
            Stop(e);
          }
          assert Now() == AfterTurn(p, before, e) == goal;
          break;
        }
      }
      next := false;
    }
  }

  // ---- What every run keeps --------------------------------------------------------------------

  /** The counters agree with what has been entered, and a continuation is only cleared
      when its work is over or something has stopped it. If `orderly`, no handler starts
      before the last middleware has. */
  predicate Agrees(p: Plan, orderly: bool, b: Mark) {
    && Within(p, b)
    && Traces(b.log, |p.mw|, b.i, b.h, b.done, orderly)
    && (if b.first == -1 then !b.done && (!b.nextMW ==> b.i == |p.mw|) && (!b.next ==> b.h == |p.hc|)
        else Among(|p.mw|, b.i, b.h, b.first) && !Benign(p.Element(b.first)))
    && (orderly ==> (b.h > 0 ==> b.i == |p.mw|) && (!b.nextMW ==> b.i == |p.mw| || b.done || !b.next))
  }

  /** Entered after `a`, by the time of `b`. */
  predicate Between(p: Plan, a: Mark, b: Mark, e: int) {
    a.i <= e < b.i || |p.mw| + a.h <= e < |p.mw| + b.h
  }

  /** Counters only grow, and stay once the context is done; cleared continuations stay
      cleared; whoever stopped first is remembered, and is `caller` or has been entered
      meanwhile. */
  predicate Later(p: Plan, a: Mark, b: Mark, caller: int) {
    && Onward(p, a, b)
    && (a.done ==> b.done && b.i == a.i && b.h == a.h)
    && (b.nextMW ==> a.nextMW) && (b.next ==> a.next)
    && (b.first == a.first || (a.first == -1 && (b.first == caller || Between(p, a, b, b.first))))
  }

  /** Another element than `e` has written or returned something first. */
  predicate Blames(b: Mark, e: int) {
    b.first != -1 && b.first != e
  }

  /** What an element that has been run leaves: a middleware that returned Break has
      called the handlers off, and the calls it made before writing have entered all
      there was to enter, unless another element stopped them. */
  predicate Settled(p: Plan, b: Mark, e: nat)
    requires e < |p.mw| + |p.hc|
  {
    var s := p.Element(e);
    && (e < |p.mw| && s.result == Break ==> !b.next)
    && (CallsMiddleware(s) ==> b.i == |p.mw| || Blames(b, e))
    && (CallsHandlers(s) ==> b.h == |p.hc| || Blames(b, e))
  }

  /** All that has been entered between two marks has been run. */
  ghost predicate AllSettled(p: Plan, a: Mark, b: Mark)
    requires Within(p, b)
  {
    forall e: nat :: Between(p, a, b, e) ==> Settled(p, b, e)
  }

  /** `own` responses, and those of the elements entered meanwhile, have been written. */
  predicate Balanced(p: Plan, a: Mark, b: Mark, own: nat)
    requires Within(p, a) && Within(p, b)
  {
    Responses(b.log) + Total(p.mw, a.i) + Total(p.hc, a.h) == Responses(a.log) + own + Total(p.mw, b.i) + Total(p.hc, b.h)
  }

  ghost predicate Went(p: Plan, a: Mark, b: Mark, caller: int, own: nat)
    requires Within(p, a)
  {
    Later(p, a, b, caller) && AllSettled(p, a, b) && Balanced(p, a, b, own)
  }

  /** Through a cleared continuation nothing is entered. */
  predicate MiddlewareStays(a: Mark, b: Mark) {
    !a.nextMW ==> b.i == a.i
  }

  predicate HandlersStay(a: Mark, b: Mark) {
    !a.next ==> b.h == a.h
  }

  ghost predicate Grew(p: Plan, a: Mark, b: Mark, caller: int, own: nat)
    requires Within(p, a)
  {
    Went(p, a, b, caller, own) && MiddlewareStays(a, b) && HandlersStay(a, b)
  }

  lemma WentJoin(p: Plan, a: Mark, b: Mark, c: Mark, caller: int, then': int, own: nat, more: nat)
    requires Within(p, a) && Went(p, a, b, caller, own) && Went(p, b, c, then', more) && (then' == -1 || then' == caller)
    ensures Went(p, a, c, caller, own + more)
  {
    forall e: nat | Between(p, a, c, e)
      ensures Settled(p, c, e)
    {
      assert Between(p, a, b, e) || Between(p, b, c, e);
      assert Between(p, a, b, e) ==> Settled(p, b, e);
    }
  }

  /** Clearing a continuation. */
  lemma WentClear(p: Plan, a: Mark, b: Mark, c: Mark)
    requires Within(p, a) && Went(p, a, b, -1, 0) && (c == b.(nextMW := false) || c == b.(next := false))
    ensures Went(p, a, c, -1, 0)
  {
    forall e: nat | Between(p, a, c, e)
      ensures Settled(p, c, e)
    {
      assert Between(p, a, b, e) && Settled(p, b, e);
    }
  }

  lemma NextMiddlewareGoes(p: Plan, orderly: bool, a: Mark)
    requires (orderly ==> Orderly(p.mw)) && Agrees(p, orderly, a)
    ensures var b := AfterNextMiddleware(p, a); Agrees(p, orderly, b) && Grew(p, a, b, -1, 0) && !b.nextMW
    decreases Rest(p, a), 2
  {
    if a.nextMW {
      var b := AfterMiddleware(p, a);
      MiddlewareGoes(p, orderly, a);
      WentClear(p, a, b, b.(nextMW := false));
    }
  }

  lemma NextHandlerGoes(p: Plan, orderly: bool, a: Mark)
    requires (orderly ==> Orderly(p.mw) && !a.nextMW) && Agrees(p, orderly, a)
    ensures var b := AfterNextHandler(p, a); Agrees(p, orderly, b) && Grew(p, a, b, -1, 0) && !b.next
    decreases Rest(p, a), 2
  {
    if a.next {
      var b := AfterHandlers(p, a);
      HandlersGo(p, orderly, a);
      WentClear(p, a, b, b.(next := false));
    }
  }

  lemma NextGoes(p: Plan, orderly: bool, a: Mark)
    requires (orderly ==> Orderly(p.mw)) && Agrees(p, orderly, a)
    ensures var b := AfterNext(p, a); Agrees(p, orderly, b) && Grew(p, a, b, -1, 0) && !b.nextMW && !b.next
    decreases Rest(p, a), 3
  {
    var b := AfterNextMiddleware(p, a);
    NextMiddlewareGoes(p, orderly, a);
    NextHandlerGoes(p, orderly, b);
    WentJoin(p, a, b, AfterNext(p, a), -1, -1, 0, 0);
  }

  /** A call on the context has done what it is for when it returns: the continuation is
      cleared, or a response has been written. */
  lemma ActGoes(p: Plan, orderly: bool, a: Mark, act: Action, e: nat)
    requires (orderly ==> Orderly(p.mw)) && Agrees(p, orderly, a) && Among(|p.mw|, a.i, a.h, e)
    requires act == Write ==> !Benign(p.Element(e))
    requires orderly && act == CallNextHandler ==> !a.nextMW
    ensures var b := AfterAct(p, a, act, e);
            && Agrees(p, orderly, b)
            && Grew(p, a, b, if act == Write then e else -1, if act == Write then 1 else 0)
            && (act == CallNext || act == CallNextMiddleware ==> !b.nextMW)
            && (act == CallNext || act == CallNextHandler ==> !b.next)
    decreases Rest(p, a), 4
  {
    match act
    case CallNext => NextGoes(p, orderly, a);
    case CallNextMiddleware => NextMiddlewareGoes(p, orderly, a);
    case CallNextHandler => NextHandlerGoes(p, orderly, a);
    case Write => WriteGoes(p, orderly, a, e);
  }

  lemma WriteGoes(p: Plan, orderly: bool, a: Mark, e: nat)
    requires Agrees(p, orderly, a) && Among(|p.mw|, a.i, a.h, e) && !Benign(p.Element(e))
    ensures var b := Responds(a, e); Agrees(p, orderly, b) && Grew(p, a, b, e, 1)
  {
    TracesPush(a.log, Written, |p.mw|, a.i, a.h, a.done, orderly);
    ResponsesPush(a.log, Written);
  }

  lemma {:induction false} ActsGo(p: Plan, orderly: bool, a: Mark, e: nat, n: nat)
    requires (orderly ==> Orderly(p.mw)) && Agrees(p, orderly, a)
    requires Among(|p.mw|, a.i, a.h, e) && a.first != e && (orderly && e >= |p.mw| ==> !a.nextMW)
    requires n <= |p.Element(e).actions|
    ensures var b := AfterActs(p, a, e, n); var actions := p.Element(e).actions;
            && Agrees(p, orderly, b) && Grew(p, a, b, e, Acts(actions, n))
            && (Acts(actions, n) == 0 ==> b.first != e)
            && (CallsMiddlewareIn(actions, n) ==> b.i == |p.mw| || Blames(b, e))
            && (CallsHandlersIn(actions, n) ==> b.h == |p.hc| || Blames(b, e))
    decreases Rest(p, a), 5, n
  {
    if n > 0 {
      var act := p.Element(e).actions[n - 1];
      var b, c := AfterActs(p, a, e, n - 1), AfterActs(p, a, e, n);
      ActsGo(p, orderly, a, e, n - 1);
      ActGoes(p, orderly, b, act, e);
      WentJoin(p, a, b, c, e, if act == Write then e else -1,
               Acts(p.Element(e).actions, n - 1), if act == Write then 1 else 0);
    }
  }

  lemma EnterAgrees(p: Plan, orderly: bool, a: Mark, e: nat)
    requires Agrees(p, orderly, a) && !a.done && IsNext(p, a, e) && (orderly && e >= |p.mw| ==> a.i == |p.mw|)
    ensures var b := Enters(p, a, e);
            Agrees(p, orderly, b) && b.first != e && Among(|p.mw|, b.i, b.h, e) && Responses(b.log) == Responses(a.log)
  {
    TracesPush(a.log, Enter(e), |p.mw|, a.i, a.h, a.done, orderly);
    ResponsesPush(a.log, Enter(e));
  }

  lemma ConcludeAgrees(p: Plan, orderly: bool, a: Mark, e: nat)
    requires Agrees(p, orderly, a) && Among(|p.mw|, a.i, a.h, e)
    ensures var b := Concludes(p, a, e, p.Element(e).result);
            && Agrees(p, orderly, b)
            && Responses(b.log) == Responses(a.log) + (if p.Element(e).result == Response then 1 else 0)
  {
    TracesPush(a.log, Written, |p.mw|, a.i, a.h, a.done, orderly);
    ResponsesPush(a.log, Written);
  }

  /** What has been settled stays so when a loop deals with a result. */
  lemma ConcludeSettles(p: Plan, b: Mark, e: nat, r: Result, d: nat)
    requires d < |p.mw| + |p.hc| && Settled(p, b, d) && d != e
    ensures Settled(p, Concludes(p, b, e, r), d)
  {
  }

  lemma OwnSettles(p: Plan, b: Mark, e: nat)
    requires e < |p.mw| + |p.hc|
    requires CallsMiddleware(p.Element(e)) ==> b.i == |p.mw| || Blames(b, e)
    requires CallsHandlers(p.Element(e)) ==> b.h == |p.hc| || Blames(b, e)
    ensures Settled(p, Concludes(p, b, e, p.Element(e).result), e)
  {
  }

  /** An element that has been run is settled, and so are those that it ran. */
  lemma TurnSettles(p: Plan, a: Mark, a': Mark, b: Mark, c: Mark, e: nat)
    requires Within(p, a) && IsNext(p, a, e) && a' == Enters(p, a, e) && Onward(p, a', b) && AllSettled(p, a', b)
    requires c == Concludes(p, b, e, p.Element(e).result)
    requires CallsMiddleware(p.Element(e)) ==> b.i == |p.mw| || Blames(b, e)
    requires CallsHandlers(p.Element(e)) ==> b.h == |p.hc| || Blames(b, e)
    ensures AllSettled(p, a, c)
  {
    OwnSettles(p, b, e);
    forall d: nat | Between(p, a, c, d)
      ensures Settled(p, c, d)
    {
      if d != e {
        assert Between(p, a', b, d);
        ConcludeSettles(p, b, e, p.Element(e).result, d);
      }
    }
  }

  lemma TurnIsLater(p: Plan, a: Mark, b: Mark, e: nat)
    requires Within(p, a) && IsNext(p, a, e) && !a.done && Later(p, Enters(p, a, e), b, e)
    ensures Later(p, a, Concludes(p, b, e, p.Element(e).result), -1)
  {
  }

  lemma TurnBalances(p: Plan, a: Mark, b: Mark, c: Mark, e: nat)
    requires Within(p, a) && IsNext(p, a, e) && Within(p, b) && Within(p, c) && b.i == c.i && b.h == c.h
    requires var s := p.Element(e);
             && Balanced(p, Enters(p, a, e), b, Acts(s.actions, |s.actions|))
             && Responses(Enters(p, a, e).log) == Responses(a.log)
             && Responses(c.log) == Responses(b.log) + (if s.result == Response then 1 else 0)
    ensures Balanced(p, a, c, 0)
  {
    assert if e < |p.mw| then Total(p.mw, a.i + 1) == Total(p.mw, a.i) + Answers(p.Element(e))
           else Total(p.hc, a.h + 1) == Total(p.hc, a.h) + Answers(p.Element(e));
  }

  /** A loop that stops has been stopped by somebody; what it does enters nothing. */
  lemma ConcludeStops(p: Plan, b: Mark, e: nat, r: Result)
    ensures var c := Concludes(p, b, e, r);
            && c.i == b.i && c.h == b.h && c.nextMW == b.nextMW && (e >= |p.mw| ==> c.next == b.next)
            && (r != Nil ==> c.first != -1 && (e < |p.mw| ==> c.done || !c.next))
  {
  }

  lemma TurnGoes(p: Plan, orderly: bool, a: Mark, e: nat)
    requires (orderly ==> Orderly(p.mw)) && Agrees(p, orderly, a) && !a.done && IsNext(p, a, e)
    requires orderly && e >= |p.mw| ==> a.i == |p.mw| && !a.nextMW
    ensures var b := AfterTurn(p, a, e);
            && Agrees(p, orderly, b) && Went(p, a, b, -1, 0)
            && (if e < |p.mw| then HandlersStay(a, b) else MiddlewareStays(a, b))
            && (p.Element(e).result != Nil ==> b.first != -1 && (e < |p.mw| ==> b.done || !b.next))
    decreases Rest(p, a), 0
  {
    var s, a' := p.Element(e), Enters(p, a, e);
    var b := AfterActs(p, a', e, |s.actions|);
    EnterAgrees(p, orderly, a, e);
    ActsGo(p, orderly, a', e, |s.actions|);
    ConcludeAgrees(p, orderly, b, e);
    ConcludeStops(p, b, e, s.result);
    TurnSettles(p, a, a', b, AfterTurn(p, a, e), e);
    TurnIsLater(p, a, b, e);
    TurnBalances(p, a, b, AfterTurn(p, a, e), e);
  }

  lemma MiddlewareGoes(p: Plan, orderly: bool, a: Mark)
    requires (orderly ==> Orderly(p.mw)) && Agrees(p, orderly, a)
    ensures var b := AfterMiddleware(p, a);
            && Agrees(p, orderly, b) && Went(p, a, b, -1, 0) && HandlersStay(a, b)
            && (b.i == |p.mw| || (b.first != -1 && (b.done || !b.next)))
    decreases Rest(p, a), 1
  {
    if a.i < |p.mw| && !a.done {
      var b := AfterTurn(p, a, a.i);
      TurnGoes(p, orderly, a, a.i);
      if p.mw[a.i].result == Nil {
        MiddlewareGoes(p, orderly, b);
        WentJoin(p, a, b, AfterMiddleware(p, b), -1, -1, 0, 0);
      }
    }
  }

  /** With orderly middleware, all of it has started. */
  predicate HandlersReady(p: Plan, orderly: bool, a: Mark) {
    orderly ==> Orderly(p.mw) && !a.nextMW && (a.i == |p.mw| || a.done)
  }

  lemma HandlerTurnGoes(p: Plan, orderly: bool, a: Mark)
    requires Agrees(p, orderly, a) && HandlersReady(p, orderly, a)
    requires a.h < |p.hc| && !a.done
    ensures var b := AfterTurn(p, a, HandlerOf(p, a));
            && Agrees(p, orderly, b) && Went(p, a, b, -1, 0) && MiddlewareStays(a, b)
            && HandlersReady(p, orderly, b)
            && (p.hc[a.h].result != Nil ==> b.first != -1)
    decreases Rest(p, a), 1, 0
  {
    var e := HandlerOf(p, a);
    assert e >= |p.mw| && p.Element(e) == p.hc[a.h];
    TurnGoes(p, orderly, a, e);
  }

  /** What the loop over the handlers leaves. */
  ghost predicate HandlersDone(p: Plan, orderly: bool, a: Mark, b: Mark)
    requires Within(p, a)
  {
    && Agrees(p, orderly, b) && Went(p, a, b, -1, 0) && MiddlewareStays(a, b)
    && (b.h == |p.hc| || b.first != -1)
  }

  lemma HandlersJoin(p: Plan, orderly: bool, a: Mark, b: Mark, c: Mark)
    requires Within(p, a) && Went(p, a, b, -1, 0) && MiddlewareStays(a, b) && HandlersDone(p, orderly, b, c)
    ensures HandlersDone(p, orderly, a, c)
  {
    WentJoin(p, a, b, c, -1, -1, 0, 0);
  }

  lemma HandlersGo(p: Plan, orderly: bool, a: Mark)
    requires Agrees(p, orderly, a) && HandlersReady(p, orderly, a)
    ensures HandlersDone(p, orderly, a, AfterHandlers(p, a))
    decreases Rest(p, a), 1, 1
  {
    if a.h < |p.hc| && !a.done {
      var b := AfterTurn(p, a, HandlerOf(p, a));
      HandlerTurnGoes(p, orderly, a);
      if p.hc[a.h].result == Nil {
        HandlersGo(p, orderly, b);
        HandlersJoin(p, orderly, a, b, AfterHandlers(p, b));
      }
    }
  }

  // ---- Scripts without re-entrant calls ----------------------------------------------------------

  lemma PassiveNext(p: Plan, a: Mark)
    requires AllPassive(p.mw) && Within(p, a)
    ensures AfterNextMiddleware(p, a).h == a.h
    decreases Rest(p, a), 2
  {
    if a.nextMW {
      PassiveMiddleware(p, a);
    }
  }

  lemma {:induction false} PassiveActs(p: Plan, a: Mark, e: nat, n: nat)
    requires AllPassive(p.mw) && Within(p, a) && e < |p.mw| && n <= |p.mw[e].actions|
    ensures AfterActs(p, a, e, n).h == a.h
    decreases Rest(p, a), 5, n
  {
    if n > 0 {
      PassiveActs(p, a, e, n - 1);
      assert Passive(p.mw[e]) && p.mw[e].actions[n - 1] in p.mw[e].actions;
      PassiveNext(p, AfterActs(p, a, e, n - 1));
    }
  }

  lemma PassiveMiddleware(p: Plan, a: Mark)
    requires AllPassive(p.mw) && Within(p, a)
    ensures AfterMiddleware(p, a).h == a.h
    decreases Rest(p, a), 1
  {
    if a.i < |p.mw| && !a.done {
      PassiveActs(p, Enters(p, a, a.i), a.i, |p.mw[a.i].actions|);
      if p.mw[a.i].result == Nil {
        PassiveMiddleware(p, AfterTurn(p, a, a.i));
      }
    }
  }

  /** An element that calls nothing enters nothing. */
  lemma {:induction false} PlainActs(p: Plan, a: Mark, e: nat, n: nat)
    requires Within(p, a) && e < |p.mw| + |p.hc| && Plain(p.Element(e)) && n <= |p.Element(e).actions|
    ensures AfterActs(p, a, e, n).i == a.i && AfterActs(p, a, e, n).h == a.h
    decreases n
  {
    if n > 0 {
      PlainActs(p, a, e, n - 1);
    }
  }

  lemma PlainTurn(p: Plan, a: Mark, e: nat)
    requires Within(p, a) && IsNext(p, a, e) && Plain(p.Element(e))
    ensures var b := AfterTurn(p, a, e); if e < |p.mw| then b.i == a.i + 1 && b.h == a.h else b.i == a.i && b.h == a.h + 1
  {
    PlainActs(p, Enters(p, a, e), e, |p.Element(e).actions|);
  }

  lemma OnlyLastPush(scripts: seq<Script>, a: nat, b: nat)
    requires b <= |scripts| && a < |scripts| && scripts[a].result == Nil && OnlyLastStops(scripts, a + 1, b)
    ensures OnlyLastStops(scripts, a, b)
  {
  }

  lemma PlainMiddleware(p: Plan, a: Mark)
    requires AllPlain(p.mw) && Within(p, a)
    ensures OnlyLastStops(p.mw, a.i, AfterMiddleware(p, a).i)
    decreases Rest(p, a)
  {
    if a.i < |p.mw| && !a.done {
      PlainTurn(p, a, a.i);
      if p.mw[a.i].result == Nil {
        var b := AfterTurn(p, a, a.i);
        PlainMiddleware(p, b);
        OnlyLastPush(p.mw, a.i, AfterMiddleware(p, b).i);
      }
    }
  }

  lemma PlainHandlers(p: Plan, a: Mark)
    requires AllPlain(p.hc) && Within(p, a)
    ensures OnlyLastStops(p.hc, a.h, AfterHandlers(p, a).h)
    decreases Rest(p, a)
  {
    if a.h < |p.hc| && !a.done {
      var e := HandlerOf(p, a);
      assert e >= |p.mw| && p.Element(e) == p.hc[a.h];
      PlainTurn(p, a, e);
      if p.hc[a.h].result == Nil {
        var b := AfterTurn(p, a, e);
        PlainHandlers(p, b);
        OnlyLastPush(p.hc, a.h, AfterHandlers(p, b).h);
      }
    }
  }

  /** Handlers that leave the middleware to the chain. */
  predicate AllAlone(hc: seq<Script>) {
    forall i :: 0 <= i < |hc| ==> CallNext !in hc[i].actions && CallNextMiddleware !in hc[i].actions
  }

  /** NextHandler runs handlers only, even when called from middleware: if they do not run
      the middleware themselves, none is entered meanwhile. */
  lemma AloneAct(p: Plan, a: Mark, e: nat)
    requires AllAlone(p.hc) && Within(p, a)
    ensures AfterAct(p, a, CallNextHandler, e).i == a.i
    decreases Rest(p, a), 3
  {
    if a.next {
      AloneHandlers(p, a);
    }
  }

  lemma {:induction false} AloneActs(p: Plan, a: Mark, e: nat, n: nat)
    requires AllAlone(p.hc) && Within(p, a) && |p.mw| <= e < |p.mw| + |p.hc| && n <= |p.Element(e).actions|
    ensures AfterActs(p, a, e, n).i == a.i
    decreases Rest(p, a), 5, n
  {
    if n > 0 {
      AloneActs(p, a, e, n - 1);
      assert p.Element(e) == p.hc[e - |p.mw|] && p.Element(e).actions[n - 1] in p.hc[e - |p.mw|].actions;
      AloneAct(p, AfterActs(p, a, e, n - 1), e);
    }
  }

  lemma AloneHandlers(p: Plan, a: Mark)
    requires AllAlone(p.hc) && Within(p, a)
    ensures AfterHandlers(p, a).i == a.i
    decreases Rest(p, a), 1
  {
    if a.h < |p.hc| && !a.done {
      var e := HandlerOf(p, a);
      AloneActs(p, Enters(p, a, e), e, |p.Element(e).actions|);
      if p.hc[a.h].result == Nil {
        AloneHandlers(p, AfterTurn(p, a, e));
      }
    }
  }

  // ---- Main results ---------------------------------------------------------------------------------

  /** Of the middleware exactly the first `i` and of the handlers exactly the first `h` are
      entered, each once and in order, and nothing after a response has been written. If
      middleware is orderly, what is entered is a prefix of the whole chain. */
  predicate InOrder(p: Plan, log: seq<Event>, i: nat, h: nat) {
    var m, n := |p.mw|, |p.hc|;
    && Entries(log, 0, m) == Range(0, i) && Entries(log, m, m + n) == Range(m, h)
    && QuietAfterWrite(log)
    && (Orderly(p.mw) ==> Entries(log, 0, m + n) == Range(0, i + h) && (h > 0 ==> i == m))
  }

  lemma RunEnters(p: Plan)
    ensures var b := AfterNext(p, Start); InOrder(p, b.log, b.i, b.h)
  {
    var b, orderly := AfterNext(p, Start), Orderly(p.mw);
    NextGoes(p, orderly, Start);
    TracesQuiet(b.log, |p.mw|, b.i, b.h, b.done, orderly);
    TracesEntries(b.log, |p.mw|, |p.hc|, b.i, b.h, b.done, orderly);
    if orderly {
      TracesPrefix(b.log, |p.mw|, |p.hc|, b.i, b.h, b.done);
    }
  }

  /** Unless one of the entered elements stops the chain, all of it is entered. An element
      that runs the rest of the middleware, or of the handlers, before it writes has entered
      all of it, whatever it does or returns afterwards, unless another element stops it. */
  predicate Complete(p: Plan, i: nat, h: nat)
    requires i <= |p.mw| && h <= |p.hc|
  {
    && (BenignUpTo(p.mw, i) && BenignUpTo(p.hc, h) ==> i == |p.mw| && h == |p.hc|)
    && forall e :: 0 <= e < |p.mw| + |p.hc| && Among(|p.mw|, i, h, e) && BenignBut(p, i, h, e) ==>
         && (CallsMiddleware(p.Element(e)) ==> i == |p.mw|)
         && (CallsHandlers(p.Element(e)) ==> h == |p.hc|)
  }

  lemma RunCompletes(p: Plan)
    ensures var b := AfterNext(p, Start); Complete(p, b.i, b.h)
  {
    var b := AfterNext(p, Start);
    NextGoes(p, false, Start);
    if BenignUpTo(p.mw, b.i) && BenignUpTo(p.hc, b.h) {
      assert b.first == -1;
    }
    forall e | 0 <= e < |p.mw| + |p.hc| && Among(|p.mw|, b.i, b.h, e) && BenignBut(p, b.i, b.h, e)
      ensures CallsMiddleware(p.Element(e)) ==> b.i == |p.mw|
      ensures CallsHandlers(p.Element(e)) ==> b.h == |p.hc|
    {
      assert Between(p, Start, b, e) && Settled(p, b, e);
    }
  }

  /** As many responses are written as the entered elements write. */
  predicate Responded(p: Plan, log: seq<Event>, i: nat, h: nat)
    requires i <= |p.mw| && h <= |p.hc|
  {
    && Responses(log) == Total(p.mw, i) + Total(p.hc, h)
    && (Written in log <==> !(MuteUpTo(p.mw, i) && MuteUpTo(p.hc, h)))
  }

  lemma RunResponds(p: Plan)
    ensures var b := AfterNext(p, Start); Responded(p, b.log, b.i, b.h)
  {
    var b := AfterNext(p, Start);
    NextGoes(p, false, Start);
    ResponsesSeen(b.log);
    TotalSeen(p.mw, b.i);
    TotalSeen(p.hc, b.h);
  }

  /** Without re-entrant calls an element that returns something is the last of its kind,
      and a middleware that returns Break keeps the handlers from being entered. */
  predicate StopsInTime(p: Plan, i: nat, h: nat)
    requires i <= |p.mw| && h <= |p.hc|
  {
    && (AllPlain(p.mw) ==> OnlyLastStops(p.mw, 0, i))
    && (AllPlain(p.hc) && AllPassive(p.mw) ==> OnlyLastStops(p.hc, 0, h))
    && (AllPassive(p.mw) && (exists k :: 0 <= k < i && p.mw[k].result == Break) ==> h == 0)
  }

  lemma RunStops(p: Plan)
    ensures var b := AfterNext(p, Start); StopsInTime(p, b.i, b.h)
  {
    var a, b := AfterNextMiddleware(p, Start), AfterNext(p, Start);
    NextMiddlewareGoes(p, false, Start);
    NextHandlerGoes(p, false, a);
    assert b.i == a.i;
    if AllPlain(p.mw) {
      PlainMiddleware(p, Start);
    }
    if AllPassive(p.mw) {
      PassiveNext(p, Start);
      if AllPlain(p.hc) && a.next {
        PlainHandlers(p, a);
      }
      if k :| 0 <= k < b.i && p.mw[k].result == Break {
        assert Between(p, Start, a, k) && Settled(p, a, k);
      }
    }
  }

  /** groupHandlerChain.Serve. The run ends, with all of this. */
  method Serve(mw: seq<Script>, hc: seq<Script>) returns (log: seq<Event>, i: nat, h: nat)
    ensures i <= |mw| && h <= |hc|
    ensures InOrder(Plan(mw, hc), log, i, h)
    ensures Complete(Plan(mw, hc), i, h)
    ensures Responded(Plan(mw, hc), log, i, h)
    ensures StopsInTime(Plan(mw, hc), i, h)
  {
    var p := Plan(mw, hc);
    var ctx := new Context(p);
    ctx.Next();
    RunEnters(p);
    RunCompletes(p);
    RunResponds(p);
    RunStops(p);
    return ctx.log, ctx.mwIdx, ctx.hIdx;
  }

  /** For instance a middleware that runs the handlers and then returns Break: the handler
      is entered and its response written. */
  lemma BreakAfterNext()
    ensures AfterNext(Plan([Script([CallNext], Break)], [Script([], Response)]), Start).log
         == [Enter(0), Enter(1), Written]
  {
    var p := Plan([Script([CallNext], Break)], [Script([], Response)]);
    var a := Enters(p, Start, 0);
    var b := a.(nextMW := false);
    assert AfterNextMiddleware(p, a) == b;
    var c := Responds(Enters(p, b, 1), 1);
    assert HandlerOf(p, b) == 1 && AfterTurn(p, b, 1) == c && AfterHandlers(p, b) == c;
    assert AfterNext(p, a) == c.(next := false);
    assert AfterActs(p, a, 0, 0) == a && AfterActs(p, a, 0, 1) == c.(next := false);
    assert AfterTurn(p, Start, 0) == c.(next := false) && AfterMiddleware(p, Start) == c.(next := false);
  }

  /** And one that runs the handlers ahead of the rest of the middleware. */
  lemma HandlersAhead()
    ensures AfterNext(Plan([Script([CallNextHandler], Nil), Script([], Nil)], [Script([], Nil)]), Start).log
         == [Enter(0), Enter(2), Enter(1)]
  {
    var p := Plan([Script([CallNextHandler], Nil), Script([], Nil)], [Script([], Nil)]);
    var a := Enters(p, Start, 0);
    var b := Enters(p, a, 2);
    assert HandlerOf(p, a) == 2 && AfterTurn(p, a, 2) == b && AfterHandlers(p, a) == b;
    assert p.Element(0) == Script([CallNextHandler], Nil);
    assert AfterAct(p, a, CallNextHandler, 0) == b.(next := false);
    assert AfterActs(p, a, 0, 0) == a && AfterActs(p, a, 0, 1) == b.(next := false);
    assert AfterTurn(p, Start, 0) == b.(next := false);
    var c := Enters(p, b.(next := false), 1);
    assert AfterTurn(p, b.(next := false), 1) == c && AfterMiddleware(p, b.(next := false)) == c;
    assert AfterMiddleware(p, Start) == c;
  }
}
