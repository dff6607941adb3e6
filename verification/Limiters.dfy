/** The pool of limiters of ratelimit.go and its background eviction. */
module Limiters {
  import opened RateLimit

  const NANOS: int := 1_000_000_000
  const CHECK_DURATION: int := 5400

  /** The eviction test of one tick. The ticker's time is in nanoseconds, the last
      action in whole seconds. */
  predicate Stale(s: State, tickNanos: int) {
    tickNanos - LastAction(s) * NANOS > CHECK_DURATION * NANOS
  }

  class Pool {
    const limits: Limits
    var m: map<string, Limiter>

    ghost function View(): map<string, State>
      reads this, m.Values
    {
      map k | k in m :: m[k].View()
    }

    constructor (limits: Limits)
      ensures View() == map[] && this.limits == limits
    {
      this.limits := limits;
      m := map[];
    }

    /** The limiter of `key`, created at `now` if there is none. */
    method Get(key: string, now: int) returns (l: Limiter)
      modifies this`m
      ensures key in m && l == m[key]
      ensures m.Keys == old(m).Keys + {key} && forall k :: k in old(m) ==> m[k] == old(m)[k]
      ensures key !in old(m) ==> fresh(l) && l.View() == Fresh(limits, now)
      ensures View() == Ensure(old(View()), limits, key, now)
    {
      if key in m {
        l := m[key];
      } else {
        l := new Limiter(limits, now);
        m := m[key := l];
      }
    }

    /** One tick of clean: deletes every limiter that has been idle too long. */
    method Clean(tickNanos: int)
      modifies this`m
      ensures View() == Evict(old(View()), tickNanos)
    {
      var keys := m.Keys;
      while keys != {}
        invariant keys <= m.Keys <= old(m).Keys
        invariant forall k :: k in m ==> m[k] == old(m[k])
        invariant forall k :: k in old(m) && k !in keys ==>
                    (k in m <==> !Stale(old(m[k].View()), tickNanos))
        decreases keys
      {
        var key :| key in keys;
        keys := keys - {key};
        var l := m[key];
        var last := l.LastActionTime();
        if tickNanos - last * NANOS > CHECK_DURATION * NANOS {
          m := m - {key};
        }
      }
    }
  }

  function Ensure(pool: map<string, State>, limits: Limits, key: string, now: int): map<string, State> {
    if key in pool then pool else pool[key := Fresh(limits, now)]
  }

  function Evict(pool: map<string, State>, tickNanos: int): map<string, State> {
    map k | k in pool && !Stale(pool[k], tickNanos) :: pool[k]
  }

  /** A tick keeps exactly the limiters whose last action is at most an hour and a half
      old, as they are. */
  lemma EvictIs(pool: map<string, State>, tickNanos: int)
    ensures forall k ::
              (k in Evict(pool, tickNanos)
               <==> k in pool && tickNanos <= (LastAction(pool[k]) + 90 * 60) * 1_000_000_000)
              && (k in Evict(pool, tickNanos) ==> Evict(pool, tickNanos)[k] == pool[k])
  {
  }

  // ---- One limiter, deleted and made anew ---------------------------------------

  /** The two limiters answer alike from now on. A window that no call can reach,
      because a wider one admits nothing, may differ, but it never counts as the
      last action. */
  predicate Alike(s: State, t: State) {
    && s.limits == t.limits
    && s.hour == t.hour
    && (if s.limits.perHour >= 1 then s.minute == t.minute
        else s.minute.start <= s.hour.start && t.minute.start <= t.hour.start)
    && (if s.limits.perHour >= 1 && s.limits.perMinute >= 1 then s.second == t.second
        else s.second.start <= Max(s.minute.start, s.hour.start)
             && t.second.start <= Max(t.minute.start, t.hour.start))
  }

  lemma AlikeStep(s: State, t: State, now: int)
    requires Alike(s, t) && s.hour.count >= 0 && s.minute.count >= 0
    requires s.minute.start <= now && s.hour.start <= now
    ensures Step(s, now).1 == Step(t, now).1
    ensures Alike(Step(s, now).0, Step(t, now).0)
    ensures LastAction(s) == LastAction(t)
  {
  }

  /** After an idle time as long as the hour window, the first call leaves the old
      limiter and a new one alike, and both answer it the same. */
  lemma IdleIsFresh(s: State, now: int)
    requires LastAction(s) + Length(Hour) <= now
    ensures Step(s, now).1 == Step(Fresh(s.limits, now), now).1
    ensures Alike(Step(s, now).0, Step(Fresh(s.limits, now), now).0)
  {
  }

  lemma {:induction false} AlikeRun(s: State, t: State, from: int, times: seq<int>)
    requires Alike(s, t) && Started(s, from) && Ordered(from, times)
    ensures Decisions(s, times) == Decisions(t, times)
    decreases times
  {
    if times != [] {
      assert s.Of(Hour).start <= from && s.Of(Minute).start <= from;
      assert s.Of(Hour).count >= 0 && s.Of(Minute).count >= 0;
      AlikeStep(s, t, times[0]);
      StepKeepsStarted(s, from, times[0]);
      AlikeRun(Step(s, times[0]).0, Step(t, times[0]).0, times[0], times[1..]);
    }
  }

  lemma AlikeSymmetric(s: State, t: State)
    requires Alike(s, t)
    ensures Alike(t, s)
  {
  }

  lemma AnswersOfIdle(s: State, times: seq<int>)
    requires times != [] && Ordered(times[0], times) && LastAction(s) + Length(Hour) <= times[0]
    ensures Decisions(s, times) == Decisions(Fresh(s.limits, times[0]), times)
  {
    var now := times[0];
    var t := Fresh(s.limits, now);
    IdleIsFresh(s, now);
    StepKeepsStarted(t, now, now);
    AlikeSymmetric(Step(s, now).0, Step(t, now).0);
    AlikeRun(Step(t, now).0, Step(s, now).0, now, times[1..]);
  }

  /** A limiter deleted at a tick is not missed: a new one, made in the second of
      its first call, gives the same answers and waits to every later run. */
  lemma EvictionUnobservable(s: State, tickNanos: int, times: seq<int>)
    requires times != [] && Stale(s, tickNanos)
    requires times[0] >= tickNanos / NANOS && Ordered(times[0], times)
    ensures Decisions(Fresh(s.limits, times[0]), times) == Decisions(s, times)
  {
    AnswersOfIdle(s, times);
  }

  // ---- The whole pool -----------------------------------------------------------

  datatype Event = Request(key: string, now: int) | CleanTick(nanos: int)

  function Seconds(e: Event): int {
    match e
    case Request(_, now) => now
    case CleanTick(nanos) => nanos / NANOS
  }

  predicate InOrder(clock: int, events: seq<Event>)
    decreases events
  {
    events == [] || (clock <= Seconds(events[0]) && InOrder(Seconds(events[0]), events[1..]))
  }

  /** What a client sees of one request: the decision and the three remainders. */
  datatype Answer = Answer(d: Decision, second: int, minute: int, hour: int)

  function Answered(next: State, d: Decision): Answer {
    Answer(d, Left(next, Second), Left(next, Minute), Left(next, Hour))
  }

  /** The answers of a run of requests and ticks; `evicting` says whether the ticks
      delete anything. */
  function Answers(pool: map<string, State>, limits: Limits, evicting: bool, events: seq<Event>): seq<Answer>
    decreases events
  {
    if events == [] then []
    else match events[0]
      case CleanTick(nanos) =>
        Answers(if evicting then Evict(pool, nanos) else pool, limits, evicting, events[1..])
      case Request(key, now) =>
        var (next, answer) := Serve(pool, limits, key, now);
        [answer] + Answers(next, limits, evicting, events[1..])
  }

  /** One request: find or make the limiter, ask it, read what it has left. */
  function Serve(pool: map<string, State>, limits: Limits, key: string, now: int): (map<string, State>, Answer) {
    var p := Ensure(pool, limits, key, now);
    var (next, d) := Step(p[key], now);
    (p[key := next], Answered(next, d))
  }

  /** Windows that no call reaches were never counted in. */
  predicate Untouched(s: State) {
    && (s.limits.perHour < 1 ==> s.minute.count == 0 && s.second.count == 0)
    && (s.limits.perMinute < 1 ==> s.second.count == 0)
  }

  /** The evicting pool `a` against the pool `b` that keeps everything: a missing
      limiter is idle, the others are alike. */
  predicate Mirrors(a: map<string, State>, b: map<string, State>, limits: Limits, clock: int) {
    a.Keys <= b.Keys && forall k :: k in b ==> MirrorsAt(a, b[k], limits, clock, k)
  }

  predicate MirrorsAt(a: map<string, State>, s: State, limits: Limits, clock: int, k: string) {
    && s.limits == limits && Started(s, clock) && Untouched(s)
    && if k in a then Alike(s, a[k]) && Untouched(a[k]) else LastAction(s) + Length(Hour) <= clock
  }

  lemma StepMirrors(b: State, a: State, clock: int, now: int)
    requires Started(b, clock) && clock <= now && Untouched(b) && Untouched(a)
    requires Alike(b, a) || (a == Fresh(b.limits, now) && LastAction(b) + Length(Hour) <= now)
    ensures var (b', d) := Step(b, now); var (a', d') := Step(a, now);
            Answered(b', d) == Answered(a', d') && Alike(b', a') && Untouched(b') && Untouched(a')
            && Started(b', now)
  {
    assert b.Of(Hour).start <= now && b.Of(Minute).start <= now;
    assert b.Of(Hour).count >= 0 && b.Of(Minute).count >= 0;
    StepKeepsStarted(b, clock, now);
    if Alike(b, a) {
      AlikeStep(b, a, now);
    } else {
      IdleIsFresh(b, now);
    }
  }

  lemma LaterMirrors(a: map<string, State>, b: map<string, State>, limits: Limits, clock: int, now: int)
    requires Mirrors(a, b, limits, clock) && clock <= now
    ensures Mirrors(a, b, limits, now)
  {
    forall k | k in b
      ensures MirrorsAt(a, b[k], limits, now, k)
    {
      assert MirrorsAt(a, b[k], limits, clock, k);
    }
  }

  lemma EvictMirrors(a: map<string, State>, b: map<string, State>, limits: Limits, nanos: int)
    requires Mirrors(a, b, limits, nanos / NANOS)
    ensures Mirrors(Evict(a, nanos), b, limits, nanos / NANOS)
  {
    forall k | k in a && Stale(a[k], nanos)
      ensures LastAction(b[k]) + Length(Hour) <= nanos / NANOS
    {
      assert MirrorsAt(a, b[k], limits, nanos / NANOS, k);
    }
  }

  lemma RequestMirrors(a: map<string, State>, b: map<string, State>, limits: Limits, key: string, now: int)
    requires Mirrors(a, b, limits, now)
    ensures Serve(a, limits, key, now).1 == Serve(b, limits, key, now).1
    ensures Mirrors(Serve(a, limits, key, now).0, Serve(b, limits, key, now).0, limits, now)
  {
    if key in b {
      assert MirrorsAt(a, b[key], limits, now, key);
    }
    StepMirrors(Ensure(b, limits, key, now)[key], Ensure(a, limits, key, now)[key], now, now);
    var a2, b2 := Serve(a, limits, key, now).0, Serve(b, limits, key, now).0;
    forall k | k in b2
      ensures MirrorsAt(a2, b2[k], limits, now, k)
    {
      assert k != key ==> MirrorsAt(a, b[k], limits, now, k);
    }
  }

  /** For every run of requests and ticks over any keys, the evicting pool answers
      every request as a pool that never deletes. A limiter is made in the second of
      the request that needs it. */
  lemma {:induction false} PoolEvictionUnobservable(
      a: map<string, State>, b: map<string, State>, limits: Limits, clock: int, events: seq<Event>)
    requires Mirrors(a, b, limits, clock) && InOrder(clock, events)
    ensures Answers(a, limits, true, events) == Answers(b, limits, false, events)
    decreases events
  {
    if events != [] {
      var now := Seconds(events[0]);
      LaterMirrors(a, b, limits, clock, now);
      match events[0] {
        case CleanTick(nanos) =>
          EvictMirrors(a, b, limits, nanos);
          PoolEvictionUnobservable(Evict(a, nanos), b, limits, now, events[1..]);
        case Request(key, _) =>
          RequestMirrors(a, b, limits, key, now);
          PoolEvictionUnobservable(
            Serve(a, limits, key, now).0, Serve(b, limits, key, now).0, limits, now, events[1..]);
      }
    }
  }

  /** In particular for a pool that starts empty. */
  lemma EmptyPoolEviction(limits: Limits, clock: int, events: seq<Event>)
    requires InOrder(clock, events)
    ensures Answers(map[], limits, true, events) == Answers(map[], limits, false, events)
  {
    PoolEvictionUnobservable(map[], map[], limits, clock, events);
  }

  // ---- When the new limiter is older than its first call --------------------------

  lemma {:induction false} HourCounts(s: State, now: int, n: nat)
    requires now - s.hour.start < Length(Hour)
    ensures var s' := After(s, Repeat(now, n));
            s'.limits == s.limits && s'.hour == Window(s.hour.count + n, s.hour.start)
    decreases n
  {
    if n > 0 {
      assert Repeat(now, n)[1..] == Repeat(now, n - 1);
      HourCounts(Step(s, now).0, now, n - 1);
    }
  }

  lemma {:induction false} DecisionsConcat(s: State, a: seq<int>, b: seq<int>)
    ensures Decisions(s, a + b) == Decisions(s, a) + Decisions(After(s, a), b)
    decreases a
  {
    if a == [] {
      assert a + b == b;
    } else {
      assert (a + b)[1..] == a[1..] + b;
      DecisionsConcat(Step(s, a[0]).0, a[1..], b);
    }
  }

  /** The same second is exactly what it takes: a new limiter made earlier than its
      first call can be told from the idle one, unless it is itself idle for an
      hour by then. The telling run calls until the hour window blocks. */
  lemma SameSecondNeeded(s: State, made: int, now: int)
    requires LastAction(s) + Length(Hour) <= now && made <= now
    ensures (forall times | times != [] && times[0] == now && Ordered(now, times) ::
               Decisions(Fresh(s.limits, made), times) == Decisions(s, times))
            <==> (made == now || made + Length(Hour) <= now)
  {
    var t := Fresh(s.limits, made);
    if made == now || made + Length(Hour) <= now {
      forall times: seq<int> | times != [] && times[0] == now && Ordered(now, times)
        ensures Decisions(t, times) == Decisions(s, times)
      {
        AnswersOfIdle(s, times);
        if made == now {
        } else {
          AnswersOfIdle(t, times);
        }
      }
    } else {
      var n := Max(0, s.limits.perHour);
      var times := Repeat(now, n + 1);
      RepeatOrdered(now, n + 1);
      LastHourWait(s, now, n);
      LastHourWait(t, now, n);
      assert Decisions(t, times)[n] != Decisions(s, times)[n];
    }
  }

  lemma {:induction false} RepeatOrdered(now: int, n: nat)
    ensures Ordered(now, Repeat(now, n))
  {
    if n > 0 {
      RepeatOrdered(now, n - 1);
      assert Repeat(now, n)[1..] == Repeat(now, n - 1);
    }
  }

  /** The hour window blocks the call after its limit, and the wait tells its start. */
  lemma LastHourWait(s: State, now: int, n: nat)
    requires n == Max(0, s.limits.perHour)
    requires s.hour.count == 0 || LastAction(s) + Length(Hour) <= now
    ensures var h := Tick(s.hour, now, Length(Hour));
            Decisions(s, Repeat(now, n + 1))[n] == Blocked(Hour, n + 1, s.limits.perHour, Length(Hour) - (now - h.start))
  {
    var s1 := Step(s, now).0;
    var times := Repeat(now, n + 1);
    if n > 0 {
      HourCounts(s1, now, n - 1);
      assert times[1..] == Repeat(now, n);
      RepeatSplit(now, n - 1);
      DecisionsConcat(s1, Repeat(now, n - 1), [now]);
      var s2 := After(s1, Repeat(now, n - 1));
      assert Decisions(s2, [now])[0] == Step(s2, now).1;
    }
  }

  lemma {:induction false} RepeatSplit(now: int, n: nat)
    ensures Repeat(now, n + 1) == Repeat(now, n) + [now]
  {
    if n > 0 {
      RepeatSplit(now, n - 1);
    }
  }
}
