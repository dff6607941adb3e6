/** The rate limiter of ratelimit.go: three nested fixed windows. Times are Unix
    seconds, waits are seconds; the clock is an argument of every call. */
module RateLimit {

  datatype Span = Hour | Minute | Second

  function Length(span: Span): nat {
    match span
    case Hour => 3600
    case Minute => 60
    case Second => 1
  }

  datatype Window = Window(count: int, start: int)

  datatype Limits = Limits(perSecond: int, perMinute: int, perHour: int) {
    function Of(span: Span): int {
      match span
      case Hour => perHour
      case Minute => perMinute
      case Second => perSecond
    }
  }

  /** What one call returns: nothing, or the numbers of the error text and the wait. */
  datatype Decision = Allowed | Blocked(span: Span, seen: int, limit: int, wait: int)

  datatype State = State(limits: Limits, hour: Window, minute: Window, second: Window) {
    function Of(span: Span): Window {
      match span
      case Hour => hour
      case Minute => minute
      case Second => second
    }
  }

  function Fresh(limits: Limits, now: int): State {
    State(limits, Window(0, now), Window(0, now), Window(0, now))
  }

  /** A call reaching a window: the window is restarted when it is over, and the
      call is counted whether or not it will be allowed. */
  function Tick(w: Window, now: int, length: nat): Window {
    if now - w.start > length - 1 then Window(1, now) else Window(w.count + 1, w.start)
  }

  function Block(w: Window, span: Span, limit: int, now: int): Decision {
    Blocked(span, w.count, limit, Length(span) - (now - w.start))
  }

  /** One call, from the widest window to the narrowest. A window that blocks keeps
      the call from the narrower ones. */
  function Step(s: State, now: int): (State, Decision) {
    var h := Tick(s.hour, now, Length(Hour));
    if h.count > s.limits.perHour then
      (s.(hour := h), Block(h, Hour, s.limits.perHour, now))
    else
      var m := Tick(s.minute, now, Length(Minute));
      if m.count > s.limits.perMinute then
        (s.(hour := h, minute := m), Block(m, Minute, s.limits.perMinute, now))
      else
        var c := Tick(s.second, now, Length(Second));
        (s.(hour := h, minute := m, second := c),
         if c.count > s.limits.perSecond then Block(c, Second, s.limits.perSecond, now) else Allowed)
  }

  function Max(a: int, b: int): int {
    if a > b then a else b
  }

  function Min(a: int, b: int): int {
    if a < b then a else b
  }

  /** The latest window start, which the source calls the last action. */
  function LastAction(s: State): int {
    Max(s.second.start, Max(s.minute.start, s.hour.start))
  }

  function Left(s: State, span: Span): int {
    Max(0, s.limits.Of(span) - s.Of(span).count)
  }

  /** Calls that all three windows still have room for. */
  function Room(s: State): int {
    Min(Left(s, Second), Min(Left(s, Minute), Left(s, Hour)))
  }

  // ---- The limiter object ----------------------------------------------------

  class Limiter {
    const maxPerSecond: int
    const maxPerMinute: int
    const maxPerHour: int
    var reqPerSecond: int
    var reqPerMinute: int
    var reqPerHour: int
    var lastSec: int
    var lastMin: int
    var lastHour: int
    var totalAllowed: nat
    var totalBlocked: nat

    ghost function View(): State
      reads this
    {
      State(Limits(maxPerSecond, maxPerMinute, maxPerHour),
            Window(reqPerHour, lastHour), Window(reqPerMinute, lastMin), Window(reqPerSecond, lastSec))
    }

    constructor (limits: Limits, now: int)
      ensures View() == Fresh(limits, now) && totalAllowed == totalBlocked == 0
      ensures maxPerSecond == limits.perSecond && maxPerMinute == limits.perMinute && maxPerHour == limits.perHour
      ensures reqPerSecond == reqPerMinute == reqPerHour == 0 && lastSec == lastMin == lastHour == now
    {
      maxPerSecond, maxPerMinute, maxPerHour := limits.perSecond, limits.perMinute, limits.perHour;
      reqPerSecond, reqPerMinute, reqPerHour := 0, 0, 0;
      lastSec, lastMin, lastHour := now, now, now;
      totalAllowed, totalBlocked := 0, 0;
    }

    method Allowed(now: int) returns (r: Decision)
      modifies this
      ensures (View(), r) == Step(old(View()), now)
      ensures totalAllowed == old(totalAllowed) + (if r == Decision.Allowed then 1 else 0)
      ensures totalBlocked == old(totalBlocked) + (if r == Decision.Allowed then 0 else 1)
    {
      r := Check(now);
      if r == Decision.Allowed {
        totalAllowed := totalAllowed + 1;
      } else {
        totalBlocked := totalBlocked + 1;
      }
    }

    /** The body of Allowed that its deferred counter update wraps. */
    method Check(now: int) returns (r: Decision)
      modifies this`reqPerSecond, this`reqPerMinute, this`reqPerHour, this`lastSec, this`lastMin, this`lastHour
      ensures (View(), r) == Step(old(View()), now)
    {
      if now - lastHour > 3599 {
        reqPerHour := 0;
        lastHour := now;
      }
      reqPerHour := reqPerHour + 1;
      if reqPerHour > maxPerHour {
        return Blocked(Hour, reqPerHour, maxPerHour, 3600 - (now - lastHour));
      }

      if now - lastMin > 59 {
        reqPerMinute := 0;
        lastMin := now;
      }
      reqPerMinute := reqPerMinute + 1;
      if reqPerMinute > maxPerMinute {
        return Blocked(Minute, reqPerMinute, maxPerMinute, 60 - (now - lastMin));
      }

      if now - lastSec > 0 {
        lastSec := now;
        reqPerSecond := 0;
      }
      reqPerSecond := reqPerSecond + 1;
      if reqPerSecond > maxPerSecond {
        return Blocked(Second, reqPerSecond, maxPerSecond, 1 - (now - lastSec));
      }
      return Decision.Allowed;
    }

    method LastActionTime() returns (t: int)
      ensures t == LastAction(View())
      ensures forall span: Span :: View().Of(span).start <= t
      ensures exists span: Span :: View().Of(span).start == t
    {
      t := Max(lastSec, Max(lastMin, lastHour));
      assert t == View().Of(Second).start || t == View().Of(Minute).start || t == View().Of(Hour).start;
    }

    method RequestsLeft() returns (perSecond: int, perMinute: int, perHour: int)
      ensures perSecond == Left(View(), Second)
      ensures perMinute == Left(View(), Minute)
      ensures perHour == Left(View(), Hour)
      ensures perSecond >= 0 && (perSecond == 0 <==> reqPerSecond >= maxPerSecond)
      ensures perMinute >= 0 && (perMinute == 0 <==> reqPerMinute >= maxPerMinute)
      ensures perHour >= 0 && (perHour == 0 <==> reqPerHour >= maxPerHour)
    {
      perHour := Max(0, maxPerHour - reqPerHour);
      perMinute := Max(0, maxPerMinute - reqPerMinute);
      perSecond := Max(0, maxPerSecond - reqPerSecond);
    }
  }

  // ---- Runs --------------------------------------------------------------------

  function After(s: State, times: seq<int>): State
    decreases times
  {
    if times == [] then s else After(Step(s, times[0]).0, times[1..])
  }

  function Decisions(s: State, times: seq<int>): (ds: seq<Decision>)
    ensures |ds| == |times|
    decreases times
  {
    if times == [] then [] else [Step(s, times[0]).1] + Decisions(Step(s, times[0]).0, times[1..])
  }

  /** `times` is a nondecreasing run that starts no earlier than `from`. */
  predicate Ordered(from: int, times: seq<int>)
    decreases times
  {
    times == [] || (from <= times[0] && Ordered(times[0], times[1..]))
  }

  /** Allowed calls of a run whose time is in `a .. a + length - 1`. */
  function AllowedWithin(s: State, times: seq<int>, a: int, length: nat): nat
    decreases times
  {
    if times == [] then 0
    else
      var (next, d) := Step(s, times[0]);
      (if d == Allowed && a <= times[0] < a + length then 1 else 0)
        + AllowedWithin(next, times[1..], a, length)
  }

  /** Windows have started by `now` and have not counted below zero. */
  predicate Started(s: State, now: int) {
    forall span: Span :: s.Of(span).start <= now && s.Of(span).count >= 0
  }

  lemma StepKeepsStarted(s: State, from: int, now: int)
    requires Started(s, from) && from <= now
    ensures Started(Step(s, now).0, now)
  {
    assert s.Of(Hour).start <= now && s.Of(Minute).start <= now && s.Of(Second).start <= now;
    assert s.Of(Hour).count >= 0 && s.Of(Minute).count >= 0 && s.Of(Second).count >= 0;
  }

  /** What a call does to one window: it leaves it alone and is blocked elsewhere,
      or ticks it, and is allowed only within the window's limit. */
  lemma StepOnWindow(s: State, now: int, span: Span)
    ensures var (next, d) := Step(s, now);
            && next.limits == s.limits
            && (next.Of(span) == s.Of(span) || next.Of(span) == Tick(s.Of(span), now, Length(span)))
            && (d == Allowed ==> next.Of(span) == Tick(s.Of(span), now, Length(span))
                                 && next.Of(span).count <= s.limits.Of(span))
  {
  }

  // ---- How many calls get through ------------------------------------------------

  /** How many calls a window can still let through in `a .. a + length - 1`, from
      the time `now` on. */
  function Budget(w: Window, now: int, limit: int, a: int, length: nat): int {
    var left := Max(0, limit - w.count);
    if now < a then 2 * limit
    else if w.start < a then limit + left
    else if w.start < a + length then left
    else 0
  }

  lemma {:induction false} WithinBudget(s: State, from: int, times: seq<int>, span: Span, a: int)
    requires Started(s, from) && Ordered(from, times) && s.limits.Of(span) >= 0
    ensures AllowedWithin(s, times, a, Length(span))
         <= Budget(s.Of(span), from, s.limits.Of(span), a, Length(span))
    decreases times
  {
    assert s.Of(span).start <= from && s.Of(span).count >= 0;
    if times != [] {
      var now := times[0];
      StepKeepsStarted(s, from, now);
      StepOnWindow(s, now, span);
      WithinBudget(Step(s, now).0, now, times[1..], span, a);
    }
  }

  /** From any run of a new limiter: at most twice a window's limit in any stretch
      of the window's length. */
  lemma TwiceTheLimit(limits: Limits, created: int, times: seq<int>, span: Span, a: int)
    requires Ordered(created, times) && limits.Of(span) >= 0
    ensures AllowedWithin(Fresh(limits, created), times, a, Length(span)) <= 2 * limits.Of(span)
  {
    WithinBudget(Fresh(limits, created), created, times, span, a);
  }

  /** Twice is reached: two windows meet inside the stretch. */
  lemma TwiceIsReached()
    ensures AllowedWithin(Fresh(Limits(1, 1, 5), 0), [59, 60], 59, Length(Minute)) == 2
    ensures Ordered(0, [59, 60])
  {
    var s := Fresh(Limits(1, 1, 5), 0);
    var s1 := Step(s, 59).0;
    assert [59, 60][1..] == [60] && [60][1..] == [];
    assert Step(s, 59).1 == Allowed && Step(s1, 60).1 == Allowed;
    assert AllowedWithin(s1, [60], 59, 60) == 1 + AllowedWithin(Step(s1, 60).0, [], 59, 60);
  }

  lemma {:induction false} WithinSecond(s: State, from: int, times: seq<int>, a: int)
    requires Started(s, from) && Ordered(from, times) && s.limits.perSecond >= 0
    ensures AllowedWithin(s, times, a, 1)
         <= if from > a then 0
            else if s.second.start < a then s.limits.perSecond
            else Max(0, s.limits.perSecond - s.second.count)
    decreases times
  {
    assert s.Of(Second).start <= from && s.Of(Second).count >= 0;
    if times != [] {
      var now := times[0];
      StepKeepsStarted(s, from, now);
      StepOnWindow(s, now, Second);
      WithinSecond(Step(s, now).0, now, times[1..], a);
    }
  }

  /** In one clock second the limit itself holds. */
  lemma OncePerSecond(limits: Limits, created: int, times: seq<int>, a: int)
    requires Ordered(created, times) && limits.perSecond >= 0
    ensures AllowedWithin(Fresh(limits, created), times, a, 1) <= limits.perSecond
  {
    WithinSecond(Fresh(limits, created), created, times, a);
  }

  // ---- What a call does to each window -----------------------------------------------

  predicate Wider(x: Span, y: Span) {
    Length(x) > Length(y)
  }

  /** What a window shows after counting a call: one more while it lasts, and one at the
      start of a new one. */
  function Counting(w: Window, now: int, span: Span): Window {
    if now < w.start + Length(span) then Window(w.count + 1, w.start) else Window(1, now)
  }

  predicate Full(s: State, now: int, span: Span) {
    Counting(s.Of(span), now, span).count > s.limits.Of(span)
  }

  /** No wider window stops the call before this one. */
  predicate Reaches(s: State, now: int, span: Span) {
    forall w: Span :: Wider(w, span) ==> !Full(s, now, w)
  }

  /** All that one call does: it is counted in exactly the windows that it reaches; it is
      allowed exactly when no window is over its limit; and otherwise it is blocked by the
      widest one that is, with that window's numbers and the time until its end. */
  lemma StepIs(s: State, now: int)
    ensures var (next, d) := Step(s, now);
            && next.limits == s.limits
            && Length(Hour) == 60 * Length(Minute) && Length(Minute) == 60 * Length(Second) && Length(Second) == 1
            && (forall span: Span :: next.Of(span) == if Reaches(s, now, span) then Counting(s.Of(span), now, span) else s.Of(span))
            && (d == Allowed <==> forall span: Span :: !Full(s, now, span))
            && (d.Blocked? ==>
                  var w := Counting(s.Of(d.span), now, d.span);
                  && Reaches(s, now, d.span) && Full(s, now, d.span)
                  && d == Blocked(d.span, w.count, s.limits.Of(d.span), w.start + Length(d.span) - now))
  {
    var h, m, c := Full(s, now, Hour), Full(s, now, Minute), Full(s, now, Second);
    assert Step(s, now).1 == Allowed <==> !h && !m && !c;
    assert Reaches(s, now, Hour);
    assert Reaches(s, now, Minute) <==> !h;
    assert Wider(Hour, Second) && Wider(Minute, Second);
    assert Reaches(s, now, Second) <==> !h && !m;
    if Step(s, now).1 == Allowed {
      forall span: Span
        ensures !Full(s, now, span)
      {
        match span
        case Hour =>
        case Minute =>
        case Second =>
      }
    }
  }

  /** A block stops at the window that blocks: that one and the wider ones have counted the
      call, and the narrower ones are as they were. */
  lemma BlockStopsThere(s: State, now: int, span: Span)
    requires Step(s, now).1.Blocked?
    ensures var (next, d) := Step(s, now);
            next.Of(span) == if Wider(d.span, span) then s.Of(span) else Counting(s.Of(span), now, span)
  {
    var d := Step(s, now).1;
    StepIs(s, now);
    if Wider(d.span, span) {
      assert !Reaches(s, now, span);
    } else {
      assert forall w: Span :: Wider(w, span) ==> Wider(w, d.span);
    }
  }

  /** The calls of a run that reach a window. */
  function Reaching(s: State, times: seq<int>, span: Span): seq<int>
    decreases times
  {
    if times == [] then []
    else (if Reaches(s, times[0], span) then [times[0]] else []) + Reaching(Step(s, times[0]).0, times[1..], span)
  }

  /** A window on its own. */
  function Replay(w: Window, times: seq<int>, span: Span): Window
    decreases times
  {
    if times == [] then w else Replay(Counting(w, times[0], span), times[1..], span)
  }

  /** Over any run, a window is what the calls that reach it make of it. So calls that a
      wider window stops do not change what it decides later. */
  lemma {:induction false} WindowsSeeWhatReachesThem(s: State, times: seq<int>, span: Span)
    ensures After(s, times).limits == s.limits
    ensures After(s, times).Of(span) == Replay(s.Of(span), Reaching(s, times, span), span)
    decreases times
  {
    if times != [] {
      var next := Step(s, times[0]).0;
      var more := Reaching(next, times[1..], span);
      StepIs(s, times[0]);
      WindowsSeeWhatReachesThem(next, times[1..], span);
      if Reaches(s, times[0], span) {
        assert ([times[0]] + more)[1..] == more;
      } else {
        assert Reaching(s, times, span) == more;
      }
    }
  }

  // ---- The returned wait -----------------------------------------------------------

  /** A window over its limit that is not over yet blocks every call, whatever
      order the calls come in, and is not restarted. */
  lemma {:induction false} BlockedUntil(s: State, span: Span, times: seq<int>)
    requires s.Of(span).count > s.limits.Of(span)
    requires forall i :: 0 <= i < |times| ==> times[i] < s.Of(span).start + Length(span)
    ensures forall i :: 0 <= i < |times| ==> Decisions(s, times)[i].Blocked?
    ensures After(s, times).limits == s.limits
    ensures After(s, times).Of(span).start == s.Of(span).start
    decreases times
  {
    if times != [] {
      var next := Step(s, times[0]).0;
      StepOnWindow(s, times[0], span);
      BlockedUntil(next, span, times[1..]);
      assert Decisions(s, times) == [Step(s, times[0]).1] + Decisions(next, times[1..]);
    }
  }

  /** The wait of a blocked call is exact. It is positive; every call before it has
      passed is blocked; and the first call after that is blocked by the same window
      exactly when that window admits no call at all, unless a wider one stops it. */
  lemma WaitIsExact(s: State, now: int, between: seq<int>, later: int)
    requires Step(s, now).1.Blocked?
    requires var d := Step(s, now).1;
             (forall i :: 0 <= i < |between| ==> between[i] < now + d.wait) && later >= now + d.wait
    ensures var (s1, d) := Step(s, now);
            && d.wait > 0
            && (forall i :: 0 <= i < |between| ==> Decisions(s1, between)[i].Blocked?)
            && var next := Step(After(s1, between), later).1;
               (next.Blocked? && Wider(next.span, d.span))
               || ((next.Blocked? && next.span == d.span) <==> s.limits.Of(d.span) < 1)
  {
    var (s1, d) := Step(s, now);
    BlockedUntil(s1, d.span, between);
    var s2 := After(s1, between);
    assert later - s2.Of(d.span).start > Length(d.span) - 1;
    match d.span
    case Hour =>
    case Minute =>
    case Second =>
  }

  // ---- The reported remainder --------------------------------------------------------

  /** Every window that a call at `now` would reach is running at `now`. */
  predicate Settled(s: State, now: int) {
    && now - s.hour.start < Length(Hour)
    && (s.hour.count <= s.limits.perHour ==>
          now - s.minute.start < Length(Minute)
          && (s.minute.count <= s.limits.perMinute ==> now - s.second.start < Length(Second)))
  }

  lemma SettledStep(s: State, now: int)
    requires Settled(s, now)
    ensures Settled(Step(s, now).0, now)
    ensures Step(s, now).1 == Allowed <==> Room(s) > 0
    ensures Room(Step(s, now).0) == Max(0, Room(s) - 1)
  {
  }

  function Repeat(now: int, n: nat): (times: seq<int>)
    ensures |times| == n
  {
    if n == 0 then [] else [now] + Repeat(now, n - 1)
  }

  /** Exactly the first `k` of the calls were allowed. */
  predicate FirstAllowed(ds: seq<Decision>, k: int) {
    forall i :: 0 <= i < |ds| ==> (ds[i] == Allowed <==> i < k)
  }

  lemma {:induction false} RoomCountsDown(s: State, now: int, n: nat)
    requires Settled(s, now)
    ensures FirstAllowed(Decisions(s, Repeat(now, n)), Room(s))
    decreases n
  {
    if n > 0 {
      var next := Step(s, now).0;
      SettledStep(s, now);
      RoomCountsDown(next, now, n - 1);
      assert Repeat(now, n)[1..] == Repeat(now, n - 1);
    }
  }

  /** After any call, what RequestsLeft reports is exact at that same time: the
      least of the three numbers is how many more calls are allowed, and they are
      the first ones. */
  lemma RemainderIsExact(s: State, now: int, n: nat)
    ensures var s1 := Step(s, now).0;
            FirstAllowed(Decisions(s1, Repeat(now, n)), Room(s1))
  {
    RoomCountsDown(Step(s, now).0, now, n);
  }
}
