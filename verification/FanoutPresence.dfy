/** Which ids are in the router's table while connections come and go: exactly when a
    stream with clients is left out of it, and why none stays in it without any. */
module FanoutPresence {
  import opened Fanout

  // ---- Streams that are left out of the table --------------------------------------------

  /** Every stream that has clients is in the table. */
  predicate NoOrphan(s: State) {
    forall m :: m in s.streams && s.streams[m].clients != {} ==> Present(s, m)
  }

  predicate Present(s: State, m: StreamId)
    requires m in s.streams
  {
    s.streams[m].id in s.mss && s.mss[s.streams[m].id] == m
  }

  /** The two steps that leave one out: a client is added to a stream that has been closed
      since it was found; or a client that was the last of a stream closes the stream that
      now has its id, which has clients. */
  predicate Orphans(s: State, step: Step) {
    match step
    case Add(c) => c in s.clients && s.clients[c].ms in s.streams && !s.streams[s.clients[c].ms].open
    case CloseIfEmpty(c) =>
      c in s.clients && s.clients[c].id in s.mss && s.mss[s.clients[c].id] in s.streams
      && s.streams[s.mss[s.clients[c].id]].clients != {}
    case _ => false
  }

  lemma PresentIsOpen(s: State, m: StreamId)
    requires Inv(s) && m in s.streams
    ensures Present(s, m) <==> s.streams[m].open
  {
    assert StreamOk(s, m);
  }

  /** Whether the step closes the stream. */
  predicate Closes(s: State, step: Step, m: StreamId) {
    step.CloseIfEmpty? && step.c in s.clients && s.clients[step.c].id in s.mss && s.mss[s.clients[step.c].id] == m
  }

  /** Only a client of its own is added to a stream or removed, and only closing it closes
      it. */
  lemma StepOnStream(s: State, step: Step, m: StreamId)
    requires Enabled(s, step) && !Apply(s, step).panicked && m in s.streams
    ensures var s' := Apply(s, step);
            && m in s'.streams
            && s'.streams[m].open == (s.streams[m].open && !Closes(s, step, m))
            && s'.streams[m].clients
               == if step.Add? && s.clients[step.c].ms == m then s.streams[m].clients + {step.c}
                  else if step.Remove? && s.clients[step.c].ms == m then s.streams[m].clients - {step.c}
                  else s.streams[m].clients
  {
  }

  lemma SparesAt(s: State, step: Step, m: StreamId)
    requires Inv(s) && NoOrphan(s) && Enabled(s, step) && !Orphans(s, step)
    requires m in Apply(s, step).streams && Apply(s, step).streams[m].clients != {}
    ensures Apply(s, step).streams[m].open
  {
    if m in s.streams {
      PresentIsOpen(s, m);
      StepKeeps(s, step);
      StepOnStream(s, step, m);
      assert step.Remove? ==> s.streams[m].clients != {};
    }
  }

  lemma OrphansAt(s: State, step: Step) returns (m: StreamId)
    requires Inv(s) && Enabled(s, step) && Orphans(s, step)
    ensures var s' := Apply(s, step); m in s'.streams && s'.streams[m].clients != {} && !s'.streams[m].open
  {
    match step
    case Add(c) => m := s.clients[c].ms;
    case CloseIfEmpty(c) =>
      m := s.mss[s.clients[c].id];
      assert StreamOk(s, m);
  }

  /** Nothing else does. */
  lemma StepOrphans(s: State, step: Step)
    requires Inv(s) && NoOrphan(s) && Enabled(s, step)
    ensures NoOrphan(Apply(s, step)) <==> !Orphans(s, step)
  {
    var s' := Apply(s, step);
    StepKeeps(s, step);
    if Orphans(s, step) {
      var m := OrphansAt(s, step);
      PresentIsOpen(s', m);
    } else {
      forall m | m in s'.streams && s'.streams[m].clients != {}
        ensures Present(s', m)
      {
        SparesAt(s, step, m);
        PresentIsOpen(s', m);
      }
    }
  }

  /** Every state of the run has its streams with clients in the table. */
  predicate AllSpared(s: State, steps: seq<Step>)
    requires Runs(s, steps)
    decreases steps
  {
    NoOrphan(s) && (|steps| == 0 || AllSpared(Apply(s, steps[0]), steps[1..]))
  }

  /** No step of the run is one of the two. */
  predicate NoneOrphans(s: State, steps: seq<Step>)
    requires Runs(s, steps)
    decreases steps
  {
    |steps| == 0 || (!Orphans(s, steps[0]) && NoneOrphans(Apply(s, steps[0]), steps[1..]))
  }

  lemma {:induction false} RunOrphans(s: State, steps: seq<Step>)
    requires Inv(s) && NoOrphan(s) && Runs(s, steps)
    ensures AllSpared(s, steps) <==> NoneOrphans(s, steps)
    ensures NoneOrphans(s, steps) ==> NoOrphan(Run(s, steps))
    decreases steps
  {
    if |steps| > 0 {
      StepOrphans(s, steps[0]);
      StepKeeps(s, steps[0]);
      if !Orphans(s, steps[0]) {
        RunOrphans(Apply(s, steps[0]), steps[1..]);
      } else if |steps| > 1 {
        assert !NoOrphan(Apply(s, steps[0]));
      }
    }
  }

  // ---- Streams that stay in it -------------------------------------------------------------------

  /** A connection that will be in the stream, or will close it. */
  predicate Attends(s: State, c: ClientId, m: StreamId) {
    c in s.clients && s.clients[c].ms == m && (s.clients[c].phase == Joining || s.clients[c].phase == Closing)
  }

  ghost predicate AttendedAt(s: State, m: StreamId)
    requires m in s.streams
  {
    Present(s, m) && s.streams[m].clients == {} ==> exists c :: Attends(s, c, m)
  }

  /** A stream in the table without clients has somebody attending to it. */
  ghost predicate Attended(s: State) {
    forall m :: m in s.streams ==> AttendedAt(s, m)
  }

  lemma StepAttends(s: State, step: Step, m: StreamId)
    requires Inv(s) && Attended(s) && Enabled(s, step) && m in Apply(s, step).streams
    ensures AttendedAt(Apply(s, step), m)
  {
    var s' := Apply(s, step);
    StepKeeps(s, step);
    PresentIsOpen(s', m);
    if s'.streams[m].open && s'.streams[m].clients == {} {
      if m !in s.streams {
        NewStream(s, step, m);
      } else {
        StepOnStream(s, step, m);
        PresentIsOpen(s, m);
        if s.streams[m].clients == {} {
          assert AttendedAt(s, m);
          var c :| Attends(s, c, m);
          PresentId(s, m, c);
          AttendantStays(s, step, m, c);
        } else {
          LastOneAttends(s, step, m);
        }
      }
    }
  }

  lemma NewStream(s: State, step: Step, m: StreamId)
    requires Enabled(s, step) && m !in s.streams && m in Apply(s, step).streams
    ensures step.GetOrMake? && Attends(Apply(s, step), step.c, m)
  {
  }

  lemma LastOneAttends(s: State, step: Step, m: StreamId)
    requires Enabled(s, step) && m in s.streams && s.streams[m].clients != {}
    requires var s' := Apply(s, step); !s'.panicked && m in s'.streams && s'.streams[m].clients == {}
    ensures step.Remove? && Attends(Apply(s, step), step.c, m)
  {
    StepOnStream(s, step, m);
  }

  lemma PresentId(s: State, m: StreamId, c: ClientId)
    requires Inv(s) && m in s.streams && Present(s, m) && c in s.clients && s.clients[c].ms == m
    ensures s.clients[c].id in s.mss && s.mss[s.clients[c].id] == m
  {
    assert ClientOk(s, c);
  }

  /** Whoever attends to a stream does so until it has clients or is closed. */
  lemma AttendantStays(s: State, step: Step, m: StreamId, c: ClientId)
    requires Enabled(s, step) && !Apply(s, step).panicked && Attends(s, c, m)
    requires s.clients[c].id in s.mss && s.mss[s.clients[c].id] == m
    requires step != Add(c) && !Closes(s, step, m)
    ensures Attends(Apply(s, step), c, m)
  {
  }

  lemma {:induction false} RunAttends(s: State, steps: seq<Step>)
    requires Inv(s) && Attended(s) && Runs(s, steps)
    ensures Attended(Run(s, steps))
    decreases steps
  {
    if |steps| > 0 {
      forall m | m in Apply(s, steps[0]).streams
        ensures AttendedAt(Apply(s, steps[0]), m)
      {
        StepAttends(s, steps[0], m);
      }
      StepKeeps(s, steps[0]);
      RunAttends(Apply(s, steps[0]), steps[1..]);
    }
  }

  /** In every interleaving: streams with clients are in the table throughout if and only
      if no step leaves one out, and an id in the table whose stream has no clients always
      has a connection that will join or close it. */
  lemma PresenceExactly(steps: seq<Step>)
    requires Runs(Initial, steps)
    ensures AllSpared(Initial, steps) <==> NoneOrphans(Initial, steps)
    ensures Attended(Run(Initial, steps))
  {
    RunOrphans(Initial, steps);
    RunAttends(Initial, steps);
  }

  /** So after a run without such a step, while nobody is on the way in or out, an id is in
      the table exactly when a stream of that id has clients. */
  lemma PresentWhenSettled(steps: seq<Step>, id: string)
    requires Runs(Initial, steps) && NoneOrphans(Initial, steps)
    requires var s := Run(Initial, steps); forall c, m :: !Attends(s, c, m)
    ensures var s := Run(Initial, steps);
            id in s.mss <==> exists m :: m in s.streams && s.streams[m].id == id && s.streams[m].clients != {}
  {
    var s := Run(Initial, steps);
    RunKeeps(Initial, steps);
    RunOrphans(Initial, steps);
    RunAttends(Initial, steps);
    if id in s.mss {
      var m := s.mss[id];
      assert AttendedAt(s, m);
    }
    if m :| m in s.streams && s.streams[m].id == id && s.streams[m].clients != {} {
      assert Present(s, m);
    }
  }

  // ---- Connections that come and go uninterrupted ---------------------------------------------------

  /** A connection that comes or goes without interruption, or any other step. */
  datatype Macro =
    | Connect(c: ClientId, id: string, cap: nat, made: StreamId)
    | Disconnect(c: ClientId)
    | Other(step: Step)

  predicate Plain(step: Step) {
    !step.GetOrMake? && !step.Add? && !step.Remove? && !step.CloseIfEmpty?
  }

  function Expand(s: State, macro: Macro): seq<Step> {
    match macro
    case Connect(c, id, cap, made) => [GetOrMake(c, id, cap, made), Add(c)]
    case Disconnect(c) =>
      if c in s.clients && s.clients[c].ms in s.streams && s.streams[s.clients[c].ms].clients - {c} == {}
      then [Remove(c), CloseIfEmpty(c)] else [Remove(c)]
    case Other(step) => [step]
  }

  predicate Whole(s: State, macro: Macro) {
    Runs(s, Expand(s, macro)) && (macro.Other? ==> Plain(macro.step))
  }

  /** A stream is open exactly while it has clients. */
  predicate Peopled(s: State) {
    forall m :: m in s.streams ==> (s.streams[m].open <==> s.streams[m].clients != {})
  }

  predicate MacroRuns(s: State, macros: seq<Macro>)
    decreases macros
  {
    |macros| == 0
    || (Whole(s, macros[0]) && MacroRuns(Run(s, Expand(s, macros[0])), macros[1..]))
  }

  function MacroRun(s: State, macros: seq<Macro>): State
    requires MacroRuns(s, macros)
    decreases macros
  {
    if |macros| == 0 then s else MacroRun(Run(s, Expand(s, macros[0])), macros[1..])
  }

  lemma RunOne(s: State, a: Step)
    requires Runs(s, [a])
    ensures Enabled(s, a) && Run(s, [a]) == Apply(s, a)
  {
    assert [a][1..] == [];
    assert Run(Apply(s, a), []) == Apply(s, a);
  }

  lemma RunTwo(s: State, a: Step, b: Step)
    requires Runs(s, [a, b])
    ensures Enabled(s, a) && Enabled(Apply(s, a), b) && Run(s, [a, b]) == Apply(Apply(s, a), b)
  {
    assert [a, b][1..] == [b];
    RunOne(Apply(s, a), b);
  }

  lemma MacroKeeps(s: State, macro: Macro)
    requires Inv(s) && Peopled(s) && Whole(s, macro)
    ensures Inv(Run(s, Expand(s, macro))) && Peopled(Run(s, Expand(s, macro)))
  {
    RunKeeps(s, Expand(s, macro));
    match macro
    case Connect(c, id, cap, made) => ConnectKeeps(s, c, id, cap, made);
    case Disconnect(c) => DisconnectKeeps(s, c);
    case Other(step) => RunOne(s, step); PlainKeeps(s, step);
  }

  lemma PlainKeeps(s: State, step: Step)
    requires Inv(s) && Peopled(s) && Enabled(s, step) && Plain(step)
    ensures Peopled(Apply(s, step))
  {
    forall m | m in Apply(s, step).streams
      ensures Apply(s, step).streams[m].open <==> Apply(s, step).streams[m].clients != {}
    {
      PlainAt(s, step, m);
    }
  }

  lemma PlainAt(s: State, step: Step, m: StreamId)
    requires Enabled(s, step) && Plain(step) && m in Apply(s, step).streams
    ensures m in s.streams
    ensures Apply(s, step).streams[m].open == s.streams[m].open
    ensures Apply(s, step).streams[m].clients == s.streams[m].clients
  {
  }

  lemma ConnectKeeps(s: State, c: ClientId, id: string, cap: nat, made: StreamId)
    requires Inv(s) && Peopled(s) && Whole(s, Connect(c, id, cap, made))
    ensures Peopled(Run(s, Expand(s, Connect(c, id, cap, made))))
  {
    RunTwo(s, GetOrMake(c, id, cap, made), Add(c));
    assert id in s.mss ==> StreamOk(s, s.mss[id]);
  }

  lemma DisconnectKeeps(s: State, c: ClientId)
    requires Inv(s) && Peopled(s) && Whole(s, Disconnect(c))
    ensures Peopled(Run(s, Expand(s, Disconnect(c))))
  {
    if Expand(s, Disconnect(c)) == [Remove(c)] {
      RunOne(s, Remove(c));
      assert ClientOk(s, c);
    } else {
      RunTwo(s, Remove(c), CloseIfEmpty(c));
      assert ClientOk(s, c) && StreamOk(s, s.clients[c].ms);
    }
  }

  lemma {:induction false} MacrosKeep(s: State, macros: seq<Macro>)
    requires Inv(s) && Peopled(s) && MacroRuns(s, macros)
    ensures Inv(MacroRun(s, macros)) && Peopled(MacroRun(s, macros))
    decreases macros
  {
    if |macros| > 0 {
      MacroKeeps(s, macros[0]);
      MacrosKeep(Run(s, Expand(s, macros[0])), macros[1..]);
    }
  }

  /** If connections come and go without interruption, an id is in the table exactly
      when a stream of that id has clients. */
  lemma PresentIffClients(macros: seq<Macro>, id: string)
    requires MacroRuns(Initial, macros)
    ensures var s := MacroRun(Initial, macros);
            id in s.mss <==> exists m :: m in s.streams && s.streams[m].id == id && s.streams[m].clients != {}
  {
    MacrosKeep(Initial, macros);
    var s := MacroRun(Initial, macros);
    if id in s.mss {
      assert StreamOk(s, s.mss[id]);
    }
    if m :| m in s.streams && s.streams[m].id == id && s.streams[m].clients != {} {
      assert StreamOk(s, m);
    }
  }

  /** With interruption it fails: a client that has its stream, but is added only after
      the last other client has gone, stays in a stream that is no longer in the table. */
  lemma LateClientIsOrphaned()
    ensures var steps := [GetOrMake(0, "a", 1, 0), Add(0), GetOrMake(1, "a", 1, 1), Cancel(0), Remove(0), CloseIfEmpty(0), Add(1)];
            Runs(Initial, steps)
            && var s := Run(Initial, steps);
               "a" !in s.mss && 0 in s.streams && 1 in s.streams[0].clients && !s.streams[0].open
  {
    var rest := [Remove(0), CloseIfEmpty(0), Add(1)];
    BeforeRemove();
    AfterRemove(Run(Initial, FirstLeaver));
    RunConcat(Initial, FirstLeaver, rest);
    assert FirstLeaver + rest
        == [GetOrMake(0, "a", 1, 0), Add(0), GetOrMake(1, "a", 1, 1), Cancel(0), Remove(0), CloseIfEmpty(0), Add(1)];
  }

  /** One client is about to leave the stream that another one has, but is not in. */
  predicate LastIsLeaving(s: State) {
    && s.mss == map["a" := 0] && s.senders == map[] && !s.panicked
    && s.streams == map[0 := Stream("a", {0}, true, Waiting, [])]
    && s.clients == map[0 := Client(0, "a", Leaving, 1, [], true, [], 0, 0, 0),
                        1 := Client(0, "a", Joining, 1, [], true, [], 0, 0, 0)]
  }

  const FirstLeaver: seq<Step> := [GetOrMake(0, "a", 1, 0), Add(0), GetOrMake(1, "a", 1, 1), Cancel(0)]
  const BothLeave: seq<Step> := [Remove(0), Add(1), Cancel(1), Remove(1)]
  const NewcomerLoses: seq<Step> := [CloseIfEmpty(0), GetOrMake(2, "a", 1, 1), Add(2), CloseIfEmpty(1)]

  lemma BeforeRemove()
    ensures Runs(Initial, FirstLeaver) && LastIsLeaving(Run(Initial, FirstLeaver))
  {
    var s1 := Apply(Initial, GetOrMake(0, "a", 1, 0));
    var s2 := Apply(s1, Add(0));
    var s3 := Apply(s2, GetOrMake(1, "a", 1, 1));
    RunsEnd(s3, Cancel(0), []);
    RunsEnd(s2, GetOrMake(1, "a", 1, 1), [Cancel(0)]);
    RunsEnd(s1, Add(0), [GetOrMake(1, "a", 1, 1), Cancel(0)]);
    RunsEnd(Initial, GetOrMake(0, "a", 1, 0), [Add(0), GetOrMake(1, "a", 1, 1), Cancel(0)]);
    assert s2.streams[0].clients == {} + {0} == {0};
    assert FirstLeaver == [GetOrMake(0, "a", 1, 0)] + [Add(0), GetOrMake(1, "a", 1, 1), Cancel(0)];
  }

  lemma AfterRemove(s: State)
    requires LastIsLeaving(s)
    ensures var rest := [Remove(0), CloseIfEmpty(0), Add(1)];
            Runs(s, rest)
            && var t := Run(s, rest);
               "a" !in t.mss && 0 in t.streams && 1 in t.streams[0].clients && !t.streams[0].open
  {
    var s5 := Apply(s, Remove(0));
    assert s5.clients[0].phase == Closing;
    var s6 := Apply(s5, CloseIfEmpty(0));
    RunsEnd(s6, Add(1), []);
    RunsEnd(s5, CloseIfEmpty(0), [Add(1)]);
    RunsEnd(s, Remove(0), [CloseIfEmpty(0), Add(1)]);
  }

  lemma RunsEnd(s: State, step: Step, more: seq<Step>)
    requires Enabled(s, step) && Runs(Apply(s, step), more)
    ensures Runs(s, [step] + more) && Run(s, [step] + more) == Run(Apply(s, step), more)
  {
    assert ([step] + more)[1..] == more;
  }

  /** A second way: the last client of an old stream, and the last one of the same stream
      again, both close what the table has for the id. The second of them closes a new
      stream whose only client joined without interruption. */
  lemma NewStreamIsOrphaned()
    ensures var steps := FirstLeaver + BothLeave + NewcomerLoses;
            Runs(Initial, steps)
            && var s := Run(Initial, steps);
               "a" !in s.mss && 1 in s.streams && 2 in s.streams[1].clients && !s.streams[1].open
  {
    BeforeRemove();
    var s1 := Run(Initial, FirstLeaver);
    BothAreClosing(s1);
    var s2 := Run(s1, BothLeave);
    NewcomerIsCut(s2);
    RunConcat(Initial, FirstLeaver, BothLeave);
    RunConcat(Initial, FirstLeaver + BothLeave, NewcomerLoses);
  }

  /** The stream's first client has been its last one; the other one is in it now. */
  predicate OneCloser(s: State) {
    && s.mss == map["a" := 0] && s.senders == map[] && !s.panicked
    && s.streams == map[0 := Stream("a", {1}, true, Waiting, [])]
    && s.clients.Keys == {0, 1}
    && s.clients[0].phase == Closing && s.clients[0].id == "a"
    && s.clients[1] == Client(0, "a", Selecting, 1, [], true, [], 0, 0, 0)
  }

  /** Both clients of the stream have been its last one. */
  predicate TwoClosers(s: State) {
    && s.mss == map["a" := 0] && s.senders == map[] && !s.panicked
    && s.streams == map[0 := Stream("a", {}, true, Waiting, [])]
    && s.clients.Keys == {0, 1}
    && s.clients[0].phase == Closing && s.clients[0].id == "a"
    && s.clients[1].phase == Closing && s.clients[1].id == "a"
  }

  /** The table's stream is a new one, with a client, and an old client will close it. */
  predicate NewcomerIn(s: State) {
    && s.mss == map["a" := 1] && s.senders == map[] && !s.panicked
    && s.streams.Keys == {0, 1} && s.streams[1] == Stream("a", {2}, true, Waiting, [])
    && s.clients.Keys == {0, 1, 2} && s.clients[1].phase == Closing && s.clients[1].id == "a"
  }

  lemma OneIsClosing(s: State)
    requires LastIsLeaving(s)
    ensures Runs(s, [Remove(0), Add(1)]) && OneCloser(Run(s, [Remove(0), Add(1)]))
  {
    var s1 := Apply(s, Remove(0));
    assert s.streams[0].clients - {0} == {};
    RunsEnd(s1, Add(1), []);
    RunsEnd(s, Remove(0), [Add(1)]);
    assert Apply(s1, Add(1)).streams[0].clients == {1};
  }

  lemma OtherIsClosing(s: State)
    requires OneCloser(s)
    ensures Runs(s, [Cancel(1), Remove(1)]) && TwoClosers(Run(s, [Cancel(1), Remove(1)]))
  {
    var s1 := Apply(s, Cancel(1));
    assert s1.streams[0].clients - {1} == {};
    RunsEnd(s1, Remove(1), []);
    RunsEnd(s, Cancel(1), [Remove(1)]);
  }

  lemma BothAreClosing(s: State)
    requires LastIsLeaving(s)
    ensures Runs(s, BothLeave) && TwoClosers(Run(s, BothLeave))
  {
    OneIsClosing(s);
    OtherIsClosing(Run(s, [Remove(0), Add(1)]));
    RunConcat(s, [Remove(0), Add(1)], [Cancel(1), Remove(1)]);
    assert BothLeave == [Remove(0), Add(1)] + [Cancel(1), Remove(1)];
  }

  lemma NewcomerJoins(s: State)
    requires TwoClosers(s)
    ensures var steps := [CloseIfEmpty(0), GetOrMake(2, "a", 1, 1), Add(2)];
            Runs(s, steps) && NewcomerIn(Run(s, steps))
  {
    var s1 := Apply(s, CloseIfEmpty(0));
    assert s1.mss == map[] && s1.streams.Keys == {0} && s1.clients.Keys == {0, 1};
    var s2 := Apply(s1, GetOrMake(2, "a", 1, 1));
    assert s2.streams.Keys == {0, 1} && s2.clients.Keys == {0, 1, 2};
    RunsEnd(s2, Add(2), []);
    RunsEnd(s1, GetOrMake(2, "a", 1, 1), [Add(2)]);
    RunsEnd(s, CloseIfEmpty(0), [GetOrMake(2, "a", 1, 1), Add(2)]);
  }

  lemma NewcomerIsCut(s: State)
    requires TwoClosers(s)
    ensures Runs(s, NewcomerLoses)
            && var t := Run(s, NewcomerLoses);
               "a" !in t.mss && 1 in t.streams && 2 in t.streams[1].clients && !t.streams[1].open
  {
    var joins := [CloseIfEmpty(0), GetOrMake(2, "a", 1, 1), Add(2)];
    NewcomerJoins(s);
    RunsEnd(Run(s, joins), CloseIfEmpty(1), []);
    RunConcat(s, joins, [CloseIfEmpty(1)]);
    assert NewcomerLoses == joins + [CloseIfEmpty(1)];
  }
}
