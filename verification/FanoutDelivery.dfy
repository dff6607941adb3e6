/** What becomes of a message: what a stream processes is what was sent to its id, what a
    client gets of it is all but what it had no room for, and what it has written reads back
    as the events that were sent. */
module FanoutDelivery {
  import opened Wrappers
  import opened Fanout
  import EventStream

  // ---- What is lost to a client -----------------------------------------------------------

  /** The steps that lose a message to `c`: a send that finds its buffer full while it is
      not receiving, and a write that fails. */
  predicate Misses(s: State, step: Step, c: ClientId) {
    match step
    case TrySend(_, d, direct) => d == c && !direct && c in s.clients && |s.clients[c].buf| >= s.clients[c].cap
    case WriteFail(d) => d == c
    case _ => false
  }

  function MissCount(s: State, steps: seq<Step>, c: ClientId): nat
    requires Runs(s, steps)
    decreases steps
  {
    if |steps| == 0 then 0
    else (if Misses(s, steps[0], c) then 1 else 0) + MissCount(Apply(s, steps[0]), steps[1..], c)
  }

  function LostTo(s: State, c: ClientId): nat {
    if c in s.clients then s.clients[c].lost else 0
  }

  lemma StepLoses(s: State, step: Step, c: ClientId)
    requires Enabled(s, step) && !Apply(s, step).panicked
    ensures LostTo(Apply(s, step), c) == LostTo(s, c) + (if Misses(s, step, c) then 1 else 0)
  {
  }

  lemma {:induction false} RunLoses(s: State, steps: seq<Step>, c: ClientId)
    requires Inv(s) && Runs(s, steps)
    ensures LostTo(Run(s, steps), c) == LostTo(s, c) + MissCount(s, steps, c)
    decreases steps
  {
    if |steps| > 0 {
      StepKeeps(s, steps[0]);
      StepLoses(s, steps[0], c);
      RunLoses(Apply(s, steps[0]), steps[1..], c);
    }
  }

  lemma {:induction false} SubsequenceFull(a: seq<Message>, b: seq<Message>)
    requires Subsequence(a, b)
    ensures |a| <= |b| && (|a| == |b| ==> a == b)
  {
    if |b| > 0 && |a| > 0 {
      if a[|a| - 1] == b[|b| - 1] && Subsequence(a[..|a| - 1], b[..|b| - 1]) {
        SubsequenceFull(a[..|a| - 1], b[..|b| - 1]);
        assert a == a[..|a| - 1] + [a[|a| - 1]] && b == b[..|b| - 1] + [b[|b| - 1]];
      } else {
        SubsequenceFull(a, b[..|b| - 1]);
      }
    }
  }

  /** In every interleaving, a client has lost exactly one message for each such step. So
      without one it has been given all that its stream processed while it was
      registered, in order. */
  lemma LossIsExact(steps: seq<Step>, c: ClientId)
    requires Runs(Initial, steps) && c in Run(Initial, steps).clients
    ensures var s := Run(Initial, steps);
            var client := s.clients[c];
            && client.lost == MissCount(Initial, steps, c)
            && client.ms in s.streams
            && (client.phase != Joining && MissCount(Initial, steps, c) == 0 ==>
                  var stream := s.streams[client.ms];
                  var upto := Offered(client, stream.log, Behind(stream, c));
                  client.joined <= upto <= |stream.log| && Trail(client) == stream.log[client.joined..upto])
  {
    var s := Run(Initial, steps);
    var client := s.clients[c];
    RunLoses(Initial, steps, c);
    DeliveryIsInOrder(steps, c);
    if client.phase != Joining && client.lost == 0 {
      var stream := s.streams[client.ms];
      SubsequenceFull(Trail(client), stream.log[client.joined..Offered(client, stream.log, Behind(stream, c))]);
    }
  }

  // ---- What a stream processes --------------------------------------------------------------

  /** A message and the id it was sent to. */
  datatype Post = Post(id: string, item: EventStream.Item)

  /** The last message that the caller `k` has sent. */
  function Sent(steps: seq<Step>, k: SenderId): Option<Post> {
    if |steps| == 0 then None
    else
      var last := steps[|steps| - 1];
      if last.Send? && last.k == k then Some(Post(last.id, EventStream.Message(last.eventID, last.event, last.data)))
      else Sent(steps[..|steps| - 1], k)
  }

  lemma {:induction false} RunsInit(s: State, steps: seq<Step>)
    requires Runs(s, steps) && |steps| > 0
    ensures var init, last := steps[..|steps| - 1], steps[|steps| - 1];
            Runs(s, init) && Enabled(Run(s, init), last) && Run(s, steps) == Apply(Run(s, init), last)
    decreases steps
  {
    if |steps| > 1 {
      RunsInit(Apply(s, steps[0]), steps[1..]);
      assert steps[..|steps| - 1][0] == steps[0] && steps[..|steps| - 1][1..] == steps[1..][..|steps| - 2];
    }
  }

  /** The messages handed to the stream `m`, in order. */
  function Handed(steps: seq<Step>, m: StreamId): seq<EventStream.Item>
    requires Runs(Initial, steps)
  {
    if |steps| == 0 then []
    else
      RunsInit(Initial, steps);
      var init, last := steps[..|steps| - 1], steps[|steps| - 1];
      var s := Run(Initial, init);
      if last.Handoff? && s.senders[last.k].Pending? && s.senders[last.k].ms == m && Sent(init, last.k).Some?
      then Handed(init, m) + [Sent(init, last.k).value.item]
      else Handed(init, m)
  }

  predicate Printable(item: EventStream.Item) {
    item.Message? ==> !item.data.Unencodable?
  }

  predicate AllPrintable(items: seq<EventStream.Item>) {
    forall i :: 0 <= i < |items| ==> Printable(items[i])
  }

  function Frames(items: seq<EventStream.Item>): (r: seq<Message>)
    requires AllPrintable(items)
    ensures |r| == |items|
  {
    if |items| == 0 then []
    else
      assert Printable(items[0]);
      [EventStream.Print(items[0])] + Frames(items[1..])
  }

  /** What a stream has processed, and what it is about to. */
  function Taken(stream: Stream): seq<Message> {
    stream.log + (if stream.proc.Holding? then [stream.proc.b] else [])
  }

  /** A blocked Send holds the frame of the message it was called with, for the stream of
      the id it was called with. */
  predicate SenderIsPosted(s: State, steps: seq<Step>, k: SenderId)
    requires k in s.senders
  {
    s.senders[k].Pending? ==>
      var post := Sent(steps, k);
      && post.Some? && Printable(post.value.item) && s.senders[k].b == EventStream.Print(post.value.item)
      && s.senders[k].ms in s.streams && s.streams[s.senders[k].ms].id == post.value.id
  }

  lemma StepOnSender(s: State, init: seq<Step>, last: Step, k: SenderId)
    requires Inv(s) && Enabled(s, last) && k in Apply(s, last).senders
    requires forall j :: j in s.senders ==> SenderIsPosted(s, init, j)
    ensures SenderIsPosted(Apply(s, last), init + [last], k)
  {
    var steps, s' := init + [last], Apply(s, last);
    assert steps[..|steps| - 1] == init && steps[|steps| - 1] == last;
    StepKeeps(s, last);
    if s'.senders[k].Pending? {
      SenderStays(s, last, k);
    }
  }

  /** A blocked Send stays as it is, and a new one is made from its arguments. */
  lemma SenderStays(s: State, step: Step, k: SenderId)
    requires Inv(s) && Enabled(s, step) && !Apply(s, step).panicked
    requires var s' := Apply(s, step); k in s'.senders && s'.senders[k].Pending?
    ensures var s' := Apply(s, step); var sender := s'.senders[k];
            && sender.ms in s.streams && sender.ms in s'.streams && s'.streams[sender.ms].id == s.streams[sender.ms].id
            && if step.Send? && step.k == k
               then !step.data.Unencodable? && s.streams[sender.ms].id == step.id
                    && sender.b == EventStream.Print(EventStream.Message(step.eventID, step.event, step.data))
               else k in s.senders && s.senders[k] == sender
  {
    if step.Send? && step.k == k {
      assert step.id in s.mss;
    } else {
      assert k in s.senders && SenderOk(s, k);
    }
    StreamKeepsId(s, step, Apply(s, step).senders[k].ms);
  }

  lemma StreamKeepsId(s: State, step: Step, m: StreamId)
    requires Enabled(s, step) && !Apply(s, step).panicked && m in s.streams
    ensures m in Apply(s, step).streams && Apply(s, step).streams[m].id == s.streams[m].id
  {
  }

  /** A stream takes what a Send hands to it, and nothing else. */
  lemma StepOnTaken(s: State, step: Step, m: StreamId)
    requires Enabled(s, step) && !Apply(s, step).panicked && m in s.streams
    requires forall k :: k in s.senders && s.senders[k].Pending? ==> s.senders[k].b != ""
    ensures var s' := Apply(s, step);
            && m in s'.streams
            && Taken(s'.streams[m])
               == if step.Handoff? && s.senders[step.k].ms == m then Taken(s.streams[m]) + [s.senders[step.k].b]
                  else Taken(s.streams[m])
  {
  }

  lemma NewIsEmpty(s: State, step: Step, m: StreamId)
    requires Enabled(s, step) && m !in s.streams && m in Apply(s, step).streams
    ensures Taken(Apply(s, step).streams[m]) == []
  {
  }

  /** What has been taken is what was handed over. */
  ghost predicate TakenIsHanded(s: State, steps: seq<Step>, m: StreamId)
    requires Runs(Initial, steps)
  {
    && AllPrintable(Handed(steps, m))
    && (if m in s.streams then Taken(s.streams[m]) == Frames(Handed(steps, m)) else Handed(steps, m) == [])
  }

  lemma StepHands(steps: seq<Step>, m: StreamId)
    requires Runs(Initial, steps) && |steps| > 0
    requires var init := steps[..|steps| - 1];
             && Runs(Initial, init)
             && (forall j :: j in Run(Initial, init).senders ==> SenderIsPosted(Run(Initial, init), init, j))
             && TakenIsHanded(Run(Initial, init), init, m)
    ensures TakenIsHanded(Run(Initial, steps), steps, m)
  {
    var init, last := steps[..|steps| - 1], steps[|steps| - 1];
    var s := Run(Initial, init);
    RunsInit(Initial, steps);
    RunKeeps(Initial, init);
    StepKeeps(s, last);
    forall k | k in s.senders && s.senders[k].Pending?
      ensures s.senders[k].b != ""
    {
      assert SenderOk(s, k);
    }
    if m in s.streams {
      StepOnTaken(s, last, m);
      if last.Handoff? && s.senders[last.k].ms == m {
        assert SenderIsPosted(s, init, last.k);
        HandedGrows(steps, m, Sent(init, last.k).value.item);
      }
    } else if m in Apply(s, last).streams {
      NewIsEmpty(s, last, m);
    }
  }

  lemma {:induction false} FrameAt(items: seq<EventStream.Item>, i: nat)
    requires AllPrintable(items) && i < |items|
    ensures Printable(items[i]) && Frames(items)[i] == EventStream.Print(items[i])
  {
    if i > 0 {
      FrameAt(items[1..], i - 1);
    }
  }

  lemma FramesPush(items: seq<EventStream.Item>, item: EventStream.Item, all: seq<EventStream.Item>)
    requires AllPrintable(items) && Printable(item) && all == items + [item]
    ensures AllPrintable(all) && Frames(all) == Frames(items) + [EventStream.Print(item)]
  {
    assert forall i :: 0 <= i < |all| ==> all[i] == if i < |items| then items[i] else item;
    forall i | 0 <= i < |all|
      ensures Frames(all)[i] == (Frames(items) + [EventStream.Print(item)])[i]
    {
      FrameAt(all, i);
      if i < |items| {
        FrameAt(items, i);
      }
    }
  }

  lemma HandedGrows(steps: seq<Step>, m: StreamId, item: EventStream.Item)
    requires Runs(Initial, steps) && |steps| > 0 && Runs(Initial, steps[..|steps| - 1])
    requires Handed(steps, m) == Handed(steps[..|steps| - 1], m) + [item] && Printable(item)
    requires AllPrintable(Handed(steps[..|steps| - 1], m))
    ensures AllPrintable(Handed(steps, m))
    ensures Frames(Handed(steps, m)) == Frames(Handed(steps[..|steps| - 1], m)) + [EventStream.Print(item)]
  {
    FramesPush(Handed(steps[..|steps| - 1], m), item, Handed(steps, m));
  }

  /** In every interleaving, what a stream has processed, and holds, is the frames of the
      messages handed to it, in order; and a blocked Send holds the frame of its own
      message for the stream of its own id. */
  lemma {:induction false} StreamsTakeWhatIsSent(steps: seq<Step>)
    requires Runs(Initial, steps)
    ensures var s := Run(Initial, steps);
            && (forall k :: k in s.senders ==> SenderIsPosted(s, steps, k))
            && forall m :: TakenIsHanded(s, steps, m)
  {
    if |steps| > 0 {
      var init, last := steps[..|steps| - 1], steps[|steps| - 1];
      RunsInit(Initial, steps);
      var s := Run(Initial, init);
      StreamsTakeWhatIsSent(init);
      RunKeeps(Initial, init);
      assert init + [last] == steps;
      forall k | k in Apply(s, last).senders
        ensures SenderIsPosted(Apply(s, last), steps, k)
      {
        StepOnSender(s, init, last, k);
      }
      forall m
        ensures TakenIsHanded(Apply(s, last), steps, m)
      {
        StepHands(steps, m);
      }
    }
  }

  // ---- What a client reads --------------------------------------------------------------------

  function Bytes(messages: seq<Message>): string {
    if |messages| == 0 then "" else messages[0] + Bytes(messages[1..])
  }

  lemma OneFrame(items: seq<EventStream.Item>, mine: seq<EventStream.Item>, from: nat, i: nat)
    requires AllPrintable(items) && AllPrintable(mine) && i < |mine| && from + i < |items| && mine[i] == items[from + i]
    ensures Frames(items)[from + i] == Frames(mine)[i]
  {
    FrameAt(items, from + i);
    FrameAt(mine, i);
  }

  lemma PartPrintable(items: seq<EventStream.Item>, mine: seq<EventStream.Item>, from: nat)
    requires AllPrintable(items) && from + |mine| <= |items| && mine == items[from..from + |mine|]
    ensures AllPrintable(mine)
  {
    forall i | 0 <= i < |mine|
      ensures Printable(mine[i])
    {
      assert mine[i] == items[from + i];
    }
  }

  lemma FramesAt(items: seq<EventStream.Item>, mine: seq<EventStream.Item>, from: nat, all: seq<Message>, part: seq<Message>)
    requires AllPrintable(items) && from + |mine| <= |items| && mine == items[from..from + |mine|]
    requires all == Frames(items) && AllPrintable(mine) && part == Frames(mine)
    ensures all[from..from + |mine|] == part
  {
    forall i | 0 <= i < |mine|
      ensures all[from + i] == part[i]
    {
      OneFrame(items, mine, from, i);
    }
  }

  lemma {:induction false} BytesOfFrames(items: seq<EventStream.Item>)
    requires EventStream.AllEncodable(items) && AllPrintable(items)
    ensures Bytes(Frames(items)) == EventStream.PrintAll(items)
  {
    if |items| > 0 {
      assert EventStream.Encodable(items[0]);
      BytesOfFrames(items[1..]);
      assert Frames(items)[1..] == Frames(items[1..]);
    }
  }

  lemma FramesReadBack(items: seq<EventStream.Item>, written: seq<Message>)
    requires AllPrintable(items) && written == Frames(items)
    ensures EventStream.AllFit(items) ==>
              EventStream.Parse(Bytes(written)).events == EventStream.Expected(items, "")
  {
    if EventStream.AllFit(items) {
      assert EventStream.AllEncodable(items);
      BytesOfFrames(items);
      EventStream.RoundTrip(items);
    }
  }

  /** A client that has missed nothing and has nothing left to write. */
  predicate CaughtUp(steps: seq<Step>, c: ClientId)
    requires Runs(Initial, steps)
  {
    var s := Run(Initial, steps);
    && c in s.clients && s.clients[c].ms in s.streams && MissCount(Initial, steps, c) == 0
    && s.clients[c].phase != Joining && !s.clients[c].phase.Writing? && s.clients[c].buf == []
  }

  /** How far into its stream's log it has been served. */
  function ServedTo(s: State, c: ClientId): int
    requires c in s.clients && s.clients[c].ms in s.streams
  {
    var stream := s.streams[s.clients[c].ms];
    Offered(s.clients[c], stream.log, Behind(stream, c))
  }

  lemma WrittenIsHanded(steps: seq<Step>, c: ClientId)
    requires Runs(Initial, steps) && CaughtUp(steps, c)
    ensures var s := Run(Initial, steps); var client := s.clients[c]; var items := Handed(steps, client.ms);
            && AllPrintable(items) && client.joined <= ServedTo(s, c) <= |items|
            && client.written == Frames(items)[client.joined..ServedTo(s, c)]
  {
    var s := Run(Initial, steps);
    var client := s.clients[c];
    LossIsExact(steps, c);
    StreamsTakeWhatIsSent(steps);
    assert TakenIsHanded(s, steps, client.ms);
    var stream, upto := s.streams[client.ms], ServedTo(s, c);
    assert Taken(stream)[client.joined..upto] == stream.log[client.joined..upto];
    assert Trail(client) == client.written;
  }

  /** From the call of Send to the listener: a client that has missed nothing and has
      nothing left to write has written exactly the frames of the messages handed to its
      stream while it was registered, and if they can be carried, a listener reads them
      back as those events, in order. */
  lemma ListenerGetsEvents(steps: seq<Step>, c: ClientId, mine: seq<EventStream.Item>)
    requires Runs(Initial, steps) && CaughtUp(steps, c)
    requires var s := Run(Initial, steps); var items := Handed(steps, s.clients[c].ms);
             s.clients[c].joined <= ServedTo(s, c) <= |items| ==> mine == items[s.clients[c].joined..ServedTo(s, c)]
    ensures var s := Run(Initial, steps); s.clients[c].joined <= ServedTo(s, c) <= |Handed(steps, s.clients[c].ms)|
    ensures AllPrintable(mine) && Run(Initial, steps).clients[c].written == Frames(mine)
    ensures EventStream.AllFit(mine) ==>
              EventStream.Parse(Bytes(Run(Initial, steps).clients[c].written)).events == EventStream.Expected(mine, "")
  {
    var s := Run(Initial, steps);
    var client, items := s.clients[c], Handed(steps, s.clients[c].ms);
    WrittenIsHanded(steps, c);
    PartPrintable(items, mine, client.joined);
    FramesAt(items, mine, client.joined, Frames(items), Frames(mine));
    FramesReadBack(mine, client.written);
  }

  // ---- Nothing stays behind for want of a step -------------------------------------------------

  /** A call of Send can start exactly when its id has a stream and its payload can be
      encoded. */
  lemma SendCanStart(s: State, k: SenderId, id: string, eventID: string, event: string, data: EventStream.Data)
    requires Inv(s) && k !in s.senders
    ensures Enabled(s, Step.Send(k, id, eventID, event, data)) <==> id in s.mss && !data.Unencodable?
  {
  }

  lemma ReceiveIs(s: State, c: ClientId)
    requires Enabled(s, Receive(c))
    ensures var s', was := Apply(s, Receive(c)), s.clients[c];
            && c in s'.clients
            && s'.clients[c] == was.(phase := Writing(was.buf[0]), buf := was.buf[1..])
            && Trail(s'.clients[c]) == Trail(was)
  {
    var was := s.clients[c];
    assert [was.buf[0]] + was.buf[1..] == was.buf;
  }

  lemma WriteOkIs(s: State, c: ClientId)
    requires Enabled(s, WriteOk(c))
    ensures var s', was := Apply(s, WriteOk(c)), s.clients[c];
            && c in s'.clients
            && s'.clients[c] == was.(phase := Selecting, written := was.written + [was.phase.b])
            && Trail(s'.clients[c]) == Trail(was)
  {
  }

  /** A client that goes on to write all that it has been given. */
  predicate HasWritten(s: State, was: Client, c: ClientId) {
    && c in s.clients && s.clients[c].phase == Selecting && s.clients[c].buf == []
    && s.clients[c].written == Trail(was) && s.clients[c].lost == was.lost
  }

  /** From every reachable state, a client in its loop can do so. */
  lemma {:induction false} ClientCanCatchUp(s: State, c: ClientId) returns (steps: seq<Step>)
    requires Inv(s) && c in s.clients && (s.clients[c].phase == Selecting || s.clients[c].phase.Writing?)
    ensures Runs(s, steps) && Inv(Run(s, steps)) && HasWritten(Run(s, steps), s.clients[c], c)
    decreases |s.clients[c].buf|, s.clients[c].phase.Writing?
  {
    steps := [];
    var client := s.clients[c];
    if client.phase.Writing? || client.buf != [] {
      var step := if client.phase.Writing? then WriteOk(c) else Receive(c);
      if client.phase.Writing? {
        WriteOkIs(s, c);
      } else {
        ReceiveIs(s, c);
      }
      StepKeeps(s, step);
      var more := ClientCanCatchUp(Apply(s, step), c);
      steps := [step] + more;
    }
  }
}
