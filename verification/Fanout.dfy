/** The concurrent fan-out of sse/sse.go: a router of streams, each with a goroutine
    that copies messages to its clients. A step is what one goroutine does between
    two lock or channel operations; steps interleave in any order. */
module Fanout {
  import EventStream

  type StreamId = nat
  type ClientId = nat
  type SenderId = nat
  type Message = string

  /** The goroutine of a stream: waiting for a message, holding one, copying it to
      the clients still in `left` while it holds the stream's mutex, or returned. */
  datatype Proc = Waiting | Holding(b: Message) | Copying(b: Message, left: set<ClientId>) | Returned

  /** `open` is the state of the data channel; `log` is what has been processed. */
  datatype Stream = Stream(id: string, clients: set<ClientId>, open: bool, proc: Proc, log: seq<Message>)

  /** Where a connection's handler is. */
  datatype Phase =
    | Joining           // it has its stream, but has not been added
    | Selecting         // in the select of its loop
    | Writing(b: Message)
    | Leaving           // its loop has ended
    | Closing           // removed, and it was the last client
    | Gone

  /** A connection: its stream, its channel (capacity, buffer, open), what it has
      written, how many messages were lost to it, and the part of the stream's log
      that it was registered for. */
  datatype Client = Client(
    ms: StreamId, id: string, phase: Phase,
    cap: nat, buf: seq<Message>, open: bool,
    written: seq<Message>, lost: nat, joined: nat, ended: nat)

  /** A call of Send that holds the router's read lock: blocked on the data channel,
      or returning. */
  datatype Sender = Pending(ms: StreamId, b: Message) | Returning

  datatype State = State(
    mss: map<string, StreamId>,
    streams: map<StreamId, Stream>,
    clients: map<ClientId, Client>,
    senders: map<SenderId, Sender>,
    panicked: bool)

  datatype Step =
    | GetOrMake(c: ClientId, id: string, cap: nat, made: StreamId)
    | Add(c: ClientId)
    | Receive(c: ClientId)
    | WriteOk(c: ClientId)
    | WriteFail(c: ClientId)
    | Cancel(c: ClientId)
    | Remove(c: ClientId)
    | CloseIfEmpty(c: ClientId)
    | Send(k: SenderId, id: string, eventID: string, event: string, data: EventStream.Data)
    | Handoff(k: SenderId)
    | Return(k: SenderId)
    | Lock(m: StreamId)
    | TrySend(m: StreamId, c: ClientId, direct: bool)
    | Unlock(m: StreamId)
    | Exit(m: StreamId)

  const Initial: State := State(map[], map[], map[], map[], false)

  /** The router's write lock is free: no Send holds the read lock. Every other
      holder of either lock keeps it only within one step. */
  predicate WriteLockFree(s: State) {
    s.senders == map[]
  }

  /** A stream's mutex is free: only the copying goroutine keeps it over steps. */
  predicate MutexFree(s: State, m: StreamId) {
    m in s.streams && !s.streams[m].proc.Copying?
  }

  predicate InPhase(s: State, c: ClientId, phase: Phase) {
    c in s.clients && s.clients[c].phase == phase
  }

  predicate Enabled(s: State, step: Step) {
    match step
    case GetOrMake(c, id, cap, made) => c !in s.clients && WriteLockFree(s) && made !in s.streams
    case Add(c) => InPhase(s, c, Joining) && MutexFree(s, s.clients[c].ms)
    case Receive(c) => InPhase(s, c, Selecting) && |s.clients[c].buf| > 0
    case WriteOk(c) => c in s.clients && s.clients[c].phase.Writing?
    case WriteFail(c) => c in s.clients && s.clients[c].phase.Writing?
    case Cancel(c) => InPhase(s, c, Selecting)
    case Remove(c) => InPhase(s, c, Leaving) && MutexFree(s, s.clients[c].ms)
    case CloseIfEmpty(c) => InPhase(s, c, Closing) && WriteLockFree(s)
    case Send(k, id, _, _, data) => k !in s.senders && id in s.mss && s.mss[id] in s.streams && !data.Unencodable?
    case Handoff(k) =>
      k in s.senders && s.senders[k].Pending? && s.senders[k].ms in s.streams
      && s.streams[s.senders[k].ms].proc == Waiting
    case Return(k) => k in s.senders && s.senders[k] == Returning
    case Lock(m) => m in s.streams && s.streams[m].proc.Holding?
    case TrySend(m, c, direct) =>
      m in s.streams && s.streams[m].proc.Copying? && c in s.streams[m].proc.left && c in s.clients
      && (direct ==> s.clients[c].cap == 0 && s.clients[c].phase == Selecting)
    case Unlock(m) => m in s.streams && s.streams[m].proc.Copying? && s.streams[m].proc.left == {}
    case Exit(m) => m in s.streams && s.streams[m].proc == Waiting && !s.streams[m].open
  }

  function WithClient(s: State, c: ClientId, client: Client): State {
    s.(clients := s.clients[c := client])
  }

  function WithStream(s: State, m: StreamId, stream: Stream): State {
    s.(streams := s.streams[m := stream])
  }

  /** Closing the data channel panics if it is closed, and makes a blocked Send on it
      panic. */
  predicate CloseDataPanics(s: State, m: StreamId) {
    m !in s.streams || !s.streams[m].open || exists k :: k in s.senders && s.senders[k].Pending? && s.senders[k].ms == m
  }

  function CloseData(s: State, id: string): State
    requires id in s.mss
  {
    var m := s.mss[id];
    if CloseDataPanics(s, m) then s.(panicked := true)
    else WithStream(s, m, s.streams[m].(open := false)).(mss := s.mss - {id})
  }

  /** trySend on the channel of `c`. */
  function Offer(client: Client, b: Message, direct: bool): Client {
    if |client.buf| < client.cap then client.(buf := client.buf + [b])
    else if direct then client.(phase := Writing(b))
    else client.(lost := client.lost + 1)
  }

  function Apply(s: State, step: Step): State
    requires Enabled(s, step)
  {
    match step
    case GetOrMake(c, id, cap, made) =>
      var s1 := if id in s.mss then s
                else WithStream(s, made, Stream(id, {}, true, Waiting, [])).(mss := s.mss[id := made]);
      WithClient(s1, c, Client(s1.mss[id], id, Joining, cap, [], true, [], 0, 0, 0))
    case Add(c) =>
      var client := s.clients[c];
      var stream := s.streams[client.ms];
      WithClient(WithStream(s, client.ms, stream.(clients := stream.clients + {c})),
                 c, client.(phase := Selecting, joined := |stream.log|))
    case Receive(c) =>
      var client := s.clients[c];
      WithClient(s, c, client.(phase := Writing(client.buf[0]), buf := client.buf[1..]))
    case WriteOk(c) =>
      var client := s.clients[c];
      WithClient(s, c, client.(phase := Selecting, written := client.written + [client.phase.b]))
    case WriteFail(c) =>
      WithClient(s, c, s.clients[c].(phase := Leaving, lost := s.clients[c].lost + 1))
    case Cancel(c) =>
      WithClient(s, c, s.clients[c].(phase := Leaving))
    case Remove(c) =>
      var client := s.clients[c];
      var stream := s.streams[client.ms];
      var others := stream.clients - {c};
      if !client.open then s.(panicked := true)
      else WithClient(WithStream(s, client.ms, stream.(clients := others)),
                      c, client.(phase := if others == {} then Closing else Gone, open := false, ended := |stream.log|))
    case CloseIfEmpty(c) =>
      var id := s.clients[c].id;
      var s1 := if id in s.mss then CloseData(s, id) else s;
      WithClient(s1, c, s.clients[c].(phase := Gone))
    case Send(k, id, eventID, event, data) =>
      if !s.streams[s.mss[id]].open then s.(panicked := true)
      else s.(senders := s.senders[k := Pending(s.mss[id], EventStream.Frame(eventID, event, data))])
    case Handoff(k) =>
      var m, b := s.senders[k].ms, s.senders[k].b;
      WithStream(s, m, s.streams[m].(proc := if b == "" then Returned else Holding(b))).(senders := s.senders[k := Returning])
    case Return(k) =>
      s.(senders := s.senders - {k})
    case Lock(m) =>
      var stream := s.streams[m];
      WithStream(s, m, stream.(proc := Copying(stream.proc.b, stream.clients), log := stream.log + [stream.proc.b]))
    case TrySend(m, c, direct) =>
      var stream := s.streams[m];
      if !s.clients[c].open then s.(panicked := true)
      else WithClient(WithStream(s, m, stream.(proc := Copying(stream.proc.b, stream.proc.left - {c}))),
                      c, Offer(s.clients[c], stream.proc.b, direct))
    case Unlock(m) =>
      WithStream(s, m, s.streams[m].(proc := Waiting))
    case Exit(m) =>
      WithStream(s, m, s.streams[m].(proc := Returned))
  }

  predicate Runs(s: State, steps: seq<Step>)
    decreases steps
  {
    |steps| == 0 || (Enabled(s, steps[0]) && Runs(Apply(s, steps[0]), steps[1..]))
  }

  function Run(s: State, steps: seq<Step>): State
    requires Runs(s, steps)
    decreases steps
  {
    if |steps| == 0 then s else Run(Apply(s, steps[0]), steps[1..])
  }

  // ---- Delivery ----------------------------------------------------------------------------

  /** `a` is what is left of `b` when some elements are taken out. */
  predicate Subsequence(a: seq<Message>, b: seq<Message>) {
    |a| == 0
    || (|b| > 0
        && ((a[|a| - 1] == b[|b| - 1] && Subsequence(a[..|a| - 1], b[..|b| - 1]))
            || Subsequence(a, b[..|b| - 1])))
  }

  lemma SubsequencePush(a: seq<Message>, b: seq<Message>, x: Message)
    requires Subsequence(a, b)
    ensures Subsequence(a + [x], b + [x]) && Subsequence(a, b + [x])
  {
    assert (a + [x])[..|a|] == a && (b + [x])[..|b|] == b;
  }

  lemma {:induction false} SubsequenceInit(a: seq<Message>, b: seq<Message>)
    requires Subsequence(a, b) && |a| > 0
    ensures Subsequence(a[..|a| - 1], b)
    decreases |b|
  {
    if a[|a| - 1] == b[|b| - 1] && Subsequence(a[..|a| - 1], b[..|b| - 1]) {
      SubsequencePush(a[..|a| - 1], b[..|b| - 1], b[|b| - 1]);
      assert b[..|b| - 1] + [b[|b| - 1]] == b;
    } else {
      SubsequenceInit(a, b[..|b| - 1]);
      SubsequencePush(a[..|a| - 1], b[..|b| - 1], b[|b| - 1]);
      assert b[..|b| - 1] + [b[|b| - 1]] == b;
    }
  }

  /** Taking one more element out, in the middle. */
  lemma {:induction false} SubsequenceDrop(a: seq<Message>, x: Message, c: seq<Message>, b: seq<Message>)
    requires Subsequence(a + [x] + c, b)
    ensures Subsequence(a + c, b)
    decreases |b|
  {
    var all := a + [x] + c;
    if |c| == 0 {
      assert all[..|all| - 1] == a && a + c == a;
      SubsequenceInit(all, b);
    } else {
      var c' := c[..|c| - 1];
      assert all[..|all| - 1] == a + [x] + c' && (a + c)[..|a + c| - 1] == a + c';
      if all[|all| - 1] == b[|b| - 1] && Subsequence(all[..|all| - 1], b[..|b| - 1]) {
        SubsequenceDrop(a, x, c', b[..|b| - 1]);
      } else {
        SubsequenceDrop(a, x, c, b[..|b| - 1]);
      }
    }
  }

  /** What a client has been given: written, being written, buffered. */
  function Trail(c: Client): seq<Message> {
    c.written + (if c.phase.Writing? then [c.phase.b] else []) + c.buf
  }

  /** A client that has been added and not removed. */
  predicate Registered(c: Client) {
    c.phase.Selecting? || c.phase.Writing? || c.phase.Leaving?
  }

  /** How much of the log the client has been offered; `behind` says that the last
      message is still to come. */
  function Offered(c: Client, log: seq<Message>, behind: bool): int {
    if Registered(c) then |log| - (if behind then 1 else 0) else c.ended
  }

  /** The trail is in order what was processed while the client was registered, and
      what is missing from it was lost to it. */
  predicate Delivered(c: Client, log: seq<Message>, behind: bool) {
    var upto := Offered(c, log, behind);
    && c.joined <= upto <= |log|
    && Subsequence(Trail(c), log[c.joined..upto])
    && |Trail(c)| + c.lost == upto - c.joined
    && |c.buf| <= c.cap
  }

  predicate Behind(stream: Stream, c: ClientId) {
    stream.proc.Copying? && c in stream.proc.left
  }

  // ---- The invariant -------------------------------------------------------------------------

  predicate ProcOk(stream: Stream) {
    match stream.proc
    case Waiting => true
    case Holding(b) => b != ""
    case Copying(b, left) => left <= stream.clients && |stream.log| > 0 && stream.log[|stream.log| - 1] == b
    case Returned => !stream.open
  }

  /** The data channel is open exactly while the stream is in the table. */
  predicate StreamOk(s: State, m: StreamId)
    requires m in s.streams
  {
    var stream := s.streams[m];
    && (stream.open <==> stream.id in s.mss && s.mss[stream.id] == m)
    && ProcOk(stream)
    && (forall c :: c in stream.clients ==> c in s.clients && s.clients[c].ms == m && Registered(s.clients[c]))
  }

  /** A client's channel is open until it is removed. */
  predicate ClientOk(s: State, c: ClientId)
    requires c in s.clients
  {
    var client := s.clients[c];
    && client.ms in s.streams && s.streams[client.ms].id == client.id
    && (Registered(client) <==> c in s.streams[client.ms].clients)
    && (client.open <==> client.phase == Joining || Registered(client))
    && (client.phase == Joining ==> client.written == client.buf == [] && client.lost == 0)
    && (client.phase != Joining ==>
          Delivered(client, s.streams[client.ms].log, Behind(s.streams[client.ms], c)))
  }

  predicate SenderOk(s: State, k: SenderId)
    requires k in s.senders
  {
    s.senders[k].Pending? ==>
      s.senders[k].ms in s.streams && s.streams[s.senders[k].ms].open && s.senders[k].b != ""
  }

  predicate TableOk(s: State) {
    forall id :: id in s.mss ==> s.mss[id] in s.streams && s.streams[s.mss[id]].id == id
  }

  ghost predicate Inv(s: State) {
    && !s.panicked
    && TableOk(s)
    && (forall m :: m in s.streams ==> StreamOk(s, m))
    && (forall c :: c in s.clients ==> ClientOk(s, c))
    && (forall k :: k in s.senders ==> SenderOk(s, k))
  }

  // ---- Steps of a client alone ------------------------------------------------------------------

  /** Replacing a client by one that is as registered and as open as before. */
  lemma ClientStepKeeps(s: State, c: ClientId, next: Client)
    requires Inv(s) && c in s.clients
    requires var was := s.clients[c];
             && next.ms == was.ms && next.id == was.id && next.open == was.open
             && (Registered(next) <==> Registered(was)) && next.phase != Joining && was.phase != Joining
    requires var stream := s.streams[s.clients[c].ms];
             c in s.clients && ClientOk(s, c) && Delivered(next, stream.log, Behind(stream, c))
    ensures Inv(WithClient(s, c, next))
  {
    var s' := WithClient(s, c, next);
    forall m | m in s'.streams
      ensures StreamOk(s', m)
    {
      assert StreamOk(s, m);
    }
    forall d | d in s'.clients
      ensures ClientOk(s', d)
    {
      assert ClientOk(s, d);
    }
    forall k | k in s'.senders
      ensures SenderOk(s', k)
    {
      assert SenderOk(s, k);
    }
  }

  lemma DeliveredSoFar(s: State, c: ClientId)
    requires Inv(s) && c in s.clients && s.clients[c].phase != Joining
    ensures s.clients[c].ms in s.streams && ClientOk(s, c)
    ensures var stream := s.streams[s.clients[c].ms]; Delivered(s.clients[c], stream.log, Behind(stream, c))
  {
    assert ClientOk(s, c);
  }

  lemma ReceiveKeeps(s: State, c: ClientId)
    requires Inv(s) && Enabled(s, Receive(c))
    ensures Inv(Apply(s, Receive(c)))
  {
    assert ClientOk(s, c);
    var was := s.clients[c];
    var next := was.(phase := Writing(was.buf[0]), buf := was.buf[1..]);
    assert Trail(next) == Trail(was);
    ClientStepKeeps(s, c, next);
  }

  lemma WriteOkKeeps(s: State, c: ClientId)
    requires Inv(s) && Enabled(s, WriteOk(c))
    ensures Inv(Apply(s, WriteOk(c)))
  {
    assert ClientOk(s, c);
    var was := s.clients[c];
    var next := was.(phase := Selecting, written := was.written + [was.phase.b]);
    assert Trail(next) == Trail(was);
    ClientStepKeeps(s, c, next);
  }

  function Lost(client: Client): Client {
    client.(phase := Leaving, lost := client.lost + 1)
  }

  lemma WriteFailKeeps(s: State, c: ClientId)
    requires Inv(s) && Enabled(s, WriteFail(c))
    ensures Inv(Apply(s, WriteFail(c)))
  {
    WriteFailIs(s, c);
    DeliveredSoFar(s, c);
    LostDelivers(s, c);
    ClientStepKeeps(s, c, Lost(s.clients[c]));
  }

  lemma WriteFailIs(s: State, c: ClientId)
    requires Enabled(s, WriteFail(c))
    ensures Apply(s, WriteFail(c)) == WithClient(s, c, Lost(s.clients[c]))
  {
  }

  lemma LostDelivers(s: State, c: ClientId)
    requires c in s.clients && s.clients[c].phase.Writing? && s.clients[c].ms in s.streams
    requires var stream := s.streams[s.clients[c].ms]; Delivered(s.clients[c], stream.log, Behind(stream, c))
    ensures var stream := s.streams[s.clients[c].ms]; Delivered(Lost(s.clients[c]), stream.log, Behind(stream, c))
  {
    var stream := s.streams[s.clients[c].ms];
    LoseWritten(s.clients[c], Lost(s.clients[c]), stream.log, Behind(stream, c));
  }

  lemma LoseWritten(was: Client, next: Client, log: seq<Message>, behind: bool)
    requires was.phase.Writing? && Delivered(was, log, behind)
    requires next == was.(phase := Leaving, lost := was.lost + 1)
    ensures Delivered(next, log, behind)
  {
    var upto := Offered(was, log, behind);
    assert Trail(next) == was.written + was.buf;
    SubsequenceDrop(was.written, was.phase.b, was.buf, log[was.joined..upto]);
  }

  lemma CancelKeeps(s: State, c: ClientId)
    requires Inv(s) && Enabled(s, Cancel(c))
    ensures Inv(Apply(s, Cancel(c)))
  {
    assert ClientOk(s, c);
    var next := s.clients[c].(phase := Leaving);
    assert Trail(next) == Trail(s.clients[c]);
    ClientStepKeeps(s, c, next);
  }

  // ---- Steps of a sender alone -------------------------------------------------------------------

  lemma SenderStepKeeps(s: State, next: map<SenderId, Sender>)
    requires Inv(s)
    requires forall k :: k in next ==>
               next[k].Pending? ==> next[k].ms in s.streams && s.streams[next[k].ms].open && next[k].b != ""
    ensures Inv(s.(senders := next))
  {
    var s' := s.(senders := next);
    forall m | m in s'.streams
      ensures StreamOk(s', m)
    {
      assert StreamOk(s, m);
    }
    forall c | c in s'.clients
      ensures ClientOk(s', c)
    {
      assert ClientOk(s, c);
    }
  }

  lemma SendKeeps(s: State, step: Step)
    requires Inv(s) && step.Send? && Enabled(s, step)
    ensures Inv(Apply(s, step))
  {
    var m := s.mss[step.id];
    var b := EventStream.Frame(step.eventID, step.event, step.data);
    EventStream.FrameNotEmpty(step.eventID, step.event, step.data);
    assert StreamOk(s, m);
    forall k | k in s.senders
      ensures SenderOk(s, k)
    {
    }
    SenderStepKeeps(s, s.senders[step.k := Pending(m, b)]);
  }

  lemma ReturnKeeps(s: State, k: SenderId)
    requires Inv(s) && Enabled(s, Return(k))
    ensures Inv(Apply(s, Return(k)))
  {
    forall j | j in s.senders
      ensures SenderOk(s, j)
    {
    }
    SenderStepKeeps(s, s.senders - {k});
  }

  // ---- Steps of a stream's goroutine -----------------------------------------------------------------

  /** Replacing a stream by one with the same clients, channel and log, after which
      the same clients are behind. */
  lemma ProcStepKeeps(s: State, m: StreamId, proc: Proc)
    requires Inv(s) && m in s.streams
    requires ProcOk(s.streams[m].(proc := proc))
    requires !(s.streams[m].proc.Copying? && s.streams[m].proc.left != {}) && !proc.Copying?
    ensures Inv(WithStream(s, m, s.streams[m].(proc := proc)))
  {
    var s' := WithStream(s, m, s.streams[m].(proc := proc));
    forall n | n in s'.streams
      ensures StreamOk(s', n)
    {
      assert StreamOk(s, n);
    }
    forall c | c in s'.clients
      ensures ClientOk(s', c)
    {
      assert ClientOk(s, c);
      assert Behind(s'.streams[s.clients[c].ms], c) == Behind(s.streams[s.clients[c].ms], c);
    }
    forall k | k in s'.senders
      ensures SenderOk(s', k)
    {
      assert SenderOk(s, k);
    }
  }

  lemma HandoffKeeps(s: State, k: SenderId)
    requires Inv(s) && Enabled(s, Handoff(k))
    ensures Inv(Apply(s, Handoff(k)))
  {
    assert SenderOk(s, k);
    var m, b := s.senders[k].ms, s.senders[k].b;
    ProcStepKeeps(s, m, Holding(b));
    var s1 := WithStream(s, m, s.streams[m].(proc := Holding(b)));
    forall j | j in s1.senders
      ensures SenderOk(s1, j)
    {
    }
    SenderStepKeeps(s1, s1.senders[k := Returning]);
  }

  lemma LockKeeps(s: State, m: StreamId)
    requires Inv(s) && Enabled(s, Lock(m))
    ensures Inv(Apply(s, Lock(m)))
  {
    var s' := Apply(s, Lock(m));
    var log, b := s.streams[m].log, s.streams[m].proc.b;
    forall n | n in s'.streams
      ensures StreamOk(s', n)
    {
      assert StreamOk(s, n);
    }
    assert StreamOk(s, m);
    forall c | c in s'.clients
      ensures ClientOk(s', c)
    {
      assert ClientOk(s, c);
      var client := s.clients[c];
      if client.ms == m && client.phase != Joining {
        LogGrows(client, log, b);
      }
    }
    forall k | k in s'.senders
      ensures SenderOk(s', k)
    {
      assert SenderOk(s, k);
    }
  }

  lemma LogGrows(client: Client, log: seq<Message>, b: Message)
    requires Delivered(client, log, false)
    ensures Delivered(client, log + [b], Registered(client))
  {
    var upto := Offered(client, log, false);
    assert (log + [b])[client.joined..upto] == log[client.joined..upto];
  }

  lemma PushOrSkip(a: seq<Message>, was: seq<Message>, b: Message, next: seq<Message>, now: seq<Message>)
    requires Subsequence(a, was) && now == was + [b] && (next == a || next == a + [b])
    ensures Subsequence(next, now)
  {
    SubsequencePush(a, was, b);
  }

  lemma OfferDelivers(client: Client, next: Client, log: seq<Message>, b: Message, direct: bool)
    requires Registered(client) && Delivered(client, log, true) && |log| > 0 && log[|log| - 1] == b
    requires direct ==> client.cap == 0 && client.phase == Selecting
    requires next == Offer(client, b, direct)
    ensures Delivered(next, log, false)
    ensures Registered(next) && next.open == client.open && next.ms == client.ms && next.id == client.id
  {
    var was, now := log[client.joined..|log| - 1], log[client.joined..|log|];
    assert now == was + [b];
    if |client.buf| < client.cap {
      assert Trail(next) == Trail(client) + [b];
    } else if direct {
      assert Trail(client) == client.written && Trail(next) == client.written + [b];
    } else {
      assert Trail(next) == Trail(client);
    }
    PushOrSkip(Trail(client), was, b, Trail(next), now);
  }

  /** A client and its stream may be replaced together if the stream keeps its channel
      and log, and changes for no other client. */
  ghost predicate PairFits(s: State, c: ClientId, stream: Stream, client: Client) {
    && c in s.clients && s.clients[c].ms in s.streams
    && (var was := s.streams[s.clients[c].ms];
        && stream.id == was.id && stream.open == was.open && stream.log == was.log && ProcOk(stream)
        && forall d :: d != c ==>
             (d in stream.clients <==> d in was.clients) && (Behind(stream, d) <==> Behind(was, d)))
    && client.ms == s.clients[c].ms && client.id == s.clients[c].id && client.phase != Joining
    && (c in stream.clients <==> Registered(client)) && (client.open <==> Registered(client))
    && Delivered(client, stream.log, Behind(stream, c))
  }

  lemma PairKeepsStreams(s: State, c: ClientId, stream: Stream, client: Client, n: StreamId)
    requires Inv(s) && PairFits(s, c, stream, client) && n in s.streams
    ensures StreamOk(WithClient(WithStream(s, client.ms, stream), c, client), n)
  {
    assert StreamOk(s, n) && ClientOk(s, c);
  }

  lemma PairKeepsClients(s: State, c: ClientId, stream: Stream, client: Client, d: ClientId)
    requires Inv(s) && PairFits(s, c, stream, client) && d in s.clients
    ensures ClientOk(WithClient(WithStream(s, client.ms, stream), c, client), d)
  {
    assert ClientOk(s, d);
  }

  lemma PairStepKeeps(s: State, c: ClientId, stream: Stream, client: Client)
    requires Inv(s) && PairFits(s, c, stream, client)
    ensures Inv(WithClient(WithStream(s, client.ms, stream), c, client))
  {
    var s' := WithClient(WithStream(s, client.ms, stream), c, client);
    forall n | n in s'.streams
      ensures StreamOk(s', n)
    {
      PairKeepsStreams(s, c, stream, client, n);
    }
    forall d | d in s'.clients
      ensures ClientOk(s', d)
    {
      PairKeepsClients(s, c, stream, client, d);
    }
    forall k | k in s'.senders
      ensures SenderOk(s', k)
    {
      assert SenderOk(s, k);
    }
  }

  lemma TrySendFits(s: State, c: ClientId, was: Stream, stream: Stream, client: Client, direct: bool)
    requires c in s.clients && s.clients[c].ms in s.streams && was == s.streams[s.clients[c].ms]
    requires StreamOk(s, s.clients[c].ms) && ClientOk(s, c) && was.proc.Copying? && c in was.proc.left
    requires direct ==> s.clients[c].cap == 0 && s.clients[c].phase == Selecting
    requires stream == was.(proc := Copying(was.proc.b, was.proc.left - {c}))
    requires client == Offer(s.clients[c], was.proc.b, direct)
    ensures PairFits(s, c, stream, client)
  {
    OfferDelivers(s.clients[c], client, was.log, was.proc.b, direct);
  }

  lemma TrySendKeeps(s: State, m: StreamId, c: ClientId, direct: bool)
    requires Inv(s) && Enabled(s, TrySend(m, c, direct))
    ensures Inv(Apply(s, TrySend(m, c, direct)))
  {
    assert StreamOk(s, m) && ClientOk(s, c);
    var was := s.streams[m];
    var stream := was.(proc := Copying(was.proc.b, was.proc.left - {c}));
    var client := Offer(s.clients[c], was.proc.b, direct);
    TrySendFits(s, c, was, stream, client, direct);
    PairStepKeeps(s, c, stream, client);
    assert Apply(s, TrySend(m, c, direct)) == WithClient(WithStream(s, m, stream), c, client);
  }

  // ---- Joining and leaving a stream ----------------------------------------------------------------------

  lemma AddKeeps(s: State, c: ClientId)
    requires Inv(s) && Enabled(s, Add(c))
    ensures Inv(Apply(s, Add(c)))
  {
    assert ClientOk(s, c);
    var was := s.streams[s.clients[c].ms];
    var stream := was.(clients := was.clients + {c});
    var client := s.clients[c].(phase := Selecting, joined := |was.log|);
    assert StreamOk(s, client.ms);
    PairStepKeeps(s, c, stream, client);
    assert Apply(s, Add(c)) == WithClient(WithStream(s, client.ms, stream), c, client);
  }

  lemma RemoveKeeps(s: State, c: ClientId)
    requires Inv(s) && Enabled(s, Remove(c))
    ensures Inv(Apply(s, Remove(c)))
  {
    assert ClientOk(s, c);
    var was := s.streams[s.clients[c].ms];
    var stream := was.(clients := was.clients - {c});
    var phase := if stream.clients == {} then Closing else Gone;
    var client := s.clients[c].(phase := phase, open := false, ended := |was.log|);
    assert StreamOk(s, client.ms);
    assert Trail(client) == Trail(s.clients[c]);
    PairStepKeeps(s, c, stream, client);
    assert Apply(s, Remove(c)) == WithClient(WithStream(s, client.ms, stream), c, client);
  }

  lemma GetOrMakeKeeps(s: State, c: ClientId, id: string, cap: nat, made: StreamId)
    requires Inv(s) && Enabled(s, GetOrMake(c, id, cap, made))
    ensures Inv(Apply(s, GetOrMake(c, id, cap, made)))
  {
    var s' := Apply(s, GetOrMake(c, id, cap, made));
    forall n | n in s'.streams
      ensures StreamOk(s', n)
    {
      assert n in s.streams ==> StreamOk(s, n);
    }
    forall d | d in s'.clients
      ensures ClientOk(s', d)
    {
      assert d in s.clients ==> ClientOk(s, d);
      assert id in s.mss ==> StreamOk(s, s.mss[id]);
    }
  }

  lemma CloseKeeps(s: State, id: string)
    requires Inv(s) && WriteLockFree(s) && id in s.mss
    ensures Inv(CloseData(s, id))
  {
    var s' := CloseData(s, id);
    assert StreamOk(s, s.mss[id]);
    forall n | n in s'.streams
      ensures StreamOk(s', n)
    {
      assert StreamOk(s, n);
    }
    forall d | d in s'.clients
      ensures ClientOk(s', d)
    {
      assert ClientOk(s, d);
    }
  }

  lemma GoneKeeps(s: State, c: ClientId)
    requires Inv(s) && InPhase(s, c, Closing)
    ensures Inv(WithClient(s, c, s.clients[c].(phase := Gone)))
  {
    assert ClientOk(s, c);
    var next := s.clients[c].(phase := Gone);
    assert Trail(next) == Trail(s.clients[c]);
    ClientStepKeeps(s, c, next);
  }

  lemma CloseIfEmptyKeeps(s: State, c: ClientId)
    requires Inv(s) && Enabled(s, CloseIfEmpty(c))
    ensures Inv(Apply(s, CloseIfEmpty(c)))
  {
    var id := s.clients[c].id;
    if id in s.mss {
      CloseKeeps(s, id);
    }
    GoneKeeps(if id in s.mss then CloseData(s, id) else s, c);
  }

  // ---- Every run ---------------------------------------------------------------------------------------------

  lemma StepKeeps(s: State, step: Step)
    requires Inv(s) && Enabled(s, step)
    ensures Inv(Apply(s, step))
  {
    match step
    case GetOrMake(c, id, cap, made) => GetOrMakeKeeps(s, c, id, cap, made);
    case Add(c) => AddKeeps(s, c);
    case Receive(c) => ReceiveKeeps(s, c);
    case WriteOk(c) => WriteOkKeeps(s, c);
    case WriteFail(c) => WriteFailKeeps(s, c);
    case Cancel(c) => CancelKeeps(s, c);
    case Remove(c) => RemoveKeeps(s, c);
    case CloseIfEmpty(c) => CloseIfEmptyKeeps(s, c);
    case Send(_, _, _, _, _) => SendKeeps(s, step);
    case Handoff(k) => HandoffKeeps(s, k);
    case Return(k) => ReturnKeeps(s, k);
    case Lock(m) => LockKeeps(s, m);
    case TrySend(m, c, direct) => TrySendKeeps(s, m, c, direct);
    case Unlock(m) => assert StreamOk(s, m); ProcStepKeeps(s, m, Waiting);
    case Exit(m) => assert StreamOk(s, m); ProcStepKeeps(s, m, Returned);
  }

  lemma {:induction false} RunKeeps(s: State, steps: seq<Step>)
    requires Inv(s) && Runs(s, steps)
    ensures Inv(Run(s, steps))
    decreases steps
  {
    if |steps| > 0 {
      StepKeeps(s, steps[0]);
      RunKeeps(Apply(s, steps[0]), steps[1..]);
    }
  }

  /** In every interleaving: nothing is sent on or re-closes a closed channel; a
      stream's data channel is open exactly while the stream is in the table; and the
      channel of a client in a stream is open. */
  lemma ChannelsAreSafe(steps: seq<Step>)
    requires Runs(Initial, steps)
    ensures var s := Run(Initial, steps);
            && !s.panicked
            && (forall m :: m in s.streams ==>
                  (s.streams[m].open <==> s.streams[m].id in s.mss && s.mss[s.streams[m].id] == m))
            && (forall m, c :: m in s.streams && c in s.streams[m].clients ==> c in s.clients && s.clients[c].open)
  {
    RunKeeps(Initial, steps);
    var s := Run(Initial, steps);
    forall m | m in s.streams
      ensures s.streams[m].open <==> s.streams[m].id in s.mss && s.mss[s.streams[m].id] == m
      ensures forall c :: c in s.streams[m].clients ==> c in s.clients && s.clients[c].open
    {
      assert StreamOk(s, m);
      forall c | c in s.streams[m].clients
        ensures c in s.clients && s.clients[c].open
      {
        assert ClientOk(s, c);
      }
    }
  }

  /** In every interleaving: what a client has written, is writing and has buffered is
      in order what its stream processed while it was registered; every other message
      was lost to it; and its buffer never exceeds its capacity. */
  lemma DeliveryIsInOrder(steps: seq<Step>, c: ClientId)
    requires Runs(Initial, steps) && c in Run(Initial, steps).clients
    ensures var s := Run(Initial, steps);
            var client := s.clients[c];
            && client.ms in s.streams
            && (client.phase != Joining ==>
                  var stream := s.streams[client.ms];
                  var upto := Offered(client, stream.log, Behind(stream, c));
                  && client.joined <= upto <= |stream.log|
                  && Subsequence(Trail(client), stream.log[client.joined..upto])
                  && |Trail(client)| + client.lost == upto - client.joined
                  && |client.buf| <= client.cap)
  {
    RunKeeps(Initial, steps);
    assert ClientOk(Run(Initial, steps), c);
  }

  // ---- Nobody is stuck ----------------------------------------------------------------------------

  /** Every connection is where it was. */
  predicate SamePhases(s: State, s': State) {
    s.clients.Keys == s'.clients.Keys
    && forall c :: c in s.clients ==>
         s'.clients[c].phase == s.clients[c].phase && s'.clients[c].ms == s.clients[c].ms && s'.clients[c].id == s.clients[c].id
  }

  function ProcRank(p: Proc): nat {
    match p
    case Waiting => 0
    case Copying(_, _) => 1
    case Holding(_) => 2
    case Returned => 3
  }

  function StillToOffer(p: Proc): nat {
    if p.Copying? then |p.left| else 0
  }

  /** Offering a message through the buffer moves no connection. */
  lemma OfferStays(s: State, m: StreamId, c: ClientId)
    requires Inv(s) && Enabled(s, TrySend(m, c, false))
    ensures var s' := Apply(s, TrySend(m, c, false));
            && SamePhases(s, s') && m in s'.streams && s'.senders == s.senders
            && s'.streams[m].proc == Copying(s.streams[m].proc.b, s.streams[m].proc.left - {c})
  {
    assert StreamOk(s, m) && ClientOk(s, c);
  }

  /** The goroutine of `m` has gone on copying, and is nearer to its end. */
  predicate CopyAdvanced(s: State, s': State, m: StreamId) {
    && SamePhases(s, s') && s'.senders == s.senders && m in s.streams && m in s'.streams
    && (s'.streams[m].proc == Waiting
        || (s'.streams[m].proc.Copying? && StillToOffer(s'.streams[m].proc) < StillToOffer(s.streams[m].proc)))
  }

  /** Next step of a goroutine that holds its stream's mutex. */
  lemma NextCopyStep(s: State, m: StreamId) returns (step: Step)
    requires Inv(s) && m in s.streams && s.streams[m].proc.Copying?
    ensures Enabled(s, step) && Inv(Apply(s, step)) && CopyAdvanced(s, Apply(s, step), m)
  {
    var left := s.streams[m].proc.left;
    assert StreamOk(s, m);
    if left == {} {
      step := Unlock(m);
    } else {
      var c :| c in left;
      step := TrySend(m, c, false);
      OfferStays(s, m, c);
    }
    StepKeeps(s, step);
  }

  /** The goroutine of `m` is nearer to taking a message. */
  predicate Advanced(s: State, s': State, m: StreamId) {
    && SamePhases(s, s') && s'.senders == s.senders && m in s.streams && m in s'.streams
    && (ProcRank(s'.streams[m].proc) < ProcRank(s.streams[m].proc)
        || (ProcRank(s'.streams[m].proc) == ProcRank(s.streams[m].proc)
            && StillToOffer(s'.streams[m].proc) < StillToOffer(s.streams[m].proc)))
  }

  lemma StreamOfSender(s: State, k: SenderId)
    requires Inv(s) && k in s.senders && s.senders[k].Pending?
    ensures s.senders[k].ms in s.streams && !s.streams[s.senders[k].ms].proc.Returned?
  {
    assert SenderOk(s, k);
    assert StreamOk(s, s.senders[k].ms);
  }

  /** Next step of the goroutine that a blocked Send waits for, if it is not waiting. */
  lemma NextProcStep(s: State, m: StreamId) returns (step: Step)
    requires Inv(s) && m in s.streams && s.streams[m].proc != Waiting && !s.streams[m].proc.Returned?
    ensures Enabled(s, step) && Inv(Apply(s, step)) && Advanced(s, Apply(s, step), m)
  {
    if s.streams[m].proc.Holding? {
      step := Lock(m);
      StepKeeps(s, step);
    } else {
      step := NextCopyStep(s, m);
    }
  }

  /** From every reachable state, steps of the stream's own goroutine alone complete a
      blocked Send. */
  lemma {:induction false} SendCanComplete(s: State, k: SenderId) returns (steps: seq<Step>)
    requires Inv(s) && k in s.senders && s.senders[k].Pending? && s.senders[k].ms in s.streams
    ensures Runs(s, steps) && Inv(Run(s, steps)) && Run(s, steps).senders == s.senders[k := Returning]
    ensures SamePhases(s, Run(s, steps))
    decreases ProcRank(s.streams[s.senders[k].ms].proc), StillToOffer(s.streams[s.senders[k].ms].proc)
  {
    var m := s.senders[k].ms;
    StreamOfSender(s, k);
    if s.streams[m].proc == Waiting {
      HandoffKeeps(s, k);
      steps := [Handoff(k)];
    } else {
      var step := NextProcStep(s, m);
      var more := SendCanComplete(Apply(s, step), k);
      steps := [step] + more;
    }
  }

  lemma {:induction false} RunConcat(s: State, a: seq<Step>, b: seq<Step>)
    requires Runs(s, a) && Runs(Run(s, a), b)
    ensures Runs(s, a + b) && Run(s, a + b) == Run(Run(s, a), b)
    decreases a
  {
    if |a| == 0 {
      assert a + b == b;
    } else {
      assert (a + b)[0] == a[0] && (a + b)[1..] == a[1..] + b;
      RunConcat(Apply(s, a[0]), a[1..], b);
    }
  }

  /** A Send that has the read lock can give it back. */
  lemma SenderCanReturn(s: State, k: SenderId) returns (steps: seq<Step>)
    requires Inv(s) && k in s.senders
    ensures Runs(s, steps) && Inv(Run(s, steps)) && Run(s, steps).senders == s.senders - {k}
    ensures SamePhases(s, Run(s, steps))
  {
    steps := [];
    if s.senders[k].Pending? {
      StreamOfSender(s, k);
      steps := SendCanComplete(s, k);
    }
    var s1 := Run(s, steps);
    ReturnKeeps(s1, k);
    RunConcat(s, steps, [Return(k)]);
    steps := steps + [Return(k)];
  }

  /** So the router's write lock can always become free, */
  lemma {:induction false} WriteLockCanBecomeFree(s: State) returns (steps: seq<Step>)
    requires Inv(s)
    ensures Runs(s, steps) && Inv(Run(s, steps)) && WriteLockFree(Run(s, steps))
    ensures SamePhases(s, Run(s, steps))
    decreases |s.senders|
  {
    steps := [];
    if s.senders != map[] {
      var k :| k in s.senders;
      steps := SenderCanReturn(s, k);
      var s1 := Run(s, steps);
      assert s1.senders.Keys == s.senders.Keys - {k};
      var more := WriteLockCanBecomeFree(s1);
      RunConcat(s, steps, more);
      steps := steps + more;
    }
  }

  /** and so can a stream's mutex. */
  lemma {:induction false} MutexCanBecomeFree(s: State, m: StreamId) returns (steps: seq<Step>)
    requires Inv(s) && m in s.streams
    ensures Runs(s, steps) && Inv(Run(s, steps)) && MutexFree(Run(s, steps), m)
    ensures SamePhases(s, Run(s, steps))
    decreases StillToOffer(s.streams[m].proc), ProcRank(s.streams[m].proc)
  {
    steps := [];
    if s.streams[m].proc.Copying? {
      var step := NextCopyStep(s, m);
      var more := MutexCanBecomeFree(Apply(s, step), m);
      steps := [step] + more;
    }
  }

  /** No reachable state is a deadlock for a connection that comes or goes: from each, one
      that is joining can be in its loop, and one that is leaving can be gone. */
  lemma ConnectionCanProceed(s: State, c: ClientId) returns (steps: seq<Step>)
    requires Inv(s) && c in s.clients
    requires s.clients[c].phase == Joining || s.clients[c].phase == Leaving || s.clients[c].phase == Closing
    ensures Runs(s, steps) && Inv(Run(s, steps)) && c in Run(s, steps).clients
    ensures Run(s, steps).clients[c].phase == if s.clients[c].phase == Joining then Selecting else Gone
  {
    if s.clients[c].phase == Closing {
      steps := CloserCanGo(s, c);
    } else {
      var step := if s.clients[c].phase == Joining then Add(c) else Remove(c);
      assert ClientOk(s, c);
      steps := MutexCanBecomeFree(s, s.clients[c].ms);
      var s1 := Run(s, steps);
      StepKeeps(s1, step);
      RunConcat(s, steps, [step]);
      steps := steps + [step];
      var s2 := Apply(s1, step);
      if s2.clients[c].phase == Closing {
        var more := CloserCanGo(s2, c);
        RunConcat(s, steps, more);
        steps := steps + more;
      }
    }
  }

  lemma CloserCanGo(s: State, c: ClientId) returns (steps: seq<Step>)
    requires Inv(s) && InPhase(s, c, Closing)
    ensures Runs(s, steps) && Inv(Run(s, steps)) && InPhase(Run(s, steps), c, Gone)
  {
    steps := WriteLockCanBecomeFree(s);
    var s1 := Run(s, steps);
    StepKeeps(s1, CloseIfEmpty(c));
    RunConcat(s, steps, [CloseIfEmpty(c)]);
    steps := steps + [CloseIfEmpty(c)];
  }

  /** The goroutine of a closed stream can always return. */
  lemma {:induction false} StreamCanReturn(s: State, m: StreamId) returns (steps: seq<Step>)
    requires Inv(s) && m in s.streams && !s.streams[m].open
    ensures Runs(s, steps) && Inv(Run(s, steps)) && m in Run(s, steps).streams
    ensures Run(s, steps).streams[m].proc == Returned
    decreases ProcRank(s.streams[m].proc), StillToOffer(s.streams[m].proc)
  {
    var proc := s.streams[m].proc;
    if proc.Returned? {
      steps := [];
    } else if proc == Waiting {
      StepKeeps(s, Exit(m));
      steps := [Exit(m)];
    } else {
      var step := NextProcStep(s, m);
      StaysClosed(s, step, m);
      var more := StreamCanReturn(Apply(s, step), m);
      steps := [step] + more;
    }
  }

  lemma StaysClosed(s: State, step: Step, m: StreamId)
    requires Enabled(s, step) && !Apply(s, step).panicked && m in s.streams && !s.streams[m].open
    ensures m in Apply(s, step).streams && !Apply(s, step).streams[m].open
  {
  }

  // ---- When a connection is over -------------------------------------------------------------------

  predicate Over(s: State, c: ClientId) {
    c in s.clients && (s.clients[c].phase == Leaving || s.clients[c].phase == Closing || s.clients[c].phase == Gone)
  }

  /** A failed write and a cancelled request end a connection. */
  lemma ConnectionEnds(s: State, step: Step, c: ClientId)
    requires Enabled(s, step) && (step == WriteFail(c) || step == Cancel(c))
    ensures Over(Apply(s, step), c)
  {
  }

  lemma StepStaysOver(s: State, step: Step, c: ClientId)
    requires Enabled(s, step) && Over(s, c)
    ensures Over(Apply(s, step), c) && Apply(s, step).clients[c].written == s.clients[c].written
  {
  }

  /** And then nothing more is written to it, whatever happens. */
  lemma {:induction false} NothingAfterTheEnd(s: State, steps: seq<Step>, c: ClientId)
    requires Runs(s, steps) && Over(s, c)
    ensures Over(Run(s, steps), c) && Run(s, steps).clients[c].written == s.clients[c].written
    decreases steps
  {
    if |steps| > 0 {
      StepStaysOver(s, steps[0], c);
      NothingAfterTheEnd(Apply(s, steps[0]), steps[1..], c);
    }
  }

  /** A connection goes on to close its stream exactly when it was the last one in it. */
  lemma OnlyLastCloses(s: State, c: ClientId)
    requires Inv(s) && Enabled(s, Remove(c))
    ensures var s' := Apply(s, Remove(c)); var m := s.clients[c].ms;
            && c in s'.clients && m in s'.streams && s'.streams[m].clients == s.streams[m].clients - {c}
            && s'.clients[c].phase == if s'.streams[m].clients == {} then Closing else Gone
  {
    assert ClientOk(s, c);
  }
}
