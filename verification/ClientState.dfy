/** The Desktop's client of the Agent (desktop/src/local_agent_client.cpp): its handlers as
    functions from state to state. */
module ClientState {
  import opened Prelude
  import opened Framing
  import opened StreamReceiver
  import opened LocalAgentMessages

  const RECONNECT_DELAYS_MS: seq<int> := [500, 1000, 2000, 5000]

  datatype ConnectionState = Disconnected | Connecting | Connected

  datatype SocketState = Unconnected | SocketConnecting | SocketConnected | SocketClosing

  datatype ProtocolError =
    RequestNotSerialized | RequestNotFramed | RequestNotQueued | BadFrameLength | CorruptReply | WrongVersion

  datatype Signal =
    | StateChanged(state: ConnectionState)
    | SnapshotReceived(snapshot: LocalAgentSnapshot)
    | ErrorReported(error: ProtocolError)

  /** The client's members and its socket, with three notes about the run: the reconnect waits since
      the last reset, how many connection attempts were made, and whether a request was written on
      the connection since its last snapshot.

      `upPending` and `downPending` say that the socket has changed state and the client has not
      been told yet. */
  datatype Client = Client(
    running: bool,
    attempt: nat,
    connection: ConnectionState,
    reconnect: Option<int>,
    polling: bool,
    buffer: seq<Byte>,
    socket: SocketState,
    upPending: bool,
    downPending: bool,
    outgoing: seq<Byte>,
    signals: seq<Signal>,
    waits: seq<int>,
    attempts: nat,
    awaiting: bool)

  const INITIAL := Client(false, 0, Disconnected, None, false, [], Unconnected, false, false, [], [], [], 0, false)

  // ----- reading replies -----

  /** What the client makes of one reply payload, and whether it keeps the connection. */
  function ReadReply(w: Wire, payload: seq<Byte>): (Signal, bool) {
    match w.responses.parse(payload)
    case None => (ErrorReported(CorruptReply), false)
    case Some(r) =>
      if r.protocolVersion != PROTOCOL_VERSION then (ErrorReported(WrongVersion), false)
      else (SnapshotReceived(ToLocal(r)), true)
  }

  function ReplyHandler(w: Wire): (nat, seq<Byte>) -> (Signal, bool) {
    (n, payload) => ReadReply(w, payload)
  }

  /** The snapshots among some signals, in order. */
  function Snapshots(signals: seq<Signal>): seq<LocalAgentSnapshot> {
    if signals == [] then []
    else if signals[0].SnapshotReceived? then [signals[0].snapshot] + Snapshots(signals[1..])
    else Snapshots(signals[1..])
  }

  lemma SnapshotsOne(s: Signal)
    ensures Snapshots([s]) == if s.SnapshotReceived? then [s.snapshot] else []
  {
  }

  lemma {:induction false} SnapshotsSplit(a: seq<Signal>, b: seq<Signal>)
    ensures Snapshots(a + b) == Snapshots(a) + Snapshots(b)
    decreases |a|
  {
    if a == [] {
      assert a + b == b;
    } else {
      assert (a + b)[1..] == a[1..] + b;
      SnapshotsSplit(a[1..], b);
    }
  }

  // ----- the handlers -----

  function Emit(c: Client, s: Signal): Client {
    c.(signals := c.signals + [s])
  }

  function SetState(c: Client, s: ConnectionState): Client {
    if c.connection == s then c else Emit(c.(connection := s), StateChanged(s))
  }

  function DelayIndex(attempt: nat): nat {
    Min(attempt, |RECONNECT_DELAYS_MS| - 1)
  }

  function ScheduleReconnect(c: Client): Client
  {
    if !c.running || c.reconnect.Some? then c
    else
      var delay := RECONNECT_DELAYS_MS[DelayIndex(c.attempt)];
      c.(reconnect := Some(delay), waits := c.waits + [delay],
         attempt := if c.attempt < |RECONNECT_DELAYS_MS| - 1 then c.attempt + 1 else c.attempt)
  }

  function HandleDisconnected(c: Client): Client
  {
    ScheduleReconnect(SetState(c.(polling := false, buffer := []), Disconnected))
  }

  function HandleSocketError(c: Client): Client
  {
    var d := c.(polling := false);
    if d.socket == Unconnected then ScheduleReconnect(SetState(d, Disconnected)) else d
  }

  /** `abort()` leaves the socket unconnected; its notification arrives within the call (`now`) or
      later. */
  function Abort(c: Client, now: bool): Client
  {
    if c.socket == Unconnected then c
    else
      var d := c.(socket := Unconnected, upPending := false);
      if now then HandleDisconnected(d.(downPending := false)) else d.(downPending := true)
  }

  /** `queued`: the socket takes the whole frame for writing. */
  function RequestSnapshot(w: Wire, c: Client, queued: bool, now: bool): Client
  {
    if c.socket != SocketConnected then c
    else match w.requests.serialize(REQUEST)
      case None => Emit(c, ErrorReported(RequestNotSerialized))
      case Some(payload) =>
        if !Legal(payload) then Emit(c, ErrorReported(RequestNotFramed))
        else if queued then c.(outgoing := c.outgoing + Frame(payload), awaiting := true)
        else Abort(Emit(c, ErrorReported(RequestNotQueued)), now)
  }

  /** The client as a new connection finds it. */
  function Reset(c: Client): Client {
    c.(reconnect := None, attempt := 0, waits := [], buffer := [], awaiting := false)
  }

  function HandleConnected(w: Wire, c: Client, queued: bool, now: bool): Client {
    RequestSnapshot(w, SetState(Reset(c), Connected).(polling := true), queued, now)
  }

  /** What `connectToServer` does to the socket before it returns. */
  datatype ConnectOutcome = StillConnecting | UpAtOnce(queued: bool, now: bool) | FailedAtOnce | FailedLater

  function ConnectSocket(w: Wire, c: Client, outcome: ConnectOutcome): Client {
    var d := c.(attempts := c.attempts + 1, downPending := false, outgoing := []);
    match outcome
    case StillConnecting => d.(socket := SocketConnecting)
    case UpAtOnce(queued, now) => HandleConnected(w, d.(socket := SocketConnected), queued, now)
    case FailedAtOnce => HandleSocketError(d)
    case FailedLater => d.(downPending := true)
  }

  function ConnectToAgent(w: Wire, c: Client, outcome: ConnectOutcome): Client {
    if !c.running || c.socket != Unconnected then c
    else ConnectSocket(w, SetState(c, Connecting), outcome)
  }

  function ReconnectTimeout(w: Wire, c: Client, outcome: ConnectOutcome): Client {
    ConnectToAgent(w, c.(reconnect := None), outcome)
  }

  function Start(w: Wire, c: Client, outcome: ConnectOutcome): Client {
    if c.running then c
    else ConnectToAgent(w, c.(running := true, attempt := 0, waits := []), outcome)
  }

  function Stop(c: Client, now: bool): Client
  {
    var d := c.(running := false, reconnect := None, polling := false, buffer := []);
    SetState(Abort(d, now), Disconnected)
  }

  /** The decode loop: the client takes every whole reply off its buffer, emitting what each one
      says, until one makes it report an error and abort. */
  function TakeReplies(w: Wire, c: Client, now: bool): Client {
    var r := Receive(ReplyHandler(w), 0, c.buffer);
    EndOfPass(AfterReplies(c, r.outputs, r.rest), r.verdict, now)
  }

  function EndOfPass(c: Client, verdict: Verdict, now: bool): Client {
    match verdict
    case Open => c
    case BadLength => Abort(Emit(c, ErrorReported(BadFrameLength)), now)
    case Rejected => Abort(c, now)
  }

  function AfterReplies(c: Client, outputs: seq<Signal>, rest: seq<Byte>): Client {
    c.(buffer := rest, signals := c.signals + outputs, awaiting := c.awaiting && Snapshots(outputs) == [])
  }

  function HandleReadyRead(w: Wire, c: Client, bytes: seq<Byte>, now: bool): Client {
    TakeReplies(w, c.(buffer := c.buffer + bytes), now)
  }

  // ----- the decode loop, reply by reply -----

  lemma {:induction false} IndexDoesNotMatter(w: Wire, m: nat, n: nat, b: seq<Byte>)
    ensures Receive(ReplyHandler(w), m, b) == Receive(ReplyHandler(w), n, b)
    decreases |b|
  {
    hide ReadReply;
    var d := TryDecodeFrame(b);
    if d.status == Complete {
      IndexDoesNotMatter(w, m + 1, n + 1, b[d.consumed..]);
    }
  }

  lemma NoReply(w: Wire, c: Client, now: bool)
    requires TryDecodeFrame(c.buffer).status != Complete
    ensures TakeReplies(w, c, now) ==
      if TryDecodeFrame(c.buffer).status == Incomplete then c else Abort(Emit(c, ErrorReported(BadFrameLength)), now)
  {
    hide Abort;
    assert c.signals + [] == c.signals;
  }

  /** The client with one reply payload taken off its buffer and read. */
  function OneReply(w: Wire, c: Client, payload: seq<Byte>, now: bool): Client {
    var (out, keep) := ReadReply(w, payload);
    if keep then Emit(c, out).(awaiting := false) else Abort(Emit(c, out), now)
  }

  lemma TakeOneReply(w: Wire, c: Client, now: bool)
    requires TryDecodeFrame(c.buffer).status == Complete
    ensures var f := TryDecodeFrame(c.buffer);
      var next := OneReply(w, c.(buffer := c.buffer[f.consumed..]), f.payload, now);
      TakeReplies(w, c, now) == if ReadReply(w, f.payload).1 then TakeReplies(w, next, now) else next
  {
    hide Abort, TryDecodeFrame, AfterReplies, ReadReply, ReplyHandler, Receive, Emit;
    var f := TryDecodeFrame(c.buffer);
    var rest := c.buffer[f.consumed..];
    var (out, keep) := ReadReply(w, f.payload);
    ReadReplyShape(w, f.payload);
    ReceiveOneReply(w, c.buffer);
    EmitKeeps(c.(buffer := rest), out);
    if keep {
      var r := Receive(ReplyHandler(w), 0, rest);
      AfterOne(c, rest, out, r.outputs, r.rest);
    } else {
      AfterOne(c, rest, out, [], rest);
      AfterNone(Emit(c.(buffer := rest), out));
    }
  }

  /** What the first reply in the buffer comes to. Only a payload that parses, of protocol version 1,
      is signalled as a snapshot; any other is reported as an error and ends the connection. */
  lemma FirstReplyDecides(w: Wire, c: Client, now: bool)
    requires TryDecodeFrame(c.buffer).status == Complete
    ensures var f := TryDecodeFrame(c.buffer);
      var (reply, rest) := (w.responses.parse(f.payload), c.(buffer := c.buffer[f.consumed..]));
      var d := TakeReplies(w, c, now);
      if reply.Some? && reply.value.protocolVersion == 1 then
        d == TakeReplies(w, Emit(rest, SnapshotReceived(ToLocal(reply.value))).(awaiting := false), now)
      else
        && d == Abort(Emit(rest, ErrorReported(if reply.None? then CorruptReply else WrongVersion)), now)
        && d.socket == Unconnected && Snapshots(d.signals) == Snapshots(c.signals)
  {
    hide TryDecodeFrame, TakeReplies, Emit, Abort, Snapshots;
    var f := TryDecodeFrame(c.buffer);
    TakeOneReply(w, c, now);
    var (out, rest) := (ReadReply(w, f.payload).0, c.(buffer := c.buffer[f.consumed..]));
    SnapshotsSplit(c.signals, [out]);
    SnapshotsOne(out);
    AbortTellsNoSnapshot(Emit(rest, out), now);
    EmitSignals(rest, out);
  }

  lemma EmitSignals(c: Client, s: Signal)
    ensures Emit(c, s).signals == c.signals + [s]
  {
  }

  lemma AbortTellsNoSnapshot(c: Client, now: bool)
    ensures Abort(c, now).socket == Unconnected && Snapshots(Abort(c, now).signals) == Snapshots(c.signals)
  {
    SnapshotsSplit(c.signals, [StateChanged(Disconnected)]);
    SnapshotsOne(StateChanged(Disconnected));
    assert c.signals + [] == c.signals;
  }

  /** How a pass over the buffer leaves the connection: unconnected if anything was wrong, a bad frame
      length being reported as that; otherwise as it was, with the incomplete rest buffered. */
  lemma PassDecides(w: Wire, c: Client, now: bool)
    ensures var (r, d) := (Receive(ReplyHandler(w), 0, c.buffer), TakeReplies(w, c, now));
      && (r.verdict == Open ==>
            && d.socket == c.socket && d.connection == c.connection && d.polling == c.polling && d.buffer == r.rest
            && d.signals == c.signals + r.outputs)
      && (r.verdict != Open ==> d.socket == Unconnected)
      && (r.verdict == BadLength ==> c.signals + r.outputs + [ErrorReported(BadFrameLength)] <= d.signals)
      && (r.verdict == Rejected ==> c.signals + r.outputs <= d.signals)
      && Snapshots(d.signals) == Snapshots(c.signals) + Snapshots(r.outputs)
  {
    hide Receive, ReplyHandler, Snapshots, Abort;
    var r := Receive(ReplyHandler(w), 0, c.buffer);
    var d := AfterReplies(c, r.outputs, r.rest);
    SnapshotsSplit(c.signals, r.outputs);
    if r.verdict != Open {
      var e := if r.verdict == BadLength then Emit(d, ErrorReported(BadFrameLength)) else d;
      SnapshotsSplit(d.signals, [ErrorReported(BadFrameLength)]);
      SnapshotsOne(ErrorReported(BadFrameLength));
      assert d.signals + [] == d.signals;
      assert Snapshots([]) == [] by { SnapshotsNone(); }
      AbortTellsNoSnapshot(e, now);
      AbortKeepsSignals(e, now);
    }
  }

  lemma SnapshotsNone()
    ensures Snapshots([]) == []
  {
  }

  lemma AbortKeepsSignals(c: Client, now: bool)
    ensures c.signals <= Abort(c, now).signals
  {
  }

  lemma EmitKeeps(c: Client, s: Signal)
    ensures Emit(c, s).buffer == c.buffer && Emit(c, s).(awaiting := c.awaiting) == Emit(c, s)
  {
  }

  lemma ReadReplyShape(w: Wire, payload: seq<Byte>)
    ensures ReadReply(w, payload).1 <==> ReadReply(w, payload).0.SnapshotReceived?
  {
  }

  lemma ReceiveOneReply(w: Wire, b: seq<Byte>)
    requires TryDecodeFrame(b).status == Complete
    ensures var f := TryDecodeFrame(b);
      var (out, keep) := ReadReply(w, f.payload);
      var q := Receive(ReplyHandler(w), 0, b[f.consumed..]);
      Receive(ReplyHandler(w), 0, b) ==
        if keep then Received([out] + q.outputs, q.rest, q.verdict) else Received([out] + [], b[f.consumed..], Rejected)
  {
    hide TryDecodeFrame, ReadReply;
    var f := TryDecodeFrame(b);
    IndexDoesNotMatter(w, 0, 1, b[f.consumed..]);
    var (out, keep) := ReadReply(w, f.payload);
    assert ReplyHandler(w)(0, f.payload) == (out, keep);
    assert [out] + [] == [out];
  }

  lemma AfterOne(c: Client, taken: seq<Byte>, out: Signal, outputs: seq<Signal>, rest: seq<Byte>)
    ensures AfterReplies(c, [out] + outputs, rest) ==
      AfterReplies(Emit(c.(buffer := taken), out).(awaiting := c.awaiting && !out.SnapshotReceived?), outputs, rest)
  {
    SnapshotsOne(out);
    SnapshotsSplit([out], outputs);
    assert c.signals + ([out] + outputs) == c.signals + [out] + outputs;
  }

  lemma AfterNone(c: Client)
    ensures AfterReplies(c, [], c.buffer) == c
  {
    assert c.signals + [] == c.signals;
  }
}
