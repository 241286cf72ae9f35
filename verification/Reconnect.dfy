/** The reconnect logic of the Desktop client under every order of events: calls by the
    application, timers, and the state changes and notifications of the socket. */
module Reconnect {
  import opened Prelude
  import opened LocalAgentMessages
  import Framing
  import opened ClientState

  datatype Event =
    | StartCalled(outcome: ConnectOutcome)
    | StopCalled(now: bool)
    | RequestCalled(queued: bool, now: bool)
    | ReconnectTimerFires(outcome: ConnectOutcome)
    | PollTimerFires(queued: bool, now: bool)
    | SocketComesUp
    | SocketStartsClosing
    | SocketGoesDown
    | ConnectedNotified(queued: bool, now: bool)
    | DisconnectedNotified
    | ErrorNotified
    | BytesReady(bytes: seq<Byte>, now: bool)

  /** When an event can happen. Timers fire while active. The socket tells of a state it is in:
      `connected` once and while still connected, `disconnected` while unconnected, data only on a
      connection the client knows to be up. An error may be told at any time. */
  predicate Enabled(c: Client, e: Event) {
    match e
    case ReconnectTimerFires(_) => c.reconnect.Some?
    case PollTimerFires(_, _) => c.polling
    case SocketComesUp => c.socket == SocketConnecting
    case SocketStartsClosing => c.socket == SocketConnected && !c.upPending
    case SocketGoesDown => c.socket != Unconnected
    case ConnectedNotified(_, _) => c.upPending
    case DisconnectedNotified => c.socket == Unconnected
    case BytesReady(_, _) => c.socket in {SocketConnected, SocketClosing} && !c.upPending
    case _ => true
  }

  function Step(w: Wire, c: Client, e: Event): Client {
    if !Enabled(c, e) then c
    else match e
      case StartCalled(outcome) => Start(w, c, outcome)
      case StopCalled(now) => Stop(c, now)
      case RequestCalled(queued, now) => RequestSnapshot(w, c, queued, now)
      case ReconnectTimerFires(outcome) => ReconnectTimeout(w, c, outcome)
      case PollTimerFires(queued, now) => RequestSnapshot(w, c, queued, now)
      case SocketComesUp => c.(socket := SocketConnected, upPending := true)
      case SocketStartsClosing => c.(socket := SocketClosing)
      case SocketGoesDown => c.(socket := Unconnected, upPending := false, downPending := true)
      case ConnectedNotified(queued, now) => HandleConnected(w, c.(upPending := false), queued, now)
      case DisconnectedNotified => HandleDisconnected(c.(downPending := false))
      case ErrorNotified => HandleSocketError(if c.socket == Unconnected then c.(downPending := false) else c)
      case BytesReady(bytes, now) => HandleReadyRead(w, c, bytes, now)
  }

  function Run(w: Wire, c: Client, events: seq<Event>): Client
    decreases |events|
  {
    if events == [] then c else Run(w, Step(w, c, events[0]), events[1..])
  }

  /** Running and unconnected with nothing left to be told: a reconnect is due. A reconnect is due
      only then. */
  predicate ReconnectInv(c: Client) {
    && (c.running && c.socket == Unconnected && !c.downPending ==> c.reconnect.Some?)
    && (c.reconnect.Some? ==> c.running && c.socket == Unconnected && c.connection == Disconnected)
  }

  /** The reported state follows the socket, up to what has not been told yet. */
  predicate StateInv(c: Client) {
    && (c.upPending ==> c.socket == SocketConnected && c.connection == Connecting)
    && (c.socket == SocketConnecting ==> c.connection == Connecting)
    && (c.socket in {SocketConnected, SocketClosing} && !c.upPending ==> c.connection == Connected)
    && (c.socket == Unconnected && !c.downPending ==> c.connection == Disconnected)
  }

  predicate PollInv(c: Client) {
    c.polling ==> c.connection == Connected
  }

  predicate StoppedInv(c: Client) {
    !c.running ==>
      c.reconnect.None? && !c.polling && c.buffer == [] && c.connection == Disconnected && c.socket == Unconnected
  }

  /** The k-th wait since the last reset is the k-th delay, the last delay repeating. */
  predicate BackoffInv(c: Client) {
    && c.attempt == Min(|c.waits|, |RECONNECT_DELAYS_MS| - 1)
    && forall k :: 0 <= k < |c.waits| ==> c.waits[k] == RECONNECT_DELAYS_MS[DelayIndex(k)]
  }

  /** A reconnect that is due waits for the last of these delays; a connection reported as up has
      ended the series. */
  predicate DueInv(c: Client) {
    && (c.reconnect.Some? ==> c.waits != [] && c.reconnect.value == c.waits[|c.waits| - 1])
    && (c.connection == Connected ==> c.waits == [])
  }

  predicate Inv(c: Client) {
    ReconnectInv(c) && StateInv(c) && PollInv(c) && StoppedInv(c) && BackoffInv(c) && DueInv(c)
  }

  /** What every state between `socket went down` and its notification keeps. */
  predicate Down(c: Client) {
    && c.socket == Unconnected && !c.upPending && c.reconnect.None?
    && PollInv(c) && BackoffInv(c) && c.running
  }

  lemma ScheduleKeepsInv(c: Client)
    requires BackoffInv(c) && DueInv(c) && c.connection != Connected
    ensures BackoffInv(ScheduleReconnect(c)) && DueInv(ScheduleReconnect(c))
    ensures c.running ==> ScheduleReconnect(c).reconnect.Some?
  {
  }

  lemma DisconnectedKeepsInv(c: Client)
    requires Inv(c) || Down(c)
    requires c.socket == Unconnected
    ensures Inv(HandleDisconnected(c.(downPending := false)))
  {
    hide BackoffInv;
    var d := SetState(c.(polling := false, buffer := [], downPending := false), Disconnected);
    BackoffIsOf(c, d);
    ScheduleKeepsInv(d);
    BackoffIsOf(ScheduleReconnect(d), HandleDisconnected(c.(downPending := false)));
  }

  lemma ErrorKeepsInv(c: Client)
    requires Inv(c) || Down(c)
    ensures Inv(HandleSocketError(if c.socket == Unconnected then c.(downPending := false) else c))
  {
    hide BackoffInv;
    if c.socket == Unconnected {
      var d := SetState(c.(polling := false, downPending := false), Disconnected);
      BackoffIsOf(c, d);
      ScheduleKeepsInv(d);
    } else {
      BackoffIsOf(c, c.(polling := false));
    }
  }

  /** The backoff is a matter of the counter and the waits alone. */
  lemma BackoffIsOf(c: Client, d: Client)
    requires BackoffInv(c) && c.attempt == d.attempt && c.waits == d.waits
    ensures BackoffInv(d)
  {
  }

  lemma AbortKeepsInv(c: Client, now: bool)
    requires Inv(c)
    ensures Inv(Abort(c, now))
  {
    if c.socket != Unconnected && now {
      var d := c.(socket := Unconnected, upPending := false);
      assert Down(d);
      DisconnectedKeepsInv(d);
    }
  }

  lemma EmitKeepsInv(c: Client, s: Signal)
    ensures Inv(Emit(c, s)) == Inv(c)
  {
  }

  lemma RequestKeepsInv(w: Wire, c: Client, queued: bool, now: bool)
    requires Inv(c)
    ensures Inv(RequestSnapshot(w, c, queued, now))
  {
    hide Abort, Emit;
    EmitKeepsInv(c, ErrorReported(RequestNotSerialized));
    EmitKeepsInv(c, ErrorReported(RequestNotFramed));
    EmitKeepsInv(c, ErrorReported(RequestNotQueued));
    var error := Emit(c, ErrorReported(RequestNotQueued));
    AbortKeepsInv(error, now);
  }

  lemma ConnectedKeepsInv(w: Wire, c: Client, queued: bool, now: bool)
    requires c.running && c.socket == SocketConnected && !c.upPending
    ensures Inv(HandleConnected(w, c, queued, now))
  {
    hide RequestSnapshot;
    RequestKeepsInv(w, SetState(Reset(c), Connected).(polling := true), queued, now);
  }

  lemma ConnectKeepsInv(w: Wire, c: Client, outcome: ConnectOutcome)
    requires c.running && c.socket == Unconnected && !c.upPending && c.reconnect.None?
    requires PollInv(c) && BackoffInv(c) && c.connection == Disconnected
    ensures Inv(ConnectToAgent(w, c, outcome))
  {
    hide HandleConnected, HandleSocketError;
    var d := SetState(c, Connecting).(attempts := c.attempts + 1, downPending := false, outgoing := []);
    match outcome
    case StillConnecting =>
    case UpAtOnce(queued, now) => ConnectedKeepsInv(w, d.(socket := SocketConnected), queued, now);
    case FailedAtOnce =>
      assert Down(d);
      ErrorKeepsInv(d);
    case FailedLater =>
  }

  lemma StopKeepsInv(c: Client, now: bool)
    requires Inv(c)
    ensures Inv(Stop(c, now)) && !Stop(c, now).running
  {
    hide ScheduleReconnect, HandleDisconnected;
    var d := c.(running := false, reconnect := None, polling := false, buffer := []);
    if c.socket != Unconnected && now {
      var down := d.(socket := Unconnected, upPending := false, downPending := false);
      StoppedDisconnect(down);
    }
  }

  /** `handle_disconnected` on a stopped client only puts out its buffer, poll timer and state. */
  lemma StoppedDisconnect(c: Client)
    requires !c.running
    ensures HandleDisconnected(c) == SetState(c.(polling := false, buffer := []), Disconnected)
  {
  }

  lemma TakeRepliesKeepsInv(w: Wire, c: Client, now: bool)
    requires Inv(c) && c.running
    ensures Inv(TakeReplies(w, c, now))
  {
    hide Abort, StreamReceiver.Receive, ReplyHandler;
    var r := StreamReceiver.Receive(ReplyHandler(w), 0, c.buffer);
    var d := AfterReplies(c, r.outputs, r.rest);
    AbortKeepsInv(d, now);
    AbortKeepsInv(Emit(d, ErrorReported(BadFrameLength)), now);
  }

  lemma StepKeepsInv(w: Wire, c: Client, e: Event)
    requires Inv(c)
    ensures Inv(Step(w, c, e))
  {
    hide Start, Stop, RequestSnapshot, ReconnectTimeout, HandleConnected, HandleDisconnected, HandleSocketError,
      ConnectToAgent, TakeReplies;
    if Enabled(c, e) {
      match e
      case StartCalled(outcome) => StartKeepsInv(w, c, outcome);
      case StopCalled(now) => StopKeepsInv(c, now);
      case RequestCalled(queued, now) => RequestKeepsInv(w, c, queued, now);
      case ReconnectTimerFires(outcome) => TimeoutKeepsInv(w, c, outcome);
      case PollTimerFires(queued, now) => RequestKeepsInv(w, c, queued, now);
      case SocketComesUp =>
      case SocketStartsClosing =>
      case SocketGoesDown =>
      case ConnectedNotified(queued, now) => ConnectedKeepsInv(w, c.(upPending := false), queued, now);
      case DisconnectedNotified => DisconnectedKeepsInv(c);
      case ErrorNotified => ErrorKeepsInv(c);
      case BytesReady(bytes, now) => TakeRepliesKeepsInv(w, c.(buffer := c.buffer + bytes), now);
    }
  }

  lemma StartKeepsInv(w: Wire, c: Client, outcome: ConnectOutcome)
    requires Inv(c)
    ensures Inv(Start(w, c, outcome))
  {
    hide ConnectToAgent;
    if !c.running {
      ConnectKeepsInv(w, c.(running := true, attempt := 0, waits := []), outcome);
    }
  }

  lemma TimeoutKeepsInv(w: Wire, c: Client, outcome: ConnectOutcome)
    requires Inv(c) && c.reconnect.Some?
    ensures Inv(ReconnectTimeout(w, c, outcome))
  {
    hide ConnectToAgent;
    ConnectKeepsInv(w, c.(reconnect := None), outcome);
  }

  lemma {:induction false} RunKeepsInv(w: Wire, c: Client, events: seq<Event>)
    requires Inv(c)
    ensures Inv(Run(w, c, events))
    decreases |events|
  {
    hide Step;
    if events != [] {
      StepKeepsInv(w, c, events[0]);
      RunKeepsInv(w, Step(w, c, events[0]), events[1..]);
    }
  }

  // ----- what follows for every run -----

  lemma InitialInv()
    ensures Inv(INITIAL)
  {
  }

  /** In every run: while the client is running and its socket is unconnected with nothing left to
      be told, a reconnect is due; a reconnect is due only then; polling goes on only on a connection
      reported as up; and a stopped client is fully at rest. */
  lemma EveryRunIsSafe(w: Wire, events: seq<Event>)
    ensures var c := Run(w, INITIAL, events);
      && (c.running && c.socket == Unconnected && !c.downPending ==> c.reconnect.Some?)
      && (c.reconnect.Some? ==> c.running && c.socket == Unconnected && c.connection == Disconnected)
      && (c.polling ==> c.connection == Connected)
      && (!c.running ==> c.reconnect.None? && !c.polling && c.buffer == [] && c.connection == Disconnected)
      && 0 <= c.attempt < |RECONNECT_DELAYS_MS|
  {
    InitialInv();
    RunKeepsInv(w, INITIAL, events);
  }

  /** No lost reconnect: where one is called for, the timer can fire, and firing makes the attempt. */
  lemma ReconnectHappens(w: Wire, events: seq<Event>, outcome: ConnectOutcome)
    ensures var c := Run(w, INITIAL, events);
      c.running && c.socket == Unconnected && !c.downPending ==>
        && Enabled(c, ReconnectTimerFires(outcome))
        && Step(w, c, ReconnectTimerFires(outcome)).attempts == c.attempts + 1
  {
    hide Step;
    EveryRunIsSafe(w, events);
    var c := Run(w, INITIAL, events);
    if c.running && c.socket == Unconnected && !c.downPending {
      ConnectCountsOne(w, c.(reconnect := None), outcome);
      TimerStep(w, c, outcome);
    }
  }

  /** A start makes the first attempt of a new series: if that fails at once, the least wait follows. */
  lemma StartBeginsAnew(w: Wire, events: seq<Event>, outcome: ConnectOutcome)
    ensures var c := Run(w, INITIAL, events);
      var d := Step(w, c, StartCalled(outcome));
      !c.running ==> d.running && d.attempts == c.attempts + 1 && (d.waits == [] || d.waits == [500])
  {
    hide ConnectToAgent;
    InitialInv();
    RunKeepsInv(w, INITIAL, events);
    var c := Run(w, INITIAL, events);
    if !c.running {
      var started := c.(running := true, attempt := 0, waits := []);
      ConnectCountsOne(w, started, outcome);
      FirstAttemptWaits(w, started, outcome);
    }
  }

  /** At the start of a series, or after its first wait has begun. */
  predicate AtMostOneWait(c: Client) {
    && c.running
    && ((c.waits == [] && c.attempt == 0 && c.reconnect.None?) || (c.waits == [500] && c.reconnect.Some?))
  }

  lemma LossWaitsOnce(c: Client)
    requires AtMostOneWait(c)
    ensures AtMostOneWait(HandleDisconnected(c)) && AtMostOneWait(HandleSocketError(c))
  {
  }

  lemma RequestWaitsOnce(w: Wire, c: Client, queued: bool, now: bool)
    requires AtMostOneWait(c)
    ensures AtMostOneWait(RequestSnapshot(w, c, queued, now))
  {
    hide Framing.Legal, Framing.Frame, Abort;
    AbortWaitsOnce(Emit(c, ErrorReported(RequestNotQueued)), now);
  }

  lemma AbortWaitsOnce(c: Client, now: bool)
    requires AtMostOneWait(c)
    ensures AtMostOneWait(Abort(c, now))
  {
    hide HandleDisconnected, HandleSocketError;
    LossWaitsOnce(c.(socket := Unconnected, upPending := false, downPending := false));
  }

  lemma FirstAttemptWaits(w: Wire, c: Client, outcome: ConnectOutcome)
    requires c.running && c.socket == Unconnected && c.attempt == 0 && c.waits == [] && c.reconnect.None?
    ensures AtMostOneWait(ConnectToAgent(w, c, outcome))
  {
    hide RequestSnapshot, HandleSocketError;
    var d := SetState(c, Connecting).(attempts := c.attempts + 1, downPending := false, outgoing := []);
    match outcome
    case UpAtOnce(queued, now) =>
      RequestWaitsOnce(w, SetState(Reset(d.(socket := SocketConnected)), Connected).(polling := true), queued, now);
    case FailedAtOnce => LossWaitsOnce(d);
    case _ =>
  }

  /** A new connection, a poll and a call all send the one version-1 request, in one frame, where the
      socket takes it. */
  lemma AskingSendsOneRequest(w: Wire, c: Client, e: Event)
    requires Lawful(w) && c.socket == SocketConnected && Enabled(c, e)
    requires (e.ConnectedNotified? || e.PollTimerFires? || e.RequestCalled?) && e.queued
    ensures var (d, request) := (Step(w, c, e), w.requests.serialize(SnapshotRequest(1)));
      && request.Some? && Framing.Legal(request.value)
      && d.outgoing == c.outgoing + Framing.Frame(request.value) && d.awaiting && d.socket == SocketConnected
  {
    hide Framing.Legal, Framing.Frame;
  }

  lemma TimerStep(w: Wire, c: Client, outcome: ConnectOutcome)
    requires c.reconnect.Some?
    ensures Step(w, c, ReconnectTimerFires(outcome)) == ConnectToAgent(w, c.(reconnect := None), outcome)
  {
    hide ConnectToAgent;
  }

  lemma RequestCountsNone(w: Wire, c: Client, queued: bool, now: bool)
    ensures RequestSnapshot(w, c, queued, now).attempts == c.attempts
  {
    hide Abort, Framing.Legal, Framing.Frame;
    AbortCountsNone(Emit(c, ErrorReported(RequestNotQueued)), now);
  }

  lemma AbortCountsNone(c: Client, now: bool)
    ensures Abort(c, now).attempts == c.attempts
  {
    hide HandleDisconnected;
    LossCountsNone(c.(socket := Unconnected, upPending := false, downPending := false));
  }

  lemma TakeRepliesCountsNone(w: Wire, c: Client, now: bool)
    ensures TakeReplies(w, c, now).attempts == c.attempts
  {
    hide Abort, StreamReceiver.Receive, ReplyHandler;
    var r := StreamReceiver.Receive(ReplyHandler(w), 0, c.buffer);
    var d := AfterReplies(c, r.outputs, r.rest);
    AbortCountsNone(d, now);
    AbortCountsNone(Emit(d, ErrorReported(BadFrameLength)), now);
  }

  lemma StopCountsNone(c: Client, now: bool)
    ensures Stop(c, now).attempts == c.attempts
  {
    hide Abort;
    AbortCountsNone(c.(running := false, reconnect := None, polling := false, buffer := []), now);
  }

  lemma LossCountsNone(c: Client)
    ensures HandleDisconnected(c).attempts == c.attempts
  {
  }

  lemma ErrorCountsNone(c: Client)
    ensures HandleSocketError(c).attempts == c.attempts
  {
  }

  lemma ConnectCountsOne(w: Wire, c: Client, outcome: ConnectOutcome)
    ensures ConnectToAgent(w, c, outcome).attempts
         == c.attempts + if c.running && c.socket == Unconnected then 1 else 0
  {
    hide HandleConnected, HandleSocketError;
    var d := SetState(c, Connecting).(attempts := c.attempts + 1, downPending := false, outgoing := []);
    match outcome
    case UpAtOnce(queued, now) => ConnectedCountsNone(w, d.(socket := SocketConnected), queued, now);
    case FailedAtOnce => ErrorCountsNone(d);
    case _ =>
  }

  lemma ConnectedCountsNone(w: Wire, c: Client, queued: bool, now: bool)
    ensures HandleConnected(w, c, queued, now).attempts == c.attempts
  {
    hide RequestSnapshot;
    RequestCountsNone(w, SetState(Reset(c), Connected).(polling := true), queued, now);
  }

  /** A single attempt at a time: only an unconnected socket is asked to connect, once per event. */
  lemma SingleAttempt(w: Wire, c: Client, e: Event)
    ensures var d := Step(w, c, e);
      && c.attempts <= d.attempts <= c.attempts + 1
      && (d.attempts == c.attempts + 1 ==>
            c.socket == Unconnected && (e.ReconnectTimerFires? || (e.StartCalled? && !c.running)))
  {
    hide ConnectToAgent, RequestSnapshot, HandleConnected, TakeReplies, Stop, HandleDisconnected, HandleSocketError;
    match e
    case StopCalled(now) => StopCountsNone(c, now);
    case BytesReady(bytes, now) => TakeRepliesCountsNone(w, c.(buffer := c.buffer + bytes), now);
    case StartCalled(outcome) => ConnectCountsOne(w, c.(running := true, attempt := 0, waits := []), outcome);
    case ReconnectTimerFires(outcome) => ConnectCountsOne(w, c.(reconnect := None), outcome);
    case RequestCalled(queued, now) => RequestCountsNone(w, c, queued, now);
    case PollTimerFires(queued, now) => RequestCountsNone(w, c, queued, now);
    case ConnectedNotified(queued, now) => ConnectedCountsNone(w, c.(upPending := false), queued, now);
    case DisconnectedNotified => LossCountsNone(c.(downPending := false));
    case ErrorNotified => ErrorCountsNone(if c.socket == Unconnected then c.(downPending := false) else c);
    case _ =>
  }

  /** After a stop the client stays at rest, whatever happens, until it is started again. */
  lemma {:induction false} StoppedStaysStopped(w: Wire, c: Client, events: seq<Event>)
    requires Inv(c) && !c.running
    requires forall i :: 0 <= i < |events| ==> !events[i].StartCalled?
    ensures var d := Run(w, c, events);
      !d.running && d.reconnect.None? && !d.polling && d.buffer == [] && d.connection == Disconnected
    decreases |events|
  {
    if events != [] {
      StepKeepsInv(w, c, events[0]);
      assert !Step(w, c, events[0]).running;
      StoppedStaysStopped(w, Step(w, c, events[0]), events[1..]);
    }
  }

  /** Two notifications of one loss, in either order, schedule one wait and advance the counter
      once. */
  lemma OneLossOneWait(c: Client)
    requires Down(c)
    ensures var (e, d) := (HandleSocketError(c), HandleDisconnected(c));
      && HandleDisconnected(e).waits == e.waits && HandleDisconnected(e).attempt == e.attempt
      && HandleSocketError(d).waits == d.waits && HandleSocketError(d).attempt == d.attempt
      && e.waits == d.waits == c.waits + [RECONNECT_DELAYS_MS[DelayIndex(|c.waits|)]]
  {
    hide HandleDisconnected, HandleSocketError;
    FirstNotice(c);
    SecondNotice(HandleSocketError(c));
    SecondNotice(HandleDisconnected(c));
  }

  lemma FirstNotice(c: Client)
    requires Down(c)
    ensures var (e, d) := (HandleSocketError(c), HandleDisconnected(c));
      && e.reconnect.Some? && d.reconnect.Some?
      && e.waits == d.waits == c.waits + [RECONNECT_DELAYS_MS[DelayIndex(|c.waits|)]]
  {
  }

  lemma SecondNotice(c: Client)
    requires c.reconnect.Some?
    ensures HandleDisconnected(c).waits == c.waits && HandleDisconnected(c).attempt == c.attempt
    ensures HandleSocketError(c).waits == c.waits && HandleSocketError(c).attempt == c.attempt
  {
  }

  /** `handle_disconnected` is safe exactly when it runs before the socket has moved on: told late,
      of a socket that is connecting again, it starts a second reconnect beside the attempt. */
  lemma LateDisconnectIsUnsafe(c: Client)
    requires Inv(c)
    ensures ReconnectInv(HandleDisconnected(c.(downPending := false))) <==> c.socket == Unconnected
  {
  }

  // ----- polling -----

  lemma AbortLeavesPolling(c: Client, now: bool)
    ensures var d := Abort(c, now); d.connection == Connected ==> d.polling == c.polling && c.connection == Connected
  {
  }

  lemma RequestLeavesPolling(w: Wire, c: Client, queued: bool, now: bool)
    ensures var d := RequestSnapshot(w, c, queued, now);
      d.connection == Connected ==> d.polling == c.polling && c.connection == Connected
  {
    hide Abort, Framing.Legal, Framing.Frame;
    AbortLeavesPolling(Emit(c, ErrorReported(RequestNotQueued)), now);
  }

  lemma RepliesLeavePolling(w: Wire, c: Client, now: bool)
    ensures var d := TakeReplies(w, c, now);
      d.connection == Connected ==> d.polling == c.polling && c.connection == Connected
  {
    hide Abort, StreamReceiver.Receive, ReplyHandler;
    var r := StreamReceiver.Receive(ReplyHandler(w), 0, c.buffer);
    var d := AfterReplies(c, r.outputs, r.rest);
    AbortLeavesPolling(d, now);
    AbortLeavesPolling(Emit(d, ErrorReported(BadFrameLength)), now);
  }

  lemma ConnectedStartsPolling(w: Wire, c: Client, queued: bool, now: bool)
    ensures var d := HandleConnected(w, c, queued, now); d.connection == Connected ==> d.polling
  {
    hide RequestSnapshot;
    RequestLeavesPolling(w, SetState(Reset(c), Connected).(polling := true), queued, now);
  }

  lemma ConnectStartsPolling(w: Wire, c: Client, outcome: ConnectOutcome)
    requires c.connection != Connected
    ensures var d := ConnectToAgent(w, c, outcome); d.connection == Connected ==> d.polling
  {
    hide HandleConnected, HandleSocketError;
    var d := SetState(c, Connecting).(attempts := c.attempts + 1, downPending := false, outgoing := []);
    if c.socket == Unconnected {
      match outcome
      case UpAtOnce(queued, now) => ConnectedStartsPolling(w, d.(socket := SocketConnected), queued, now);
      case FailedAtOnce => ErrorReportsDisconnected(d);
      case _ =>
    }
  }

  lemma ErrorReportsDisconnected(c: Client)
    requires c.socket == Unconnected
    ensures HandleSocketError(c).connection == Disconnected
  {
  }

  lemma LossReportsDisconnected(c: Client)
    ensures HandleDisconnected(c).connection == Disconnected
  {
  }

  /** What one event leaves of polling on a connection reported as up: a connection just reported is
      polled, and on one that stays reported nothing but an error changes it. */
  lemma StepPolling(w: Wire, c: Client, e: Event)
    requires Inv(c)
    ensures var d := Step(w, c, e);
      d.connection == Connected ==>
        d.polling == if c.connection == Connected then c.polling && !e.ErrorNotified? else true
  {
    hide ConnectToAgent, RequestSnapshot, HandleConnected, TakeReplies, Abort, HandleDisconnected;
    match e
    case StartCalled(outcome) =>
      if !c.running {
        ConnectStartsPolling(w, c.(running := true, attempt := 0, waits := []), outcome);
      }
    case ReconnectTimerFires(outcome) =>
      if c.reconnect.Some? {
        ConnectStartsPolling(w, c.(reconnect := None), outcome);
      }
    case RequestCalled(queued, now) => RequestLeavesPolling(w, c, queued, now);
    case PollTimerFires(queued, now) => RequestLeavesPolling(w, c, queued, now);
    case ConnectedNotified(queued, now) => ConnectedStartsPolling(w, c.(upPending := false), queued, now);
    case DisconnectedNotified => LossReportsDisconnected(c.(downPending := false));
    case BytesReady(bytes, now) => RepliesLeavePolling(w, c.(buffer := c.buffer + bytes), now);
    case _ =>
  }

  ghost predicate StaysReported(w: Wire, c: Client, events: seq<Event>)
    decreases |events|
  {
    c.connection == Connected && (events == [] || StaysReported(w, Step(w, c, events[0]), events[1..]))
  }

  /** Over any stretch in which the client keeps reporting the connection as up, polling goes on
      exactly if it was on and no error was told. */
  lemma {:induction false} PollingEndsWithAnError(w: Wire, c: Client, events: seq<Event>)
    requires Inv(c) && StaysReported(w, c, events)
    ensures Run(w, c, events).polling <==>
      c.polling && forall i :: 0 <= i < |events| ==> !events[i].ErrorNotified?
    decreases |events|
  {
    hide Step;
    if events != [] {
      StepKeepsInv(w, c, events[0]);
      StepPolling(w, c, events[0]);
      PollingEndsWithAnError(w, Step(w, c, events[0]), events[1..]);
      assert forall i :: 0 <= i < |events| - 1 ==> events[1..][i] == events[i + 1];
      assert forall i :: 0 < i < |events| ==> events[i] == events[1..][i - 1];
    }
  }

  /** An error told of a connection that stays up silences polling for the rest of it. */
  lemma ErrorSilencesPolling(w: Wire, c: Client)
    requires Inv(c) && c.socket == SocketConnected && !c.upPending
    ensures var d := Step(w, c, ErrorNotified);
      d.connection == Connected && d.socket == SocketConnected && !d.polling && d.reconnect.None?
  {
  }

  function Sum(s: seq<int>): int {
    if s == [] then 0 else Sum(s[..|s| - 1]) + s[|s| - 1]
  }

  /** Three waits take 3.5 s, every further one 5 s. */
  lemma {:induction false} TotalWait(c: Client)
    requires BackoffInv(c) && |c.waits| >= 3
    ensures Sum(c.waits) == 3500 + 5000 * (|c.waits| - 3)
    decreases |c.waits|
  {
    var n := |c.waits|;
    if n > 3 {
      var shorter := c.(waits := c.waits[..n - 1], attempt := Min(n - 1, |RECONNECT_DELAYS_MS| - 1));
      TotalWait(shorter);
      assert c.waits[n - 1] == 5000;
    } else {
      SumOfThree(c.waits);
    }
  }

  lemma SumOfThree(s: seq<int>)
    requires |s| == 3
    ensures Sum(s) == s[0] + s[1] + s[2]
  {
    assert s[..2][..1] == [s[0]] && s[..2][..1][..0] == [];
    assert Sum(s[..2][..1]) == s[0];
    assert Sum(s[..2]) == s[0] + s[1];
  }

  /** The waits of every run since its last reset, one by one and in total. A connection reported as up
      resets them, and a reconnect that is due waits for the last of them. */
  lemma EveryRunBacksOff(w: Wire, events: seq<Event>)
    ensures var c := Run(w, INITIAL, events);
      var (waits, due) := (c.waits, c.reconnect);
      && (c.connection == Connected ==> waits == [])
      && (forall k :: 0 <= k < |waits| ==> waits[k] == [500, 1000, 2000, 5000][Min(k, 3)])
      && (due.Some? ==> waits != [] && due.value == waits[|waits| - 1])
      && (|waits| >= 3 ==> Sum(waits) == 3500 + 5000 * (|waits| - 3))
  {
    InitialInv();
    RunKeepsInv(w, INITIAL, events);
    var c := Run(w, INITIAL, events);
    if |c.waits| >= 3 {
      TotalWait(c);
    }
  }
}
