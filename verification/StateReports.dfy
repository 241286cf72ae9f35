/** What an observer of the client's `connection_state_changed` signal
    (desktop/src/local_agent_client.cpp) sees of a run. */
module StateReports {
  import opened Prelude
  import opened LocalAgentMessages
  import opened ClientState
  import R = Reconnect
  import V = ViewModel
  import StreamReceiver
  import Framing

  /** The state that the signals leave their observer with. */
  function Reported(signals: seq<Signal>): ConnectionState {
    if signals == [] then Disconnected
    else
      var last := signals[|signals| - 1];
      if last.StateChanged? then last.state else Reported(signals[..|signals| - 1])
  }

  /** Every report is of a state other than the one reported before. */
  predicate NoRepeats(signals: seq<Signal>) {
    forall i :: 0 <= i < |signals| && signals[i].StateChanged? ==> signals[i].state != Reported(signals[..i])
  }

  predicate Tells(c: Client) {
    Reported(c.signals) == c.connection && NoRepeats(c.signals)
  }

  lemma TellsIsOf(c: Client, d: Client)
    requires Tells(c) && c.signals == d.signals && c.connection == d.connection
    ensures Tells(d)
  {
  }

  lemma OneMoreSignal(signals: seq<Signal>, s: Signal)
    requires NoRepeats(signals) && (s.StateChanged? ==> s.state != Reported(signals))
    ensures NoRepeats(signals + [s])
    ensures Reported(signals + [s]) == if s.StateChanged? then s.state else Reported(signals)
  {
    var more := signals + [s];
    assert more[..|signals|] == signals;
    forall i | 0 <= i < |more| && more[i].StateChanged? ensures more[i].state != Reported(more[..i]) {
      assert more[..i] == signals[..i];
    }
  }

  lemma EmitTells(c: Client, s: Signal)
    requires Tells(c) && !s.StateChanged?
    ensures Tells(Emit(c, s))
  {
    OneMoreSignal(c.signals, s);
  }

  lemma SetStateTells(c: Client, s: ConnectionState)
    requires Tells(c)
    ensures Tells(SetState(c, s))
  {
    if c.connection != s {
      OneMoreSignal(c.signals, StateChanged(s));
    }
  }

  lemma LossTells(c: Client)
    requires Tells(c)
    ensures Tells(HandleDisconnected(c)) && Tells(HandleSocketError(c))
  {
    hide Tells, SetState;
    var d := c.(polling := false, buffer := []);
    TellsIsOf(c, d);
    SetStateTells(d, Disconnected);
    TellsIsOf(SetState(d, Disconnected), HandleDisconnected(c));
    var e := c.(polling := false);
    TellsIsOf(c, e);
    SetStateTells(e, Disconnected);
    TellsIsOf(if c.socket == Unconnected then SetState(e, Disconnected) else e, HandleSocketError(c));
  }

  lemma AbortTells(c: Client, now: bool)
    requires Tells(c)
    ensures Tells(Abort(c, now))
  {
    hide Tells, HandleDisconnected;
    var d := c.(socket := Unconnected, upPending := false);
    TellsIsOf(c, d.(downPending := false));
    TellsIsOf(c, d.(downPending := true));
    LossTells(d.(downPending := false));
  }

  lemma RequestTells(w: Wire, c: Client, queued: bool, now: bool)
    requires Tells(c)
    ensures Tells(RequestSnapshot(w, c, queued, now))
  {
    hide Tells, Abort, Emit, Framing.Legal, Framing.Frame;
    EmitTells(c, ErrorReported(RequestNotSerialized));
    EmitTells(c, ErrorReported(RequestNotFramed));
    EmitTells(c, ErrorReported(RequestNotQueued));
    AbortTells(Emit(c, ErrorReported(RequestNotQueued)), now);
    TellsIsOf(c, c.(outgoing := RequestSnapshot(w, c, queued, now).outgoing, awaiting := true));
  }

  lemma ConnectedTells(w: Wire, c: Client, queued: bool, now: bool)
    requires Tells(c)
    ensures Tells(HandleConnected(w, c, queued, now))
  {
    hide Tells, SetState, RequestSnapshot;
    TellsIsOf(c, Reset(c));
    var d := SetState(Reset(c), Connected);
    SetStateTells(Reset(c), Connected);
    TellsIsOf(d, d.(polling := true));
    RequestTells(w, d.(polling := true), queued, now);
  }

  lemma ConnectTells(w: Wire, c: Client, outcome: ConnectOutcome)
    requires Tells(c)
    ensures Tells(ConnectToAgent(w, c, outcome))
  {
    hide Tells, SetState, HandleConnected, HandleSocketError;
    SetStateTells(c, Connecting);
    var connecting := SetState(c, Connecting);
    var d := connecting.(attempts := connecting.attempts + 1, downPending := false, outgoing := []);
    TellsIsOf(connecting, d);
    match outcome
    case StillConnecting => TellsIsOf(d, d.(socket := SocketConnecting));
    case UpAtOnce(queued, now) =>
      TellsIsOf(d, d.(socket := SocketConnected));
      ConnectedTells(w, d.(socket := SocketConnected), queued, now);
    case FailedAtOnce => LossTells(d);
    case FailedLater => TellsIsOf(d, d.(downPending := true));
  }

  lemma {:induction false} OtherSignals(signals: seq<Signal>, more: seq<Signal>)
    requires NoRepeats(signals) && V.NoStates(more)
    ensures NoRepeats(signals + more) && Reported(signals + more) == Reported(signals)
    decreases |more|
  {
    if more == [] {
      assert signals + more == signals;
    } else {
      var (init, last) := (more[..|more| - 1], more[|more| - 1]);
      OtherSignals(signals, init);
      OneMoreSignal(signals + init, last);
      assert signals + more == (signals + init) + [last];
    }
  }

  lemma TakeRepliesTells(w: Wire, c: Client, now: bool)
    requires Tells(c)
    ensures Tells(TakeReplies(w, c, now))
  {
    hide StreamReceiver.Receive, ReplyHandler, Abort, Emit, NoRepeats, Reported, V.NoStates;
    var r := StreamReceiver.Receive(ReplyHandler(w), 0, c.buffer);
    V.RepliesAreNotStates(w, c.buffer);
    OtherSignals(c.signals, r.outputs);
    var d := AfterReplies(c, r.outputs, r.rest);
    EmitTells(d, ErrorReported(BadFrameLength));
    AbortTells(Emit(d, ErrorReported(BadFrameLength)), now);
    AbortTells(d, now);
  }

  lemma StopTells(c: Client, now: bool)
    requires Tells(c)
    ensures Tells(Stop(c, now))
  {
    hide Tells, SetState, Abort;
    var d := c.(running := false, reconnect := None, polling := false, buffer := []);
    TellsIsOf(c, d);
    AbortTells(d, now);
    SetStateTells(Abort(d, now), Disconnected);
  }

  lemma StepTells(w: Wire, c: Client, e: R.Event)
    requires Tells(c)
    ensures Tells(R.Step(w, c, e))
  {
    hide Tells, ConnectToAgent, RequestSnapshot, HandleConnected, TakeReplies, Stop, HandleDisconnected,
      HandleSocketError;
    TellsIsOf(c, c.(downPending := false));
    match e
    case StartCalled(outcome) =>
      var started := c.(running := true, attempt := 0, waits := []);
      TellsIsOf(c, started);
      ConnectTells(w, started, outcome);
    case StopCalled(now) => StopTells(c, now);
    case RequestCalled(queued, now) => RequestTells(w, c, queued, now);
    case ReconnectTimerFires(outcome) =>
      TellsIsOf(c, c.(reconnect := None));
      ConnectTells(w, c.(reconnect := None), outcome);
    case PollTimerFires(queued, now) => RequestTells(w, c, queued, now);
    case SocketComesUp => TellsIsOf(c, c.(socket := SocketConnected, upPending := true));
    case SocketStartsClosing => TellsIsOf(c, c.(socket := SocketClosing));
    case SocketGoesDown => TellsIsOf(c, c.(socket := Unconnected, upPending := false, downPending := true));
    case ConnectedNotified(queued, now) =>
      TellsIsOf(c, c.(upPending := false));
      ConnectedTells(w, c.(upPending := false), queued, now);
    case DisconnectedNotified => LossTells(c.(downPending := false));
    case ErrorNotified => LossTells(if c.socket == Unconnected then c.(downPending := false) else c);
    case BytesReady(bytes, now) =>
      TellsIsOf(c, c.(buffer := c.buffer + bytes));
      TakeRepliesTells(w, c.(buffer := c.buffer + bytes), now);
  }

  lemma {:induction false} RunTells(w: Wire, c: Client, events: seq<R.Event>)
    requires Tells(c)
    ensures Tells(R.Run(w, c, events))
    decreases |events|
  {
    hide Tells, R.Step;
    if events != [] {
      StepTells(w, c, events[0]);
      RunTells(w, R.Step(w, c, events[0]), events[1..]);
    }
  }

  /** Over a whole run an observer who starts from Disconnected is told every change of the connection
      state once: no report repeats the one before, and the last one is the current state. */
  lemma EveryChangeIsToldOnce(w: Wire, events: seq<R.Event>)
    ensures var c := R.Run(w, INITIAL, events);
      && Reported(c.signals) == c.connection
      && forall i :: 0 <= i < |c.signals| && c.signals[i].StateChanged? ==>
           c.signals[i].state != Reported(c.signals[..i])
  {
    hide R.Run;
    RunTells(w, INITIAL, events);
  }
}
