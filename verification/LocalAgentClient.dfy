/** The Desktop's client as a class: every handler updates the members the way its function in
    ClientState says. Parameters tell what the socket does during the call. */
module LocalAgentClient {
  import opened Prelude
  import opened Framing
  import opened LocalAgentMessages
  import C = ClientState

  class LocalAgentClient {
    const wire: Wire
    var running: bool
    var reconnectAttempt: nat
    var connectionState: C.ConnectionState
    var reconnectTimer: Option<int>
    var pollTimer: bool
    var receiveBuffer: seq<Byte>
    var socket: C.SocketState
    var upPending: bool
    var downPending: bool
    var outgoing: seq<Byte>
    var signals: seq<C.Signal>
    ghost var waits: seq<int>
    ghost var attempts: nat
    ghost var awaiting: bool

    ghost function View(): C.Client reads this {
      C.Client(running, reconnectAttempt, connectionState, reconnectTimer, pollTimer, receiveBuffer,
               socket, upPending, downPending, outgoing, signals, waits, attempts, awaiting)
    }

    constructor (wire: Wire)
      ensures View() == C.INITIAL && this.wire == wire
    {
      this.wire := wire;
      running, reconnectAttempt, connectionState := false, 0, C.Disconnected;
      reconnectTimer, pollTimer, receiveBuffer := None, false, [];
      socket, upPending, downPending, outgoing := C.Unconnected, false, false, [];
      signals, waits, attempts, awaiting := [], [], 0, false;
    }

    method Emit(signal: C.Signal)
      modifies this`signals
      ensures View() == C.Emit(old(View()), signal)
    {
      signals := signals + [signal];
    }

    method SetConnectionState(state: C.ConnectionState)
      modifies this`connectionState, this`signals
      ensures View() == C.SetState(old(View()), state)
    {
      if connectionState == state {
        return;
      }
      connectionState := state;
      Emit(C.StateChanged(state));
    }

    method ScheduleReconnect()
      modifies this`reconnectTimer, this`reconnectAttempt, this`waits
      ensures View() == C.ScheduleReconnect(old(View()))
    {
      if !running || reconnectTimer.Some? {
        return;
      }
      var delayIndex := Min(reconnectAttempt, |C.RECONNECT_DELAYS_MS| - 1);
      reconnectTimer := Some(C.RECONNECT_DELAYS_MS[delayIndex]);
      waits := waits + [C.RECONNECT_DELAYS_MS[delayIndex]];
      if reconnectAttempt < |C.RECONNECT_DELAYS_MS| - 1 {
        reconnectAttempt := reconnectAttempt + 1;
      }
    }

    method HandleDisconnected()
      modifies this
      ensures View() == C.HandleDisconnected(old(View()))
    {
      hide C.SetState, C.ScheduleReconnect;
      pollTimer := false;
      receiveBuffer := [];
      SetConnectionState(C.Disconnected);
      ScheduleReconnect();
    }

    method HandleSocketError()
      modifies this
      ensures View() == C.HandleSocketError(old(View()))
    {
      hide C.SetState, C.ScheduleReconnect;
      pollTimer := false;
      if socket == C.Unconnected {
        SetConnectionState(C.Disconnected);
        ScheduleReconnect();
      }
    }

    /** The socket's `abort()`. */
    method AbortSocket(now: bool)
      modifies this
      ensures View() == C.Abort(old(View()), now)
    {
      hide C.HandleDisconnected;
      if socket == C.Unconnected {
        return;
      }
      socket, upPending, downPending := C.Unconnected, false, !now;
      if now {
        HandleDisconnected();
      }
    }

    method RequestSnapshot(queued: bool, now: bool)
      modifies this
      ensures View() == C.RequestSnapshot(wire, old(View()), queued, now)
    {
      hide C.Abort;
      if socket != C.SocketConnected {
        return;
      }
      var payload := wire.requests.serialize(REQUEST);
      if payload.None? {
        Emit(C.ErrorReported(C.RequestNotSerialized));
        return;
      }
      var frame := EncodeFrame(payload.value);
      if frame.None? {
        Emit(C.ErrorReported(C.RequestNotFramed));
        return;
      }
      if queued {
        outgoing, awaiting := outgoing + frame.value, true;
      } else {
        Emit(C.ErrorReported(C.RequestNotQueued));
        AbortSocket(now);
      }
    }

    method ResetConnection()
      modifies this
      ensures View() == C.Reset(old(View()))
    {
      reconnectTimer := None;
      reconnectAttempt, waits := 0, [];
      receiveBuffer, awaiting := [], false;
    }

    method HandleConnected(queued: bool, now: bool)
      modifies this
      ensures View() == C.HandleConnected(wire, old(View()), queued, now)
    {
      hide C.RequestSnapshot, C.SetState, C.Reset;
      ResetConnection();
      SetConnectionState(C.Connected);
      pollTimer := true;
      RequestSnapshot(queued, now);
    }

    method ConnectToAgent(outcome: C.ConnectOutcome)
      modifies this
      ensures View() == C.ConnectToAgent(wire, old(View()), outcome)
    {
      hide C.ConnectSocket, C.SetState;
      if !running || socket != C.Unconnected {
        return;
      }
      SetConnectionState(C.Connecting);
      ConnectSocket(outcome);
    }

    /** The socket's `connectToServer()`. */
    method ConnectSocket(outcome: C.ConnectOutcome)
      modifies this
      ensures View() == C.ConnectSocket(wire, old(View()), outcome)
    {
      hide C.HandleConnected, C.HandleSocketError;
      attempts := attempts + 1;
      downPending, outgoing := false, [];
      match outcome {
        case StillConnecting => socket := C.SocketConnecting;
        case UpAtOnce(queued, now) =>
          socket := C.SocketConnected;
          HandleConnected(queued, now);
        case FailedAtOnce => HandleSocketError();
        case FailedLater => downPending := true;
      }
    }

    method Start(outcome: C.ConnectOutcome)
      modifies this
      ensures View() == C.Start(wire, old(View()), outcome)
    {
      hide C.ConnectToAgent;
      if running {
        return;
      }
      running := true;
      reconnectAttempt := 0;
      waits := [];
      ConnectToAgent(outcome);
    }

    method Stop(now: bool)
      modifies this
      ensures View() == C.Stop(old(View()), now)
    {
      hide C.Abort, C.SetState;
      running := false;
      reconnectTimer := None;
      pollTimer := false;
      receiveBuffer := [];
      AbortSocket(now);
      SetConnectionState(C.Disconnected);
    }

    method ReconnectTimeout(outcome: C.ConnectOutcome)
      requires reconnectTimer.Some?
      modifies this
      ensures View() == C.ReconnectTimeout(wire, old(View()), outcome)
    {
      hide C.ConnectToAgent;
      reconnectTimer := None;
      ConnectToAgent(outcome);
    }

    /** The loop body on one reply payload. */
    method HandleReply(payload: seq<Byte>, now: bool) returns (keep: bool)
      modifies this
      ensures keep == C.ReadReply(wire, payload).1
      ensures keep <==> wire.responses.parse(payload).Some? && wire.responses.parse(payload).value.protocolVersion == 1
      ensures View() == C.OneReply(wire, old(View()), payload, now)
      ensures keep ==> receiveBuffer == old(receiveBuffer)
    {
      hide C.Abort;
      var response := wire.responses.parse(payload);
      if response.None? {
        Emit(C.ErrorReported(C.CorruptReply));
        AbortSocket(now);
        return false;
      }
      if response.value.protocolVersion != PROTOCOL_VERSION {
        Emit(C.ErrorReported(C.WrongVersion));
        AbortSocket(now);
        return false;
      }
      Emit(C.SnapshotReceived(ToLocal(response.value)));
      awaiting := false;
      keep := true;
    }

    method HandleReadyRead(bytes: seq<Byte>, now: bool)
      modifies this
      ensures View() == C.HandleReadyRead(wire, old(View()), bytes, now)
    {
      hide C.Abort, C.TakeReplies, C.OneReply, TryDecodeFrame;
      receiveBuffer := receiveBuffer + bytes;
      ghost var goal := C.TakeReplies(wire, View(), now);
      while receiveBuffer != []
        invariant goal == C.TakeReplies(wire, View(), now)
        decreases |receiveBuffer|
      {
        var decoded := TryDecodeFrame(receiveBuffer);
        if decoded.status == Incomplete {
          C.NoReply(wire, View(), now);
          return;
        }
        if decoded.status == InvalidLength {
          C.NoReply(wire, View(), now);
          Emit(C.ErrorReported(C.BadFrameLength));
          AbortSocket(now);
          return;
        }
        C.TakeOneReply(wire, View(), now);
        receiveBuffer := receiveBuffer[decoded.consumed..];
        var keep := HandleReply(decoded.payload, now);
        if !keep {
          return;
        }
      }
      EmptyIsIncomplete();
      C.NoReply(wire, View(), now);
    }
  }
}
