/** Desktop and Agent in one world: the client's own handlers and the window above it on one side,
    the server and its store on the other, joined by the byte streams of the protocol. */
module Composition {
  import opened Prelude
  import opened Framing
  import opened StreamReceiver
  import opened TelemetryModel
  import opened LocalAgentMessages
  import opened ClientState
  import R = Reconnect
  import V = ViewModel
  import P = Protocol
  import PR = ProtocolRuns
  import T = TelemetryRunner
  import CpuUsage
  import StatusText
  import Telemetry

  /** `told` are all snapshots signalled so far; `client.signals` those of the last event only. */
  datatype World = World(client: Client, view: V.View, told: seq<LocalAgentSnapshot>, system: P.System)

  const START := World(ClientState.INITIAL, V.INITIAL_VIEW, [], P.INITIAL)

  /** `kept` is how many bytes on their way survive if the event ends the connection. */
  datatype Event = OfDesktop(event: V.DesktopEvent, nowMs: int, kept: nat) | OfAgent(action: P.Action)

  predicate Up(c: Client) {
    c.socket in {SocketConnected, SocketClosing}
  }

  // ----- what the client's events do to the byte streams -----

  function RequestActions(c: Client, queued: bool, kept: nat): seq<P.Action> {
    if c.socket != SocketConnected then [] else [if queued then P.Request else P.RequestRefused(kept)]
  }

  function ConnectActions(c: Client, outcome: ConnectOutcome, kept: nat): seq<P.Action> {
    if c.running && c.socket == Unconnected && outcome.UpAtOnce? then
      [P.Connect, if outcome.queued then P.Request else P.RequestRefused(kept)]
    else []
  }

  function DropActions(c: Client, kept: nat): seq<P.Action> {
    if Up(c) then [P.ClientDrops(kept)] else []
  }

  function ClientActions(c: Client, e: R.Event, kept: nat): seq<P.Action> {
    if !R.Enabled(c, e) then []
    else match e
      case StartCalled(outcome) => if c.running then [] else ConnectActions(c.(running := true), outcome, kept)
      case StopCalled(_) => DropActions(c, kept)
      case RequestCalled(queued, _) => RequestActions(c, queued, kept)
      case ReconnectTimerFires(outcome) => ConnectActions(c, outcome, kept)
      case PollTimerFires(queued, _) => RequestActions(c, queued, kept)
      case SocketComesUp => [P.Connect]
      case SocketGoesDown => DropActions(c, kept)
      case ConnectedNotified(queued, _) => RequestActions(c, queued, kept)
      case BytesReady(bytes, _) => [P.ClientReads(|bytes|)]
      case _ => []
  }

  function Actions(world: World, e: V.DesktopEvent, kept: nat): seq<P.Action> {
    match e
    case ClientEvent(event) => ClientActions(world.client, event, kept)
    case RefreshClicked(queued, _) =>
      if world.view.agentAvailable && !world.view.refreshing then RequestActions(world.client, queued, kept) else []
  }

  /** A connection comes up only when the pipe's one instance is free, and what is read is what
      was sent. */
  predicate Possible(world: World, e: V.DesktopEvent, actions: seq<P.Action>) {
    && (actions != [] && actions[0].Connect? ==> world.system.server.None?)
    && (e.ClientEvent? && e.event.BytesReady? ==> e.event.bytes <= world.system.toClient)
  }

  function Step(w: Wire, world: World, e: Event): World {
    match e
    case OfAgent(action) =>
      if P.AgentSide(action) then world.(system := P.Step(w, world.system, action)) else world
    case OfDesktop(event, nowMs, kept) =>
      var actions := Actions(world, event, kept);
      if !Possible(world, event, actions) then world
      else
        var d := V.Step(w, V.Desktop(world.client, world.view), event, nowMs);
        World(d.client, d.view, world.told + Snapshots(d.client.signals), P.Run(w, world.system, actions))
  }

  function Run(w: Wire, world: World, events: seq<Event>): World
    decreases |events|
  {
    if events == [] then world else Run(w, Step(w, world, events[0]), events[1..])
  }

  // ----- how the client mirrors the byte streams -----

  function Delivered(logs: seq<P.Log>): seq<LocalAgentSnapshot> {
    if logs == [] then [] else Delivered(logs[..|logs| - 1]) + logs[|logs| - 1].delivered
  }

  /** The only error a client of this Agent ever reports is a failed write of its own. */
  predicate OnlyWriteErrors(signals: seq<Signal>) {
    forall i :: 0 <= i < |signals| && signals[i].ErrorReported? ==> signals[i].error == RequestNotQueued
  }

  /** Everything the client ever told is what was delivered on all connections. */
  predicate Says(told: seq<LocalAgentSnapshot>, c: Client, s: P.System) {
    && told + Snapshots(c.signals) == Delivered(s.past) + s.log.delivered
    && OnlyWriteErrors(c.signals)
  }

  /** The client's socket, buffer and written bytes are the client's end of the connection. */
  ghost predicate Mirrors(w: Wire, c: Client, s: P.System)
    requires Legal(RequestPayload(w))
  {
    && (s.clientUp <==> Up(c))
    && (c.socket == SocketConnecting ==> c.outgoing == [])
    && (s.clientUp ==>
          && s.clientBuffer == (if c.upPending then [] else c.buffer)
          && c.outgoing == EncodeAll(P.Requests(w, |s.log.asked|))
          && (c.awaiting && !c.upPending ==> |s.log.delivered| < |s.log.asked|))
  }

  ghost predicate Matches(w: Wire, told: seq<LocalAgentSnapshot>, c: Client, s: P.System)
    requires Legal(RequestPayload(w))
  {
    Says(told, c, s) && Mirrors(w, c, s)
  }

  /** Nothing more was signalled than states and failed writes. */
  predicate Quiet(before: seq<Signal>, after: seq<Signal>) {
    Snapshots(after) == Snapshots(before) && (OnlyWriteErrors(before) ==> OnlyWriteErrors(after))
  }

  lemma EmitIsQuiet(c: Client, s: Signal)
    requires s.StateChanged? || s == ErrorReported(RequestNotQueued)
    ensures Quiet(c.signals, Emit(c, s).signals)
  {
    SnapshotsSplit(c.signals, [s]);
    SnapshotsOne(s);
    assert Snapshots(c.signals) + [] == Snapshots(c.signals);
  }

  lemma SetStateIsQuiet(c: Client, s: ConnectionState)
    ensures var d := SetState(c, s);
      Quiet(c.signals, d.signals) && d == c.(connection := s, signals := d.signals)
  {
    EmitIsQuiet(c.(connection := s), StateChanged(s));
  }

  lemma LossIsQuiet(c: Client)
    ensures var d := HandleDisconnected(c);
      Quiet(c.signals, d.signals) && d.socket == c.socket && d.upPending == c.upPending && d.outgoing == c.outgoing
  {
    hide SetState, Quiet;
    SetStateIsQuiet(c.(polling := false, buffer := []), Disconnected);
  }

  lemma ErrorIsQuiet(c: Client)
    ensures var d := HandleSocketError(c);
      && Quiet(c.signals, d.signals)
      && d == c.(polling := d.polling, connection := d.connection, signals := d.signals,
                 reconnect := d.reconnect, waits := d.waits, attempt := d.attempt)
  {
    hide SetState;
    SetStateIsQuiet(c.(polling := false), Disconnected);
  }

  lemma AbortIsQuiet(c: Client, now: bool)
    ensures var d := Abort(c, now); Quiet(c.signals, d.signals) && d.socket == Unconnected
  {
    hide HandleDisconnected;
    LossIsQuiet(c.(socket := Unconnected, upPending := false, downPending := false));
  }

  lemma StopIsQuiet(c: Client, now: bool)
    ensures var d := Stop(c, now); Quiet(c.signals, d.signals) && d.socket == Unconnected
  {
    hide Abort, SetState, Quiet;
    var d := c.(running := false, reconnect := None, polling := false, buffer := []);
    AbortIsQuiet(d, now);
    SetStateIsQuiet(Abort(d, now), Disconnected);
    QuietTwice(c.signals, Abort(d, now).signals, Stop(c, now).signals);
  }

  lemma QuietTwice(a: seq<Signal>, b: seq<Signal>, c: seq<Signal>)
    requires Quiet(a, b) && Quiet(b, c)
    ensures Quiet(a, c)
  {
  }

  // ----- event by event -----

  /** The socket is down on both sides. */
  lemma DownMatches(w: Wire, told: seq<LocalAgentSnapshot>, c: Client, s: P.System, d: Client, t: P.System)
    requires Legal(RequestPayload(w)) && Says(told, c, s)
    requires Quiet(c.signals, d.signals) && d.socket == Unconnected
    requires !t.clientUp && t.past == s.past && t.log.delivered == s.log.delivered
    ensures Matches(w, told, d, t)
  {
  }

  lemma LawfulRequest(w: Wire)
    requires Lawful(w)
    ensures Legal(RequestPayload(w))
  {
  }

  /** Timers, flags and the reported state have no part in the match. */
  lemma MatchesSame(w: Wire, told: seq<LocalAgentSnapshot>, c: Client, s: P.System, d: Client)
    requires Legal(RequestPayload(w)) && Matches(w, told, c, s)
    requires d.signals == c.signals && d.socket == c.socket && d.upPending == c.upPending && d.buffer == c.buffer
    requires d.outgoing == c.outgoing && d.awaiting == c.awaiting
    ensures Matches(w, told, d, s)
  {
    hide EncodeAll, Legal, RequestPayload;
  }

  lemma QuietSame(a: seq<Signal>)
    ensures Quiet(a, a)
  {
  }

  lemma LogSizes(w: Wire, s: P.System)
    requires P.Inv(w, s)
    ensures P.Sizes(s.log)
  {
    hide P.RequestBytes, P.ReplyBytes, P.Justified, P.Truthful;
  }

  /** A request is written, or cut off by a failed write. */
  lemma RequestMatches(w: Wire, told: seq<LocalAgentSnapshot>, c: Client, s: P.System, queued: bool, now: bool,
      kept: nat)
    requires Lawful(w) && P.Inv(w, s) && Matches(w, told, c, s)
    ensures Matches(w, told, RequestSnapshot(w, c, queued, now), P.Run(w, s, RequestActions(c, queued, kept)))
  {
    hide P.LogInv, P.RequestBytes, P.ReplyBytes, EncodeAll, Abort, Lawful, Quiet, Says;
    LogSizes(w, s);
    if c.socket == SocketConnected {
      var action := RequestActions(c, queued, kept)[0];
      assert P.Run(w, s, [action]) == P.Step(w, s, action);
      if queued {
        P.OneMoreRequest(w, |s.log.asked|);
        SaysSame(told, c, s, RequestSnapshot(w, c, queued, now), P.Step(w, s, action));
      } else {
        var d := Emit(c, ErrorReported(RequestNotQueued));
        EmitIsQuiet(c, ErrorReported(RequestNotQueued));
        AbortIsQuiet(d, now);
        QuietTwice(c.signals, d.signals, Abort(d, now).signals);
        DownMatches(w, told, c, s, Abort(d, now), P.Step(w, s, action));
      }
    }
  }

  lemma SaysSame(told: seq<LocalAgentSnapshot>, c: Client, s: P.System, d: Client, t: P.System)
    requires Says(told, c, s) && Quiet(c.signals, d.signals)
    requires t.past == s.past && t.log.delivered == s.log.delivered
    ensures Says(told, d, t)
  {
  }

  /** A connection comes up; the client is yet to be told. */
  lemma ComesUpMatches(w: Wire, told: seq<LocalAgentSnapshot>, c: Client, s: P.System)
    requires Legal(RequestPayload(w)) && Matches(w, told, c, s)
    requires !Up(c) && c.outgoing == [] && s.server.None?
    ensures Matches(w, told, c.(socket := SocketConnected, upPending := true), P.Step(w, s, P.Connect))
  {
    var past := s.past + [s.log];
    assert past[..|past| - 1] == s.past;
    assert Delivered(past) + [] == Delivered(s.past) + s.log.delivered;
  }

  /** `handle_connected` starts the connection afresh and asks for a first snapshot. */
  lemma ConnectedMatches(w: Wire, told: seq<LocalAgentSnapshot>, c: Client, s: P.System, queued: bool, now: bool,
      kept: nat)
    requires Lawful(w) && P.Inv(w, s) && c.socket == SocketConnected && !c.upPending
    requires Matches(w, told, c.(upPending := true), s)
    ensures Matches(w, told, HandleConnected(w, c, queued, now), P.Run(w, s, RequestActions(c, queued, kept)))
  {
    hide P.Inv, RequestSnapshot, Lawful, SetState, Quiet, Says, P.Run, EncodeAll;
    SetStateIsQuiet(Reset(c), Connected);
    var d := SetState(Reset(c), Connected).(polling := true);
    SaysSame(told, c.(upPending := true), s, d, s);
    RequestMatches(w, told, d, s, queued, now, kept);
  }

  lemma ConnectMatches(w: Wire, told: seq<LocalAgentSnapshot>, c: Client, s: P.System, outcome: ConnectOutcome,
      kept: nat)
    requires Lawful(w) && P.Inv(w, s) && Matches(w, told, c, s) && !c.upPending
    requires ConnectActions(c, outcome, kept) != [] ==> s.server.None?
    ensures Matches(w, told, ConnectToAgent(w, c, outcome), P.Run(w, s, ConnectActions(c, outcome, kept)))
  {
    hide P.Inv, P.Step, HandleConnected, HandleSocketError, Lawful, SetState, Quiet, Says, EncodeAll, Legal,
      RequestPayload;
    LawfulRequest(w);
    if c.running && c.socket == Unconnected {
      SetStateIsQuiet(c, Connecting);
      var d := SetState(c, Connecting).(attempts := c.attempts + 1, downPending := false, outgoing := []);
      SaysSame(told, c, s, d, s);
      match outcome
      case StillConnecting => SaysSame(told, c, s, d.(socket := SocketConnecting), s);
      case UpAtOnce(queued, now) =>
        ComesUpMatches(w, told, d, s);
        P.StepKeepsInv(w, s, P.Connect);
        ConnectedMatches(w, told, d.(socket := SocketConnected), P.Step(w, s, P.Connect), queued, now, kept);
        P.TwoSteps(w, s, P.Connect, RequestActions(d.(socket := SocketConnected), queued, kept));
      case FailedAtOnce =>
        ErrorIsQuiet(d);
        SaysSame(told, d, s, HandleSocketError(d), s);
      case FailedLater => SaysSame(told, c, s, d.(downPending := true), s);
    }
  }

  /** Replies that are all kept put out snapshots and nothing else. */
  lemma KeptRepliesAreSnapshots(w: Wire, b: seq<Byte>)
    requires Receive(ReplyHandler(w), 0, b).verdict == Open
    ensures OnlyWriteErrors(Receive(ReplyHandler(w), 0, b).outputs)
  {
    hide Receive, ReadReply;
    var h := ReplyHandler(w);
    var (outputs, ps) := (Receive(h, 0, b).outputs, DecodeStream(b).payloads);
    ReceiveRefinesDecoder(h, 0, b);
    forall i | 0 <= i < |outputs| ensures outputs[i].SnapshotReceived? {
      assert outputs[i] == h(0 + i, ps[i]).0 && h(0 + i, ps[i]).1;
      ReadReplyShape(w, ps[i]);
    }
  }

  /** The client reads some of what was sent. */
  lemma ReadMatches(w: Wire, told: seq<LocalAgentSnapshot>, c: Client, s: P.System, bytes: seq<Byte>, now: bool)
    requires Lawful(w) && P.Inv(w, s) && Matches(w, told, c, s) && Up(c) && !c.upPending && bytes <= s.toClient
    ensures Matches(w, told, HandleReadyRead(w, c, bytes, now), P.Step(w, s, P.ClientReads(|bytes|)))
  {
    hide P.LogInv, P.RequestBytes, P.ReplyBytes, EncodeAll, Abort, Lawful, Receive, ReplyHandler, Says, Legal,
      RequestPayload, Snapshots;
    LawfulRequest(w);
    LogSizes(w, s);
    P.NextReplies(w, s, |bytes|);
    assert s.toClient[..|bytes|] == bytes;
    var r := Receive(ReplyHandler(w), 0, c.buffer + bytes);
    KeptRepliesAreSnapshots(w, c.buffer + bytes);
    SaysMore(told, c, s, AfterReplies(c, r.outputs, r.rest), P.Step(w, s, P.ClientReads(|bytes|)), r.outputs);
  }

  lemma SaysMore(told: seq<LocalAgentSnapshot>, c: Client, s: P.System, d: Client, t: P.System, more: seq<Signal>)
    requires Says(told, c, s) && OnlyWriteErrors(more) && d.signals == c.signals + more
    requires t.past == s.past && t.log.delivered == s.log.delivered + Snapshots(more)
    ensures Says(told, d, t)
  {
    hide Snapshots, Delivered, OnlyWriteErrors;
    SnapshotsSplit(c.signals, more);
    MoreWriteErrors(c.signals, more);
    AppendedTogether(told, Snapshots(c.signals), Delivered(s.past), s.log.delivered, Snapshots(more));
  }

  lemma MoreWriteErrors(a: seq<Signal>, b: seq<Signal>)
    requires OnlyWriteErrors(a) && OnlyWriteErrors(b)
    ensures OnlyWriteErrors(a + b)
  {
  }

  lemma AppendedTogether(told: seq<LocalAgentSnapshot>, now: seq<LocalAgentSnapshot>, past: seq<LocalAgentSnapshot>,
                         log: seq<LocalAgentSnapshot>, more: seq<LocalAgentSnapshot>)
    requires told + now == past + log
    ensures told + (now + more) == past + (log + more)
  {
    assert told + (now + more) == (told + now) + more == (past + log) + more == past + (log + more);
  }

  lemma ComesUp(w: Wire, told: seq<LocalAgentSnapshot>, c: Client, s: P.System)
    requires Legal(RequestPayload(w)) && Matches(w, told, c, s) && c.socket == SocketConnecting && s.server.None?
    ensures Matches(w, told, c.(socket := SocketConnected, upPending := true), P.Step(w, s, P.Connect))
  {
    hide P.Step, Says;
    ComesUpMatches(w, told, c, s);
  }

  lemma ClosingMatches(w: Wire, told: seq<LocalAgentSnapshot>, c: Client, s: P.System)
    requires Legal(RequestPayload(w)) && Matches(w, told, c, s) && c.socket == SocketConnected && !c.upPending
    ensures Matches(w, told, c.(socket := SocketClosing), s)
  {
    hide EncodeAll;
  }

  /** Told of a loss or an error, the client leaves the streams alone. */
  lemma LossMatches(w: Wire, told: seq<LocalAgentSnapshot>, c: Client, s: P.System)
    requires Legal(RequestPayload(w)) && Matches(w, told, c, s) && c.socket == Unconnected
    ensures Matches(w, told, HandleDisconnected(c), s)
  {
    hide HandleDisconnected, Says, Quiet;
    LossIsQuiet(c);
    SaysSame(told, c, s, HandleDisconnected(c), s);
  }

  lemma ErrorMatches(w: Wire, told: seq<LocalAgentSnapshot>, c: Client, s: P.System)
    requires Legal(RequestPayload(w)) && Matches(w, told, c, s)
    ensures Matches(w, told, HandleSocketError(c), s)
  {
    hide HandleSocketError, Says, Quiet, EncodeAll;
    ErrorIsQuiet(c);
    SaysSame(told, c, s, HandleSocketError(c), s);
  }

  lemma EventMatches(w: Wire, told: seq<LocalAgentSnapshot>, c: Client, s: P.System, e: R.Event, kept: nat)
    requires Lawful(w) && P.Inv(w, s) && R.Inv(c) && Matches(w, told, c, s)
    requires var actions := ClientActions(c, e, kept); actions != [] && actions[0].Connect? ==> s.server.None?
    requires e.BytesReady? ==> e.bytes <= s.toClient
    ensures Matches(w, told, R.Step(w, c, e), P.Run(w, s, ClientActions(c, e, kept)))
  {
    hide P.Inv, P.Step, P.Run, Lawful, Quiet, Says, Mirrors, Legal, RequestPayload, Stop, RequestSnapshot,
      HandleConnected, HandleDisconnected, HandleSocketError, ConnectToAgent, HandleReadyRead, DropActions;
    LawfulRequest(w);
    P.NoSteps(w, s);
    if R.Enabled(c, e) {
      match e
      case StartCalled(outcome) =>
        if !c.running {
          var d := c.(running := true, attempt := 0, waits := []);
          MatchesSame(w, told, c, s, d);
          ConnectMatches(w, told, d, s, outcome, kept);
        }
      case StopCalled(now) =>
        StopIsQuiet(c, now);
        DropMatches(w, told, c, s, Stop(c, now), kept);
      case RequestCalled(queued, now) => RequestMatches(w, told, c, s, queued, now, kept);
      case ReconnectTimerFires(outcome) =>
        MatchesSame(w, told, c, s, c.(reconnect := None));
        ConnectMatches(w, told, c.(reconnect := None), s, outcome, kept);
      case PollTimerFires(queued, now) => RequestMatches(w, told, c, s, queued, now, kept);
      case SocketComesUp =>
        ComesUp(w, told, c, s);
        P.OneStep(w, s, P.Connect);
      case SocketStartsClosing => ClosingMatches(w, told, c, s);
      case SocketGoesDown =>
        QuietSame(c.signals);
        DropMatches(w, told, c, s, c.(socket := Unconnected, upPending := false, downPending := true), kept);
      case ConnectedNotified(queued, now) => ConnectedMatches(w, told, c.(upPending := false), s, queued, now, kept);
      case DisconnectedNotified =>
        MatchesSame(w, told, c, s, c.(downPending := false));
        LossMatches(w, told, c.(downPending := false), s);
      case ErrorNotified =>
        var d := if c.socket == Unconnected then c.(downPending := false) else c;
        MatchesSame(w, told, c, s, d);
        ErrorMatches(w, told, d, s);
      case BytesReady(bytes, now) =>
        ReadMatches(w, told, c, s, bytes, now);
        P.OneStep(w, s, P.ClientReads(|bytes|));
    }
  }

  lemma DropMatches(w: Wire, told: seq<LocalAgentSnapshot>, c: Client, s: P.System, d: Client, kept: nat)
    requires Legal(RequestPayload(w)) && Matches(w, told, c, s)
    requires Quiet(c.signals, d.signals) && d.socket == Unconnected
    ensures Matches(w, told, d, P.Run(w, s, DropActions(c, kept)))
  {
    hide Quiet, Says;
    if Up(c) {
      P.OneStep(w, s, P.ClientDrops(kept));
      DownMatches(w, told, c, s, d, P.Step(w, s, P.ClientDrops(kept)));
    } else {
      DownMatches(w, told, c, s, d, s);
    }
  }

  // ----- every run of the world -----

  ghost predicate Inv(w: Wire, world: World)
    requires Legal(RequestPayload(w))
  {
    && V.Inv(V.Desktop(world.client, world.view))
    && P.Inv(w, world.system) && PR.HistoryInv(w, world.system)
    && Matches(w, world.told, world.client.(signals := []), world.system)
    && OnlyWriteErrors(world.client.signals)
  }

  lemma AgentStepKeepsInv(w: Wire, world: World, a: P.Action)
    requires Lawful(w) && Inv(w, world) && P.AgentSide(a)
    ensures Inv(w, Step(w, world, OfAgent(a)))
  {
    hide V.Inv, P.Inv, PR.HistoryInv, P.Step, EncodeAll, Lawful, Legal, RequestPayload;
    LawfulRequest(w);
    P.StepKeepsInv(w, world.system, a);
    PR.StepKeepsHistory(w, world.system, a);
    P.AgentKeepsClientEnd(w, world.system, a);
  }

  /** What the window's event does to the client is either an event of the client's own, or a
      request it was asked for. */
  lemma DesktopMatches(w: Wire, world: World, e: V.DesktopEvent, nowMs: int, kept: nat)
    requires Lawful(w) && Inv(w, world) && Possible(world, e, Actions(world, e, kept))
    ensures var d := V.Step(w, V.Desktop(world.client, world.view), e, nowMs);
      Matches(w, world.told, d.client, P.Run(w, world.system, Actions(world, e, kept)))
  {
    hide P.Inv, PR.HistoryInv, P.Run, R.Step, R.Inv, Lawful, Matches, RequestSnapshot, V.After, V.Agrees, Legal,
      RequestPayload;
    LawfulRequest(w);
    var c := world.client.(signals := []);
    P.NoSteps(w, world.system);
    match e
    case ClientEvent(event) =>
      QuietClient(world.client);
      SameActions(world.client, event, kept);
      EventMatches(w, world.told, c, world.system, event, kept);
    case RefreshClicked(queued, now) =>
      if world.view.agentAvailable && !world.view.refreshing {
        RequestMatches(w, world.told, c, world.system, queued, now, kept);
      }
  }

  lemma QuietClient(c: Client)
    requires R.Inv(c)
    ensures R.Inv(c.(signals := []))
  {
  }

  lemma SameActions(c: Client, e: R.Event, kept: nat)
    ensures ClientActions(c.(signals := []), e, kept) == ClientActions(c, e, kept)
  {
  }

  lemma DesktopStepKeepsInv(w: Wire, world: World, e: V.DesktopEvent, nowMs: int, kept: nat)
    requires Lawful(w) && Inv(w, world)
    ensures Inv(w, Step(w, world, OfDesktop(e, nowMs, kept)))
  {
    hide V.Inv, V.Step, P.Inv, PR.HistoryInv, P.Run, Lawful, Mirrors, Actions, Possible, Legal, RequestPayload,
      Snapshots;
    LawfulRequest(w);
    var actions := Actions(world, e, kept);
    if Possible(world, e, actions) {
      var d := V.Step(w, V.Desktop(world.client, world.view), e, nowMs);
      var t := P.Run(w, world.system, actions);
      V.StepKeepsInv(w, V.Desktop(world.client, world.view), e, nowMs);
      PR.RunKeepsHistory(w, world.system, actions);
      DesktopMatches(w, world, e, nowMs, kept);
      TellingMatches(w, world.told, d.client, t);
    }
  }

  lemma TellingMatches(w: Wire, told: seq<LocalAgentSnapshot>, c: Client, s: P.System)
    requires Legal(RequestPayload(w)) && Matches(w, told, c, s)
    ensures Matches(w, told + Snapshots(c.signals), c.(signals := []), s)
  {
    hide EncodeAll;
    assert told + Snapshots(c.signals) + [] == told + Snapshots(c.signals);
  }

  lemma {:induction false} RunKeepsInv(w: Wire, world: World, events: seq<Event>)
    requires Lawful(w) && Inv(w, world)
    ensures Inv(w, Run(w, world, events))
    decreases |events|
  {
    hide Step, Inv, Lawful, Legal, RequestPayload;
    LawfulRequest(w);
    if events != [] {
      match events[0] {
        case OfAgent(a) => AgentEventKeepsInv(w, world, a);
        case OfDesktop(e, nowMs, kept) => DesktopStepKeepsInv(w, world, e, nowMs, kept);
      }
      RunKeepsInv(w, Step(w, world, events[0]), events[1..]);
    }
  }

  lemma AgentEventKeepsInv(w: Wire, world: World, a: P.Action)
    requires Lawful(w) && Inv(w, world)
    ensures Inv(w, Step(w, world, OfAgent(a)))
  {
    hide Inv, P.Step, Lawful, Legal, RequestPayload;
    LawfulRequest(w);
    if P.AgentSide(a) {
      AgentStepKeepsInv(w, world, a);
    }
  }

  lemma StartInv(w: Wire)
    requires Lawful(w)
    ensures Legal(RequestPayload(w)) && Inv(w, START)
  {
    hide Lawful, Legal, RequestPayload;
    LawfulRequest(w);
    PR.InitialInv(w);
    V.WindowStartsInStep();
  }

  lemma EveryRunKeepsInv(w: Wire, events: seq<Event>)
    requires Lawful(w)
    ensures Legal(RequestPayload(w)) && Inv(w, Run(w, START, events))
  {
    hide Inv, Lawful, Legal, RequestPayload, Run;
    StartInv(w);
    RunKeepsInv(w, START, events);
  }

  lemma {:induction false} DeliveredSaysVersions(w: Wire, store: seq<LatestSnapshot>, logs: seq<P.Log>)
    requires forall a :: 0 <= a < |logs| ==> P.LogInv(w, store, logs[a])
    ensures var (delivered, versions) := (Delivered(logs), PR.AllVersions(logs));
      && |delivered| == |versions|
      && forall i :: 0 <= i < |versions| ==>
           versions[i] <= |store| && delivered[i] == Told(P.ValueAt(store, versions[i]))
    decreases |logs|
  {
    hide ReplyPayload, Told, P.ValueAt;
    if logs != [] {
      var (init, last) := (logs[..|logs| - 1], logs[|logs| - 1]);
      DeliveredSaysVersions(w, store, init);
      forall i | 0 <= i < |last.delivered|
        ensures last.answered[i] <= |store| && last.delivered[i] == Told(P.ValueAt(store, last.answered[i]))
      {
        assert last.delivered[i] == P.Spoken(store, last, i);
      }
    }
  }

  /** What the Desktop is told, end to end. In every run of the two programs, with any reads, writes,
      losses, reconnects, stops and clicks: each snapshot signalled to the window is what the Agent's
      store held at some version, and these versions never go back. */
  lemma EveryTellingIsTrue(w: Wire, events: seq<Event>)
    requires Lawful(w)
    ensures var world := Run(w, START, events);
      var (store, versions) := (world.system.store, PR.AllVersions(PR.Logs(world.system)));
      && |world.told| == |versions| && Sorted(versions)
      && forall i :: 0 <= i < |versions| ==>
           versions[i] <= |store| && world.told[i] == Told(P.ValueAt(store, versions[i]))
  {
    hide Run, Lawful, Legal, RequestPayload, P.LogInv, V.Inv, EncodeAll, PR.Versions, P.ValueAt, Told, Sorted;
    EveryRunKeepsInv(w, events);
    var s := Run(w, START, events).system;
    PR.LogsAreChained(w, s);
    PR.VersionsAreSorted(w, s.store, PR.Logs(s));
    DeliveredSaysVersions(w, s.store, PR.Logs(s));
    assert PR.Logs(s)[..|s.past|] == s.past;
  }

  /** The client of this Agent never reports a bad length, an unreadable reply or a wrong version. */
  lemma NoBadReplyIsReported(w: Wire, events: seq<Event>)
    requires Lawful(w)
    ensures OnlyWriteErrors(Run(w, START, events).client.signals)
  {
    hide Run, Lawful, Legal, RequestPayload, V.Inv, P.Inv, PR.HistoryInv, Mirrors;
    EveryRunKeepsInv(w, events);
  }

  /** No stuck refresh, end to end: while the window shows a refresh, a connection is being made, or
      the connection has a request written and not answered, or its loss is still to be told. */
  lemma NoStuckRefresh(w: Wire, events: seq<Event>)
    requires Lawful(w)
    ensures var world := Run(w, START, events);
      var (c, log) := (world.client, world.system.log);
      && (world.view.agentAvailable <==> c.connection == Connected)
      && (world.view.refreshing ==>
            || c.connection == Connecting
            || (c.connection == Connected && (c.socket == SocketClosing || c.downPending))
            || (world.system.clientUp && |log.delivered| < |log.asked|))
  {
    hide Run, Lawful, Legal, RequestPayload, P.Inv, PR.HistoryInv, EncodeAll, P.Requests;
    EveryRunKeepsInv(w, events);
  }

  // ----- progress -----

  /** The event of the world that carries out a step which moves the connection on. */
  function EventOf(world: World, a: P.Action, nowMs: int): Event {
    if a.ClientReads? && a.count <= |world.system.toClient| then
      OfDesktop(V.ClientEvent(R.BytesReady(world.system.toClient[..a.count], true)), nowMs, 0)
    else OfAgent(a)
  }

  predicate Live(world: World) {
    && world.client.socket == SocketConnected && !world.client.upPending
    && world.system.server.Some?
  }

  lemma ReadKeepsSocket(w: Wire, c: Client, s: P.System, bytes: seq<Byte>, now: bool)
    requires Lawful(w) && P.Inv(w, s) && s.clientUp && c.buffer == s.clientBuffer && bytes <= s.toClient
    ensures var d := HandleReadyRead(w, c, bytes, now); d.socket == c.socket && d.upPending == c.upPending
  {
    hide P.LogInv, P.RequestBytes, P.ReplyBytes, EncodeAll, Abort, Lawful, Receive, ReplyHandler, Legal,
      RequestPayload, Snapshots;
    LogSizes(w, s);
    P.NextReplies(w, s, |bytes|);
    assert s.toClient[..|bytes|] == bytes;
  }

  lemma ReadIsStep(w: Wire, world: World, count: nat, nowMs: int)
    requires Lawful(w) && Inv(w, world) && Live(world) && count <= |world.system.toClient|
    ensures var next := Step(w, world, EventOf(world, P.ClientReads(count), nowMs));
      next.system == P.Step(w, world.system, P.ClientReads(count))
      && next.client.socket == SocketConnected && !next.client.upPending
  {
    hide P.Inv, PR.HistoryInv, P.Step, V.After, V.Agrees, R.Inv, HandleReadyRead, Lawful, Legal, RequestPayload,
      EncodeAll,
      P.Requests, Says;
    LawfulRequest(w);
    var bytes := world.system.toClient[..count];
    ReadKeepsSocket(w, world.client.(signals := []), world.system, bytes, true);
    P.OneStep(w, world.system, P.ClientReads(count));
    assert |bytes| == count;
  }

  /** From every state that keeps the invariant, with a live connection and a store whose value can
      be sent, some events of the pipe and of the server alone answer every request and take the
      refresh off the window. */
  lemma {:induction false} RefreshCanEnd(w: Wire, world: World, nowMs: int) returns (events: seq<Event>)
    requires Lawful(w) && Inv(w, world) && Live(world)
    requires ReplyPayload(w, P.ValueAt(world.system.store, P.Version(world.system))).Some?
    ensures var (s, t) := (world.system, Run(w, world, events));
      && Live(t) && t.system.store == s.store && t.system.log.asked == s.log.asked
      && |t.system.log.delivered| == |s.log.asked| && !t.view.refreshing
    decreases if P.Sizes(world.system.log) && world.system.server.Some? then PR.Rank(world.system) else 0
  {
    hide Step, Inv, P.Step, Lawful, Legal, RequestPayload, ReplyPayload, PR.Idle, PR.Advance, PR.Rank, EventOf, Run;
    LawfulRequest(w);
    var s := world.system;
    InvParts(w, world);
    if PR.Idle(s) {
      PR.IdleIsDone(w, s);
      AllAnsweredAllShown(w, world);
      events := [];
      NoEvents(w, world);
    } else {
      var a := PR.Advance(s);
      var e := EventOf(world, a, nowMs);
      AdvanceIsEvent(w, world, nowMs);
      PR.AdvanceMoves(w, s);
      PR.EveryMoveLowers(w, s, a);
      RunKeepsInv(w, world, [e]);
      OneEvent(w, world, e, []);
      NoEvents(w, Step(w, world, e));
      var more := RefreshCanEnd(w, Step(w, world, e), nowMs);
      events := [e] + more;
      OneEvent(w, world, e, more);
    }
  }

  lemma NoEvents(w: Wire, world: World)
    ensures Run(w, world, []) == world
  {
  }

  lemma OneEvent(w: Wire, world: World, e: Event, more: seq<Event>)
    ensures Run(w, world, [e] + more) == Run(w, Step(w, world, e), more)
    ensures Run(w, world, [e]) == Run(w, Step(w, world, e), [])
  {
    hide Step;
    assert ([e] + more)[1..] == more && [e][1..] == [];
  }

  lemma InvParts(w: Wire, world: World)
    requires Legal(RequestPayload(w)) && Inv(w, world) && Live(world)
    ensures P.Inv(w, world.system) && world.system.clientUp
    ensures P.Sizes(world.system.log)
  {
    hide V.Inv, P.RequestBytes, P.ReplyBytes, PR.HistoryInv, Says, EncodeAll;
  }

  /** Where all requests are answered, no refresh is shown. */
  lemma AllAnsweredAllShown(w: Wire, world: World)
    requires Legal(RequestPayload(w)) && Inv(w, world) && Live(world)
    requires |world.system.log.delivered| == |world.system.log.asked|
    ensures !world.view.refreshing
  {
    hide P.Inv, PR.HistoryInv, Says, EncodeAll, P.Requests;
  }

  lemma AdvanceIsEvent(w: Wire, world: World, nowMs: int)
    requires Lawful(w) && Inv(w, world) && Live(world) && P.Sizes(world.system.log)
    ensures var (a, s) := (PR.Advance(world.system), world.system);
      var next := Step(w, world, EventOf(world, a, nowMs));
      && next.system == P.Step(w, s, a)
      && next.client.socket == SocketConnected && !next.client.upPending
  {
    hide Inv, P.Step, Lawful, TryDecodeFrame, V.Step;
    var a := PR.Advance(world.system);
    if a.ClientReads? {
      ReadIsStep(w, world, a.count, nowMs);
    }
  }

  /** A refresh can always end, wherever a run of the world has come to. */
  lemma EveryRefreshCanEnd(w: Wire, prior: seq<Event>, nowMs: int) returns (events: seq<Event>)
    requires Lawful(w)
    requires var world := Run(w, START, prior);
      Live(world) && ReplyPayload(w, P.ValueAt(world.system.store, P.Version(world.system))).Some?
    ensures var (before, after) := (Run(w, START, prior), Run(w, Run(w, START, prior), events));
      && Live(after) && after.system.store == before.system.store
      && after.system.log.asked == before.system.log.asked
      && |after.system.log.delivered| == |before.system.log.asked| && !after.view.refreshing
  {
    hide Run, Inv, Lawful, Legal, RequestPayload, ReplyPayload;
    EveryRunKeepsInv(w, prior);
    events := RefreshCanEnd(w, Run(w, START, prior), nowMs);
  }

  // ----- a run in which all this happens -----

  const FIRST_EVENT := OfDesktop(V.ClientEvent(R.StartCalled(UpAtOnce(true, true))), 0, 0)

  /** The world before the window is started, with some snapshots published. */
  function Published(store: seq<LatestSnapshot>): World {
    START.(system := P.INITIAL.(store := store))
  }

  /** Right after a start that connects at once, the window shows a refresh on a live connection. */
  lemma StartAtOnce(w: Wire, store: seq<LatestSnapshot>)
    requires Lawful(w)
    ensures var world := Step(w, Published(store), FIRST_EVENT);
      && Live(world) && world.view.refreshing && world.system.store == store
      && world.system.log.asked == [|store|] && world.system.log.delivered == []
  {
    hide EncodeAll, Lawful, TryDecodeFrame;
    FirstActions(w, store);
    FirstView(w);
  }

  lemma FirstActions(w: Wire, store: seq<LatestSnapshot>)
    ensures var t := P.Run(w, P.INITIAL.(store := store), [P.Connect, P.Request]);
      t.clientUp && t.server.Some? && t.store == store && t.log.asked == [|store|] && t.log.delivered == []
  {
    var s := P.INITIAL.(store := store);
    P.TwoSteps(w, s, P.Connect, [P.Request]);
    P.OneStep(w, P.Step(w, s, P.Connect), P.Request);
  }

  lemma FirstView(w: Wire)
    requires Lawful(w)
    ensures var d := V.Step(w, V.Desktop(ClientState.INITIAL, V.INITIAL_VIEW),
                            V.ClientEvent(R.StartCalled(UpAtOnce(true, true))), 0);
      && d.client.socket == SocketConnected && !d.client.upPending && d.view.refreshing
  {
    var c := ClientState.INITIAL;
    var d := R.Step(w, c, R.StartCalled(UpAtOnce(true, true)));
    assert d.signals == [StateChanged(Connecting), StateChanged(Connected)];
    assert d.signals[..1] == [StateChanged(Connecting)] && d.signals[..1][..0] == [];
  }

  /** A pending refresh does arise, with an empty store whose reply can be sent. */
  lemma SomeRefreshIsPending(w: Wire) returns (prior: seq<Event>)
    requires Lawful(w) && ReplyPayload(w, None).Some?
    ensures var world := Run(w, START, prior);
      && Live(world) && ReplyPayload(w, P.ValueAt(world.system.store, P.Version(world.system))).Some?
      && world.view.refreshing && |world.system.log.delivered| < |world.system.log.asked|
  {
    hide Step, ReplyPayload, Lawful;
    prior := [FIRST_EVENT];
    NoEvents(w, Step(w, START, FIRST_EVENT));
    OneEvent(w, START, FIRST_EVENT, []);
    StartAtOnce(w, []);
  }

  /** Over the small wire such a refresh arises and ends. */
  lemma SomeRefreshEnds() returns (prior: seq<Event>, events: seq<Event>)
    ensures var before := Run(SmallWire(), START, prior);
      before.view.refreshing && !Run(SmallWire(), before, events).view.refreshing
  {
    hide Run, Lawful, ReplyPayload;
    SmallWireIsLawful();
    SmallWireCarriesNoSnapshot();
    prior := SomeRefreshIsPending(SmallWire());
    events := EveryRefreshCanEnd(SmallWire(), prior, 0);
  }

  /** The last snapshot told is the last one delivered. */
  lemma LastTold(w: Wire, world: World)
    requires Legal(RequestPayload(w)) && Inv(w, world) && world.system.log.delivered != []
    ensures var (told, delivered) := (world.told, world.system.log.delivered);
      told != [] && told[|told| - 1] == delivered[|delivered| - 1]
  {
    hide V.Inv, P.Inv, PR.HistoryInv, Mirrors, Delivered;
    assert Snapshots([]) == [];
    assert world.told + [] == world.told;
  }

  /** A reply asked for at the store's newest version, and delivered, tells the newest snapshot. */
  lemma NewestIsDelivered(w: Wire, s: P.System)
    requires P.Inv(w, s) && |s.log.asked| == |s.log.delivered| == 1 && s.log.asked == [|s.store|]
    ensures s.log.delivered == [Told(P.ValueAt(s.store, |s.store|))]
  {
    hide P.RequestBytes, P.ReplyBytes, ReplyPayload, Told, P.ValueAt;
    assert s.log.answered[0] == |s.store|;
    assert s.log.delivered[0] == P.Spoken(s.store, s.log, 0);
  }

  /** For any snapshot whose reply can be sent there is a run that tells it to the window. */
  lemma AnySnapshotIsTold(w: Wire, snapshot: LatestSnapshot) returns (events: seq<Event>)
    requires Lawful(w) && ReplyPayload(w, Some(snapshot)).Some?
    ensures var world := Run(w, START, events);
      world.told != [] && world.told[|world.told| - 1] == Told(Some(snapshot)) && world.system.store == [snapshot]
  {
    hide Step, Run, Inv, P.Inv, Lawful, Legal, RequestPayload, ReplyPayload, Told;
    var publish := OfAgent(P.Publish(snapshot));
    var prior := [publish] + [FIRST_EVENT];
    PublishFirst(w, snapshot);
    OneEvent(w, START, publish, [FIRST_EVENT]);
    OneEvent(w, Published([snapshot]), FIRST_EVENT, []);
    NoEvents(w, Step(w, Published([snapshot]), FIRST_EVENT));
    StartAtOnce(w, [snapshot]);
    assert Run(w, START, prior) == Step(w, Published([snapshot]), FIRST_EVENT);
    assert P.ValueAt([snapshot], 1) == Some(snapshot);
    var more := EveryRefreshCanEnd(w, prior, 0);
    events := prior + more;
    RunsTogether(w, START, prior, more);
    EveryRunKeepsInv(w, events);
    var world := Run(w, START, events);
    InvParts(w, world);
    NewestIsDelivered(w, world.system);
    LastTold(w, world);
  }

  lemma PublishFirst(w: Wire, snapshot: LatestSnapshot)
    ensures Step(w, START, OfAgent(P.Publish(snapshot))) == Published([snapshot])
  {
  }

  lemma {:induction false} RunsTogether(w: Wire, world: World, a: seq<Event>, b: seq<Event>)
    ensures Run(w, world, a + b) == Run(w, Run(w, world, a), b)
    decreases |a|
  {
    hide Step;
    if a == [] {
      assert a + b == b;
    } else {
      assert (a + b)[1..] == a[1..] + b;
      RunsTogether(w, Step(w, world, a[0]), a[1..], b);
    }
  }

  /** What a snapshot tells is the time of one cycle, the CPU usage between its two readings of the
      system times, and its reading of the memory status. */
  predicate Collected(told: LocalAgentSnapshot, o: T.RunnerOptions, env: T.CycleEnv) {
    && told.collectedAtUnixMs == env.now
    && CpuUsage.MeasuredFrom(told.cpu, o.cpuSampleIntervalMs, env.firstTimes, env.secondTimes)
    && CpuUsage.ReadFrom(told.memory, env.memoryStatus)
  }

  lemma PublishedIsCollected(o: T.RunnerOptions, deviceId: string, envs: nat -> T.CycleEnv, cycles: nat, version: nat)
    requires 0 < version <= 2 * cycles
    ensures var store := T.Published(o, deviceId, envs, cycles);
      var told := Told(P.ValueAt(store, version));
      && Collected(told, o, envs((version - 1) / 2))
      && (told.cpu.Some? ==> ValidCpu(told.cpu.value)) && (told.memory.Some? ==> ValidMemory(told.memory.value))
  {
    hide T.CpuOf, T.MemoryOf, T.Published, T.ResultOfCycle, StatusText.Both, Told, CpuUsage.MeasuredFrom,
      CpuUsage.ReadFrom;
    var c := (version - 1) / 2;
    T.PublishTrace(o, deviceId, envs, cycles, c);
    var snapshot := T.Published(o, deviceId, envs, cycles)[version - 1];
    assert version - 1 == 2 * c || version - 1 == 2 * c + 1;
    ReplyTellsTheStore(Some(snapshot));
  }

  /** From the collectors to the window: with an Agent whose store is filled by the telemetry cycle,
      every snapshot told is empty, or has the time, the CPU and the memory metric of one and the
      same cycle; the figures are valid, for a cycle collects no others. */
  lemma EveryFigureIsCollected(w: Wire, events: seq<Event>, o: T.RunnerOptions, deviceId: string,
                               envs: nat -> T.CycleEnv, cycles: nat)
    requires Lawful(w) && Run(w, START, events).system.store <= T.Published(o, deviceId, envs, cycles)
    ensures var told := Run(w, START, events).told;
      forall i :: 0 <= i < |told| && told[i].hasSnapshot ==>
        && (exists c: nat :: c < cycles && Collected(told[i], o, envs(c)))
        && (told[i].cpu.Some? ==> ValidCpu(told[i].cpu.value))
        && (told[i].memory.Some? ==> ValidMemory(told[i].memory.value))
  {
    hide Run, Lawful, T.Published, Told, Collected, ValidCpu, ValidMemory, Sorted, PR.AllVersions;
    EveryTellingIsTrue(w, events);
    var (told, system) := (Run(w, START, events).told, Run(w, START, events).system);
    var (versions, published) := (PR.AllVersions(PR.Logs(system)), T.Published(o, deviceId, envs, cycles));
    forall i | 0 <= i < |told| && told[i].hasSnapshot
      ensures exists c: nat :: c < cycles && Collected(told[i], o, envs(c))
      ensures told[i].cpu.Some? ==> ValidCpu(told[i].cpu.value)
      ensures told[i].memory.Some? ==> ValidMemory(told[i].memory.value)
    {
      var v := versions[i];
      ReplyTellsTheStore(P.ValueAt(system.store, v));
      assert v > 0;
      assert P.ValueAt(system.store, v) == P.ValueAt(published, v);
      PublishedIsCollected(o, deviceId, envs, cycles, v);
      assert Collected(told[i], o, envs((v - 1) / 2));
    }
  }

  const SMALL_OPTIONS := T.RunnerOptions(1, 1, 1)

  const SMALL_CYCLE := T.CycleEnv(None, None, Some((9, 4)), 7, Telemetry.ServiceOutcome)

  /** There is a run in which figures reach the window: over the small wire, with what one cycle
      publishes first that could not read the system times, that very snapshot is told. */
  lemma SomeFigureIsTold() returns (events: seq<Event>)
    ensures Lawful(SmallWire())
    ensures var world := Run(SmallWire(), START, events);
      && world.told != [] && world.told[|world.told| - 1] == Told(Some(SMALL_SNAPSHOT))
      && world.told[|world.told| - 1].hasSnapshot
      && world.system.store <= T.Published(SMALL_OPTIONS, "device", _ => SMALL_CYCLE, 1)
  {
    hide Run, Lawful, ReplyPayload, Told;
    SmallWireIsLawful();
    SmallWireCarriesSnapshot();
    events := AnySnapshotIsTold(SmallWire(), SMALL_SNAPSHOT);
    ReplyTellsTheStore(Some(SMALL_SNAPSHOT));
    SmallCyclePublishes();
  }

  lemma SmallCyclePublishes()
    ensures [SMALL_SNAPSHOT] <= T.Published(SMALL_OPTIONS, "device", _ => SMALL_CYCLE, 1)
  {
    hide T.LastSnapshot;
    var errors := T.CollectionErrors(SMALL_OPTIONS, SMALL_CYCLE);
    assert errors == ["CPU metric collection failed"];
    assert T.FirstSnapshot(SMALL_OPTIONS, SMALL_CYCLE) == SMALL_SNAPSHOT;
    var envs: nat -> T.CycleEnv := _ => SMALL_CYCLE;
    assert T.Published(SMALL_OPTIONS, "device", envs, 0) == [];
  }
}
