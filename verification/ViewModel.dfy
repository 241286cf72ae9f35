/** The view model of the Desktop window (desktop/src/system_metrics_view_model.cpp) and its life
    beside the client whose signals drive it. Wording of texts is left out. */
module ViewModel {
  import opened Prelude
  import opened Rounding
  import opened TelemetryModel
  import opened LocalAgentMessages
  import opened ClientState
  import R = Reconnect
  import StreamReceiver
  import CpuUsage
  import Framing

  const BYTES_PER_GIB := 1024.0 * 1024.0 * 1024.0
  const STALE_AFTER_MS := 15000

  datatype Metrics = Metrics(cpuUsage: Double, memoryUsage: real, memoryUsedGib: real, memoryTotalGib: real)

  datatype View = View(metrics: Metrics, refreshing: bool, agentAvailable: bool, dataStale: bool, hasSnapshot: bool)

  const INITIAL_VIEW := View(Metrics(Finite(0.0), 0.0, 0.0, 0.0), false, false, false, false)

  /** A byte count as a double, divided by the bytes of a GiB. */
  function Gib(bytes: UInt64): (gib: real)
    ensures gib >= 0.0
  {
    RoundBounds(bytes as real);
    RoundBounds(Round(bytes as real) / BYTES_PER_GIB);
    Round(Round(bytes as real) / BYTES_PER_GIB)
  }

  function ShowMemory(m: Metrics, memory: MemoryMetric): Metrics {
    var (used, total) := (Gib(memory.UsedBytes()), Gib(memory.totalBytes));
    m.(memoryUsedGib := used, memoryTotalGib := total,
       memoryUsage := if total > 0.0 then Percent(used, total) else 0.0)
  }

  function ApplySnapshot(v: View, s: LocalAgentSnapshot, nowMs: int): View {
    if !s.hasSnapshot then v.(refreshing := false, dataStale := v.hasSnapshot)
    else
      var m := if s.cpu.Some? then v.metrics.(cpuUsage := s.cpu.value.usagePercent) else v.metrics;
      v.(refreshing := false, hasSnapshot := true,
         dataStale := s.collectedAtUnixMs <= 0 || nowMs - s.collectedAtUnixMs > STALE_AFTER_MS,
         metrics := if s.memory.Some? then ShowMemory(m, s.memory.value) else m)
  }

  function ApplyConnectionState(v: View, s: ConnectionState): View {
    match s
    case Connecting => v.(agentAvailable := false, refreshing := true)
    case Connected => v.(agentAvailable := true, refreshing := true)
    case Disconnected => v.(agentAvailable := false, refreshing := false, dataStale := v.hasSnapshot)
  }

  function Apply(v: View, s: Signal, nowMs: int): View {
    match s
    case StateChanged(state) => ApplyConnectionState(v, state)
    case SnapshotReceived(snapshot) => ApplySnapshot(v, snapshot, nowMs)
    case ErrorReported(_) => v.(refreshing := false)
  }

  /** The view after some signals. */
  function After(v: View, signals: seq<Signal>, nowMs: int): View {
    if signals == [] then v
    else Apply(After(v, signals[..|signals| - 1], nowMs), signals[|signals| - 1], nowMs)
  }

  class SystemMetricsViewModel {
    var cpuUsage: Double
    var memoryUsage: real
    var memoryUsedGib: real
    var memoryTotalGib: real
    var refreshing: bool
    var agentAvailable: bool
    var dataStale: bool
    var hasSnapshot: bool

    ghost function Shown(): View reads this {
      View(Metrics(cpuUsage, memoryUsage, memoryUsedGib, memoryTotalGib), refreshing, agentAvailable, dataStale,
          hasSnapshot)
    }

    constructor ()
      ensures Shown() == INITIAL_VIEW
    {
      cpuUsage, memoryUsage, memoryUsedGib, memoryTotalGib := Finite(0.0), 0.0, 0.0, 0.0;
      refreshing, agentAvailable, dataStale, hasSnapshot := false, false, false, false;
    }

    /** The guard of `refresh`; `ask` tells whether the client is then asked for a snapshot. */
    method Refresh() returns (ask: bool)
      modifies this
      ensures ask == (old(agentAvailable) && !old(refreshing))
      ensures Shown() == if ask then old(Shown()).(refreshing := true) else old(Shown())
    {
      if !agentAvailable || refreshing {
        return false;
      }
      refreshing := true;
      ask := true;
    }

    method OnSnapshot(s: LocalAgentSnapshot, nowMs: int)
      modifies this
      ensures Shown() == ApplySnapshot(old(Shown()), s, nowMs)
      ensures !s.hasSnapshot ==> Shown() == old(Shown()).(refreshing := false, dataStale := old(hasSnapshot))
    {
      refreshing := false;
      if !s.hasSnapshot {
        dataStale := hasSnapshot;
        return;
      }
      hasSnapshot := true;
      var age := nowMs - s.collectedAtUnixMs;
      dataStale := s.collectedAtUnixMs <= 0 || age > STALE_AFTER_MS;
      if s.cpu.Some? {
        cpuUsage := s.cpu.value.usagePercent;
      }
      if s.memory.Some? {
        var usedBytes := s.memory.value.UsedBytes();
        memoryUsedGib := Gib(usedBytes);
        memoryTotalGib := Gib(s.memory.value.totalBytes);
        memoryUsage := if memoryTotalGib > 0.0 then Percent(Gib(usedBytes), Gib(s.memory.value.totalBytes)) else 0.0;
      }
    }

    method OnConnectionState(s: ConnectionState)
      modifies this
      ensures Shown() == ApplyConnectionState(old(Shown()), s)
    {
      match s {
        case Connecting =>
          agentAvailable := false;
          refreshing := true;
        case Connected =>
          agentAvailable := true;
          refreshing := true;
        case Disconnected =>
          agentAvailable := false;
          refreshing := false;
          dataStale := hasSnapshot;
      }
    }

    method OnProtocolError()
      modifies this
      ensures Shown() == old(Shown()).(refreshing := false)
    {
      refreshing := false;
    }
  }

  lemma GibIsExact(bytes: UInt64)
    ensures Gib(bytes) == Round(bytes as real) / BYTES_PER_GIB
  {
    hide Round;
    ScalingIsExact(bytes as real);
  }

  /** The memory shown is a share of the total, whatever the Agent sent. */
  lemma ShownMemoryIsAShare(m: Metrics, memory: MemoryMetric)
    ensures var shown := ShowMemory(m, memory);
      0.0 <= shown.memoryUsage <= 100.0 && shown.memoryUsedGib <= shown.memoryTotalGib
  {
    hide Round, Gib, Percent;
    var (used, total) := (memory.UsedBytes(), memory.totalBytes);
    GibIsExact(used);
    GibIsExact(total);
    RoundMonotone(used as real, total as real);
    if Gib(total) > 0.0 {
      PercentInRange(Gib(used), Gib(total));
    }
  }

  /** The figures shown are within some units of relative error 2^-53 of the exact ones. */
  predicate Accurate(m: Metrics, used: real, total: real)
    requires total > 0.0
  {
    && Near(m.memoryTotalGib * 1073741824.0, total, 1.0) && Near(m.memoryUsedGib * 1073741824.0, used, 1.0)
    && Near(m.memoryUsage, 100.0 * (used / total), 5.0)
  }

  /** From the Agent's store to the window: the figures shown are those stored, a metric that is
      missing leaves the one shown before, and what is old or undated is marked as stale. */
  lemma WindowShowsTheStore(v: View, s: LatestSnapshot, nowMs: int)
    ensures var after := ApplySnapshot(v, Told(Some(s)), nowMs);
      && after.hasSnapshot && !after.refreshing && after.agentAvailable == v.agentAvailable
      && (after.dataStale <==> s.collectedAt <= 0 || nowMs - s.collectedAt > 15000)
      && after.metrics.cpuUsage == (if s.cpu.Some? then s.cpu.value.usagePercent else v.metrics.cpuUsage)
      && (s.memory.None? ==> after.metrics == v.metrics.(cpuUsage := after.metrics.cpuUsage))
      && (s.memory.Some? && ValidMemory(s.memory.value) ==>
            var (m, memory) := (after.metrics, s.memory.value);
            Accurate(m, (memory.totalBytes - memory.availableBytes) as real, memory.totalBytes as real))
  {
    hide ShowMemory, Accurate, Told;
    ReplyTellsTheStore(Some(s));
    if s.memory.Some? {
      var m := if s.cpu.Some? then v.metrics.(cpuUsage := s.cpu.value.usagePercent) else v.metrics;
      MemoryKeepsCpu(m, s.memory.value);
      if ValidMemory(s.memory.value) {
        ShownMemoryIsAccurate(m, s.memory.value);
      }
    }
  }

  /** A reply without a snapshot ends the refresh, leaves every figure as it was, and marks as stale what
      was ever shown. */
  lemma EmptyReplyKeepsFigures(v: View, s: LocalAgentSnapshot, nowMs: int)
    requires !s.hasSnapshot
    ensures var after := ApplySnapshot(v, s, nowMs);
      && after.metrics == v.metrics && after.hasSnapshot == v.hasSnapshot && after.dataStale == v.hasSnapshot
      && !after.refreshing && after.agentAvailable == v.agentAvailable
    ensures ApplySnapshot(v, Told(None), nowMs) == v.(refreshing := false, dataStale := v.hasSnapshot)
  {
  }

  lemma MemoryKeepsCpu(m: Metrics, memory: MemoryMetric)
    ensures ShowMemory(m, memory).cpuUsage == m.cpuUsage
  {
  }

  lemma SameQuotient(a: real, b: real, scale: real)
    requires b > 0.0 && scale > 0.0
    ensures b / scale > 0.0 && (a / scale) / (b / scale) == a / b
  {
    var q := a / b;
    assert q * b == a;
    assert q * (b / scale) == a / scale;
  }

  /** Both GiB figures are the exact ones but for one rounding, the percentage but for four. */
  lemma ShownMemoryIsAccurate(m: Metrics, memory: MemoryMetric)
    requires ValidMemory(memory)
    ensures Accurate(ShowMemory(m, memory), (memory.totalBytes - memory.availableBytes) as real,
      memory.totalBytes as real)
  {
    hide Round, Gib, CpuUsage.UsagePercent;
    var (used, total) := (memory.UsedBytes(), memory.totalBytes);
    GibIsExact(used);
    GibIsExact(total);
    RoundBounds(used as real);
    RoundBounds(total as real);
    SameQuotient(Round(used as real), Round(total as real), BYTES_PER_GIB);
    PercentIsUsage(used, total);
    CpuUsage.UsageIsAccurate(used, total);
  }

  lemma PercentIsUsage(used: UInt64, total: UInt64)
    requires total > 0 && Gib(total) > 0.0
    requires Gib(used) / Gib(total) == Round(used as real) / Round(total as real)
    ensures Percent(Gib(used), Gib(total)) == CpuUsage.UsagePercent(used, total)
  {
    hide Round, Gib;
  }

  // ----- the view beside the client -----

  /** `client.signals` are those of the last event only; the view has taken them all in. */
  datatype Desktop = Desktop(client: Client, view: View)

  datatype DesktopEvent = RefreshClicked(queued: bool, now: bool) | ClientEvent(event: R.Event)

  function Refreshed(v: View): View {
    v.(refreshing := true)
  }

  function Step(w: Wire, d: Desktop, e: DesktopEvent, nowMs: int): Desktop {
    var c := d.client.(signals := []);
    match e
    case ClientEvent(event) =>
      var c' := R.Step(w, c, event);
      Desktop(c', After(d.view, c'.signals, nowMs))
    case RefreshClicked(queued, now) =>
      if !d.view.agentAvailable || d.view.refreshing then Desktop(c, d.view)
      else
        var c' := RequestSnapshot(w, c, queued, now);
        Desktop(c', After(Refreshed(d.view), c'.signals, nowMs))
  }

  /** Availability is the last reported state; data shown while disconnected are marked stale. */
  predicate Reported(c: Client, v: View) {
    && (v.agentAvailable <==> c.connection == Connected)
    && (c.connection == Disconnected ==> !v.refreshing && v.dataStale == v.hasSnapshot)
  }

  /** A refresh indication has something to wait for: a connection being made, a request written on
      this connection since its last snapshot, or a socket that is no longer up. */
  predicate NotStuck(c: Client, v: View) {
    v.refreshing ==>
      || c.connection == Connecting
      || (c.connection == Connected && (c.awaiting || c.socket != SocketConnected))
  }

  predicate Agrees(c: Client, v: View) {
    Reported(c, v) && NotStuck(c, v)
  }

  lemma AfterEmit(v: View, c: Client, s: Signal, nowMs: int)
    ensures After(v, Emit(c, s).signals, nowMs) == Apply(After(v, c.signals, nowMs), s, nowMs)
  {
    assert (c.signals + [s])[..|c.signals|] == c.signals;
  }

  lemma SetStateReports(v: View, c: Client, s: ConnectionState, nowMs: int)
    requires Reported(c, After(v, c.signals, nowMs))
    ensures var d := SetState(c, s);
      var after := After(v, d.signals, nowMs);
      Reported(d, after) && (c.connection != s && s != Disconnected ==> after.refreshing)
  {
    AfterEmit(v, c.(connection := s), StateChanged(s), nowMs);
  }

  /** Being told of a loss brings the view in step with the client. */
  lemma DisconnectedAgrees(v: View, c: Client, nowMs: int)
    requires Reported(c, After(v, c.signals, nowMs))
    ensures var d := HandleDisconnected(c); Agrees(d, After(v, d.signals, nowMs))
  {
    hide After, SetState;
    SetStateReports(v, c.(polling := false, buffer := []), Disconnected, nowMs);
    SetStateKeeps(c.(polling := false, buffer := []), Disconnected);
    DisconnectedIsNotStuck(HandleDisconnected(c), After(v, HandleDisconnected(c).signals, nowMs));
  }

  lemma DisconnectedIsNotStuck(c: Client, v: View)
    requires Reported(c, v) && c.connection == Disconnected
    ensures Agrees(c, v)
  {
  }

  lemma ErrorAgrees(v: View, c: Client, nowMs: int)
    requires Reported(c, After(v, c.signals, nowMs))
    requires c.socket == Unconnected || NotStuck(c, After(v, c.signals, nowMs))
    ensures var d := HandleSocketError(c); Agrees(d, After(v, d.signals, nowMs))
  {
    hide After, SetState;
    SetStateReports(v, c.(polling := false), Disconnected, nowMs);
    SetStateKeeps(c.(polling := false), Disconnected);
  }

  lemma AbortAgrees(v: View, c: Client, now: bool, nowMs: int)
    requires Agrees(c, After(v, c.signals, nowMs))
    ensures var d := Abort(c, now); Agrees(d, After(v, d.signals, nowMs))
  {
    hide HandleDisconnected;
    if c.socket != Unconnected && now {
      DisconnectedAgrees(v, c.(socket := Unconnected, upPending := false, downPending := false), nowMs);
    }
  }

  /** Asking for a snapshot gives a refresh indication something to wait for, or takes it back. */
  lemma RequestAgrees(w: Wire, v: View, c: Client, queued: bool, now: bool, nowMs: int)
    requires Reported(c, After(v, c.signals, nowMs))
    requires c.connection == Connected || NotStuck(c, After(v, c.signals, nowMs))
    ensures var d := RequestSnapshot(w, c, queued, now); Agrees(d, After(v, d.signals, nowMs))
  {
    hide Abort, Emit;
    if c.socket == SocketConnected {
      ErrorTakesBack(v, c, RequestNotSerialized, nowMs);
      ErrorTakesBack(v, c, RequestNotFramed, nowMs);
      ErrorTakesBack(v, c, RequestNotQueued, nowMs);
      AbortAgrees(v, Emit(c, ErrorReported(RequestNotQueued)), now, nowMs);
    }
  }

  lemma ErrorTakesBack(v: View, c: Client, e: ProtocolError, nowMs: int)
    requires Reported(c, After(v, c.signals, nowMs))
    ensures var d := Emit(c, ErrorReported(e)); Agrees(d, After(v, d.signals, nowMs))
  {
    hide After;
    AfterEmit(v, c, ErrorReported(e), nowMs);
  }

  lemma ConnectedAgrees(w: Wire, v: View, c: Client, queued: bool, now: bool, nowMs: int)
    requires Reported(c, After(v, c.signals, nowMs))
    ensures var d := HandleConnected(w, c, queued, now); Agrees(d, After(v, d.signals, nowMs))
  {
    hide RequestSnapshot;
    SetStateReports(v, Reset(c), Connected, nowMs);
    RequestAgrees(w, v, SetState(Reset(c), Connected).(polling := true), queued, now, nowMs);
  }

  lemma ConnectAgrees(w: Wire, v: View, c: Client, outcome: ConnectOutcome, nowMs: int)
    requires Agrees(c, After(v, c.signals, nowMs))
    ensures var d := ConnectToAgent(w, c, outcome); Agrees(d, After(v, d.signals, nowMs))
  {
    hide HandleConnected, HandleSocketError, SetState;
    if c.running && c.socket == Unconnected {
      SetStateReports(v, c, Connecting, nowMs);
      SetStateKeeps(c, Connecting);
      ConnectSocketAgrees(w, v, SetState(c, Connecting), outcome, nowMs);
    }
  }

  lemma SetStateKeeps(c: Client, s: ConnectionState)
    ensures SetState(c, s).connection == s && SetState(c, s).socket == c.socket
  {
  }

  lemma ConnectSocketAgrees(w: Wire, v: View, c: Client, outcome: ConnectOutcome, nowMs: int)
    requires Reported(c, After(v, c.signals, nowMs)) && c.socket == Unconnected
    ensures var d := ConnectSocket(w, c, outcome);
      && Reported(d, After(v, d.signals, nowMs))
      && (c.connection == Connecting ==> NotStuck(d, After(v, d.signals, nowMs)))
  {
    hide HandleConnected, HandleSocketError;
    var d := c.(attempts := c.attempts + 1, downPending := false, outgoing := []);
    match outcome
    case UpAtOnce(queued, now) => ConnectedAgrees(w, v, d.(socket := SocketConnected), queued, now, nowMs);
    case FailedAtOnce => ErrorAgrees(v, d, nowMs);
    case _ =>
  }

  lemma StopAgrees(v: View, c: Client, now: bool, nowMs: int)
    requires Agrees(c, After(v, c.signals, nowMs))
    ensures var d := Stop(c, now); Agrees(d, After(v, d.signals, nowMs))
  {
    hide Abort;
    var d := c.(running := false, reconnect := None, polling := false, buffer := []);
    AbortAgrees(v, d, now, nowMs);
    SetStateReports(v, Abort(d, now), Disconnected, nowMs);
  }

  predicate NoStates(signals: seq<Signal>) {
    forall i :: 0 <= i < |signals| ==> !signals[i].StateChanged?
  }

  /** Replies, good or bad, end a refresh and leave the reported state alone. */
  lemma {:induction false} RepliesEndRefresh(v: View, signals: seq<Signal>, outputs: seq<Signal>, nowMs: int)
    requires NoStates(outputs)
    ensures var (before, after) := (After(v, signals, nowMs), After(v, signals + outputs, nowMs));
      && after.agentAvailable == before.agentAvailable
      && (outputs == [] ==> after == before)
      && (outputs != [] ==> !after.refreshing)
    decreases |outputs|
  {
    if outputs == [] {
      assert signals + outputs == signals;
    } else {
      var init := outputs[..|outputs| - 1];
      assert (signals + outputs)[..|signals + outputs| - 1] == signals + init;
      RepliesEndRefresh(v, signals, init, nowMs);
    }
  }

  lemma RepliesAreNotStates(w: Wire, b: seq<Byte>)
    ensures NoStates(StreamReceiver.Receive(ReplyHandler(w), 0, b).outputs)
  {
    hide StreamReceiver.Receive;
    var h := ReplyHandler(w);
    var ps := Framing.DecodeStream(b).payloads;
    var outputs := StreamReceiver.Receive(h, 0, b).outputs;
    StreamReceiver.ReceiveRefinesDecoder(h, 0, b);
    forall i | 0 <= i < |outputs| ensures !outputs[i].StateChanged? {
      assert outputs[i] == h(0 + i, ps[i]).0 == ReadReply(w, ps[i]).0;
    }
  }

  lemma TakeRepliesAgrees(w: Wire, v: View, c: Client, now: bool, nowMs: int)
    requires Agrees(c, After(v, c.signals, nowMs)) && c.connection == Connected
    ensures var d := TakeReplies(w, c, now); Agrees(d, After(v, d.signals, nowMs))
  {
    hide Abort, StreamReceiver.Receive, ReplyHandler, Emit, After;
    var r := StreamReceiver.Receive(ReplyHandler(w), 0, c.buffer);
    RepliesAreNotStates(w, c.buffer);
    RepliesEndRefresh(v, c.signals, r.outputs, nowMs);
    var d := AfterReplies(c, r.outputs, r.rest);
    assert r.outputs == [] ==> Snapshots(r.outputs) == [];
    assert Agrees(d, After(v, d.signals, nowMs));
    ErrorTakesBack(v, d, BadFrameLength, nowMs);
    AbortAgrees(v, Emit(d, ErrorReported(BadFrameLength)), now, nowMs);
    AbortAgrees(v, d, now, nowMs);
  }

  lemma EventAgrees(w: Wire, v: View, c: Client, e: R.Event, nowMs: int)
    requires R.Inv(c) && Agrees(c, After(v, c.signals, nowMs))
    ensures var d := R.Step(w, c, e); Agrees(d, After(v, d.signals, nowMs))
  {
    hide Stop, RequestSnapshot, HandleConnected, HandleDisconnected, HandleSocketError, ConnectToAgent, TakeReplies,
      After;
    if R.Enabled(c, e) {
      match e
      case StartCalled(outcome) => ConnectAgrees(w, v, c.(running := true, attempt := 0, waits := []), outcome, nowMs);
      case StopCalled(now) => StopAgrees(v, c, now, nowMs);
      case RequestCalled(queued, now) => RequestAgrees(w, v, c, queued, now, nowMs);
      case ReconnectTimerFires(outcome) => ConnectAgrees(w, v, c.(reconnect := None), outcome, nowMs);
      case PollTimerFires(queued, now) => RequestAgrees(w, v, c, queued, now, nowMs);
      case SocketComesUp =>
      case SocketStartsClosing =>
      case SocketGoesDown =>
      case ConnectedNotified(queued, now) => ConnectedAgrees(w, v, c.(upPending := false), queued, now, nowMs);
      case DisconnectedNotified => DisconnectedAgrees(v, c.(downPending := false), nowMs);
      case ErrorNotified => ErrorAgrees(v, if c.socket == Unconnected then c.(downPending := false) else c, nowMs);
      case BytesReady(bytes, now) => TakeRepliesAgrees(w, v, c.(buffer := c.buffer + bytes), now, nowMs);
    }
  }

  // ----- what changes the metrics -----

  lemma EmitTellsNone(c: Client, s: Signal)
    requires !s.SnapshotReceived?
    ensures Snapshots(Emit(c, s).signals) == Snapshots(c.signals)
  {
    SnapshotsSplit(c.signals, [s]);
    SnapshotsOne(s);
    assert Snapshots(c.signals) + [] == Snapshots(c.signals);
  }

  lemma SetStateTellsNone(c: Client, s: ConnectionState)
    ensures Snapshots(SetState(c, s).signals) == Snapshots(c.signals)
  {
    EmitTellsNone(c.(connection := s), StateChanged(s));
  }

  lemma LossTellsNone(c: Client)
    ensures Snapshots(HandleDisconnected(c).signals) == Snapshots(c.signals)
  {
    hide SetState;
    SetStateTellsNone(c.(polling := false, buffer := []), Disconnected);
  }

  lemma ErrorTellsNone(c: Client)
    ensures Snapshots(HandleSocketError(c).signals) == Snapshots(c.signals)
  {
    hide SetState;
    SetStateTellsNone(c.(polling := false), Disconnected);
  }

  lemma AbortTellsNone(c: Client, now: bool)
    ensures Snapshots(Abort(c, now).signals) == Snapshots(c.signals)
  {
    hide HandleDisconnected;
    LossTellsNone(c.(socket := Unconnected, upPending := false, downPending := false));
  }

  lemma StopTellsNone(c: Client, now: bool)
    ensures Snapshots(Stop(c, now).signals) == Snapshots(c.signals)
  {
    hide Abort, SetState;
    var d := c.(running := false, reconnect := None, polling := false, buffer := []);
    AbortTellsNone(d, now);
    SetStateTellsNone(Abort(d, now), Disconnected);
  }

  lemma RequestTellsNone(w: Wire, c: Client, queued: bool, now: bool)
    ensures Snapshots(RequestSnapshot(w, c, queued, now).signals) == Snapshots(c.signals)
  {
    hide Abort, Emit, Framing.Legal, Framing.Frame;
    EmitTellsNone(c, ErrorReported(RequestNotSerialized));
    EmitTellsNone(c, ErrorReported(RequestNotFramed));
    EmitTellsNone(c, ErrorReported(RequestNotQueued));
    AbortTellsNone(Emit(c, ErrorReported(RequestNotQueued)), now);
  }

  lemma ConnectedTellsNone(w: Wire, c: Client, queued: bool, now: bool)
    ensures Snapshots(HandleConnected(w, c, queued, now).signals) == Snapshots(c.signals)
  {
    hide RequestSnapshot, SetState;
    SetStateTellsNone(Reset(c), Connected);
    RequestTellsNone(w, SetState(Reset(c), Connected).(polling := true), queued, now);
  }

  lemma ConnectTellsNone(w: Wire, c: Client, outcome: ConnectOutcome)
    ensures Snapshots(ConnectToAgent(w, c, outcome).signals) == Snapshots(c.signals)
  {
    hide HandleConnected, HandleSocketError, SetState;
    SetStateTellsNone(c, Connecting);
    var d := SetState(c, Connecting).(attempts := SetState(c, Connecting).attempts + 1, downPending := false,
        outgoing := []);
    match outcome
    case UpAtOnce(queued, now) => ConnectedTellsNone(w, d.(socket := SocketConnected), queued, now);
    case FailedAtOnce => ErrorTellsNone(d);
    case _ =>
  }

  lemma EventTellsNone(w: Wire, c: Client, e: R.Event)
    requires !e.BytesReady?
    ensures Snapshots(R.Step(w, c, e).signals) == Snapshots(c.signals)
  {
    hide Stop, RequestSnapshot, HandleConnected, HandleDisconnected, HandleSocketError, ConnectToAgent, Snapshots;
    match e
    case StartCalled(outcome) => ConnectTellsNone(w, c.(running := true, attempt := 0, waits := []), outcome);
    case StopCalled(now) => StopTellsNone(c, now);
    case RequestCalled(queued, now) => RequestTellsNone(w, c, queued, now);
    case ReconnectTimerFires(outcome) => ConnectTellsNone(w, c.(reconnect := None), outcome);
    case PollTimerFires(queued, now) => RequestTellsNone(w, c, queued, now);
    case ConnectedNotified(queued, now) => ConnectedTellsNone(w, c.(upPending := false), queued, now);
    case DisconnectedNotified => LossTellsNone(c.(downPending := false));
    case ErrorNotified => ErrorTellsNone(if c.socket == Unconnected then c.(downPending := false) else c);
    case _ =>
  }

  /** Of a step of the window: nothing but data from the Agent changes the figures shown. A loss of
      the connection, an error, a stop, a timer or a click keeps them, and whether there are any. */
  lemma OnlyDataChangesMetrics(w: Wire, d: Desktop, e: DesktopEvent, nowMs: int)
    requires !(e.ClientEvent? && e.event.BytesReady?)
    ensures var next := Step(w, d, e, nowMs).view;
      next.metrics == d.view.metrics && next.hasSnapshot == d.view.hasSnapshot
  {
    hide R.Step, RequestSnapshot, After;
    var c := d.client.(signals := []);
    match e
    case ClientEvent(event) =>
      EventTellsNone(w, c, event);
      MetricsNeedSnapshots(d.view, R.Step(w, c, event).signals, nowMs);
    case RefreshClicked(queued, now) =>
      RequestTellsNone(w, c, queued, now);
      MetricsNeedSnapshots(Refreshed(d.view), RequestSnapshot(w, c, queued, now).signals, nowMs);
  }

  // ----- every run of the window -----

  function Run(w: Wire, d: Desktop, events: seq<(DesktopEvent, int)>): Desktop
    decreases |events|
  {
    if events == [] then d else Run(w, Step(w, d, events[0].0, events[0].1), events[1..])
  }

  ghost predicate Inv(d: Desktop) {
    R.Inv(d.client) && Agrees(d.client, d.view)
  }

  lemma StepKeepsInv(w: Wire, d: Desktop, e: DesktopEvent, nowMs: int)
    requires Inv(d)
    ensures Inv(Step(w, d, e, nowMs))
  {
    hide R.Step, RequestSnapshot;
    var c := d.client.(signals := []);
    assert R.Inv(c);
    match e
    case ClientEvent(event) =>
      R.StepKeepsInv(w, c, event);
      EventAgrees(w, d.view, c, event, nowMs);
    case RefreshClicked(queued, now) =>
      if d.view.agentAvailable && !d.view.refreshing {
        R.RequestKeepsInv(w, c, queued, now);
        RequestAgrees(w, Refreshed(d.view), c, queued, now, nowMs);
      }
  }

  /** No stuck refresh. At every point of every run of the window, with any clock: a refresh
      indication has something to wait for, the Agent is shown as available exactly while the
      client reports it connected, and while it is disconnected old data are marked as stale. */
  lemma {:induction false} EveryRunAgrees(w: Wire, d: Desktop, events: seq<(DesktopEvent, int)>)
    requires Inv(d)
    ensures var end := Run(w, d, events); R.Inv(end.client) && Agrees(end.client, end.view)
    decreases |events|
  {
    hide Step;
    if events != [] {
      StepKeepsInv(w, d, events[0].0, events[0].1);
      EveryRunAgrees(w, Step(w, d, events[0].0, events[0].1), events[1..]);
    }
  }

  lemma WindowStartsInStep()
    ensures Inv(Desktop(INITIAL, INITIAL_VIEW))
  {
  }

  /** Nothing but a snapshot changes the metrics shown; in particular a disconnect keeps them. */
  lemma {:induction false} MetricsNeedSnapshots(v: View, signals: seq<Signal>, nowMs: int)
    requires Snapshots(signals) == []
    ensures After(v, signals, nowMs).metrics == v.metrics && After(v, signals, nowMs).hasSnapshot == v.hasSnapshot
    decreases |signals|
  {
    hide ApplySnapshot, Snapshots;
    if signals != [] {
      var (init, last) := (signals[..|signals| - 1], signals[|signals| - 1]);
      assert signals == init + [last];
      SnapshotsSplit(init, [last]);
      SnapshotsOne(last);
      MetricsNeedSnapshots(v, init, nowMs);
    }
  }
}
