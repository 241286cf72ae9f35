/** The telemetry cycle and its loop (agent/src/telemetry_runner.cpp). */
module TelemetryRunner {
  import opened Prelude
  import opened TelemetryModel
  import opened LocalAgentMessages
  import opened Telemetry
  import opened SnapshotStore
  import opened StopFlag
  import StatusText
  import CpuUsage

  const SLICE_MS := 100

  datatype RunnerOptions = RunnerOptions(collectionIntervalMs: int, cpuSampleIntervalMs: int, requestTimeoutMs: int)

  datatype CycleResult = CycleResult(cpuSubmitted: bool, memorySubmitted: bool, errorMessage: string)

  /** What a cycle meets: the system readings, the clock, and the telemetry service's answers. */
  datatype CycleEnv = CycleEnv(
    firstTimes: Option<CpuUsage.CpuTimes>,
    secondTimes: Option<CpuUsage.CpuTimes>,
    memoryStatus: Option<(UInt64, UInt64)>,
    now: Int64,
    rpc: ProtoEvent -> RpcOutcome)

  /** The constructor's complaint, if it has one. */
  function OptionsError(o: RunnerOptions, deviceId: string): Option<string> {
    if o.collectionIntervalMs <= 0 then Some("Collection interval must be positive")
    else if o.cpuSampleIntervalMs <= 0 then Some("CPU sample interval must be positive")
    else if o.cpuSampleIntervalMs > o.collectionIntervalMs then
      Some("CPU sample interval must not exceed collection interval")
    else if o.requestTimeoutMs <= 0 then Some("Request timeout must be positive")
    else if deviceId == "" then Some("Device ID must not be empty")
    else None
  }

  function Digit(d: int): char
    requires 0 <= d < 10
  {
    '0' + d as char
  }

  /** `std::to_string` of a whole number. */
  function Decimal(n: int): (text: string)
    ensures text != ""
    decreases n < 0, if n < 0 then -n else n
  {
    if n < 0 then "-" + Decimal(-n)
    else if n < 10 then [Digit(n)]
    else Decimal(n / 10) + [Digit(n % 10)]
  }

  // ----- what a cycle does, as one function of what it meets -----

  function CpuOf(o: RunnerOptions, env: CycleEnv): (m: Option<CpuMetric>)
    ensures m.Some? ==> ValidCpu(m.value)
    ensures CpuUsage.MeasuredFrom(m, o.cpuSampleIntervalMs, env.firstTimes, env.secondTimes)
  {
    CpuUsage.CollectCpuMetric(o.cpuSampleIntervalMs, env.firstTimes, env.secondTimes)
  }

  function MemoryOf(env: CycleEnv): (m: Option<MemoryMetric>)
    ensures m.Some? ==> ValidMemory(m.value)
    ensures CpuUsage.ReadFrom(m, env.memoryStatus)
  {
    CpuUsage.CollectMemoryMetric(env.memoryStatus)
  }

  function CpuEvent(deviceId: string, now: Int64, m: CpuMetric): TelemetryEvent {
    TelemetryEvent("cpu-event-" + Decimal(now), now, deviceId, None, Cpu(m))
  }

  function MemoryEvent(deviceId: string, now: Int64, m: MemoryMetric): TelemetryEvent {
    TelemetryEvent("memory-event-" + Decimal(now), now, deviceId, None, Memory(m))
  }

  function CollectionErrors(o: RunnerOptions, env: CycleEnv): (parts: seq<string>)
    ensures StatusText.NoneEmpty(parts)
    ensures parts == [] <==> CpuOf(o, env).Some? && MemoryOf(env).Some?
  {
    [] +
    StatusText.When(CpuOf(o, env).None?, "CPU metric collection failed") +
    StatusText.When(MemoryOf(env).None?, "Memory metric collection failed")
  }

  /** Whether a metric was there and the service accepted it; and the error text otherwise. */
  function Submitted(event: Option<TelemetryEvent>, rpc: ProtoEvent -> RpcOutcome): bool {
    event.Some? && Submit(event.value, rpc).accepted
  }

  function SubmissionError(what: string, event: Option<TelemetryEvent>, rpc: ProtoEvent -> RpcOutcome)
    : (parts: seq<string>)
    ensures parts == [] <==> event.None? || Submitted(event, rpc)
    ensures |parts| <= 1 && (what != "" ==> StatusText.NoneEmpty(parts))
  {
    if event.None? || Submitted(event, rpc) then []
    else
      var message := Submit(event.value, rpc).errorMessage;
      [what + (if message == "" then "unknown error" else message)]
  }

  const CPU_FAILED := "CPU telemetry submission failed: "
  const MEMORY_FAILED := "Memory telemetry submission failed: "

  function CpuEventOf(o: RunnerOptions, deviceId: string, env: CycleEnv): Option<TelemetryEvent> {
    match CpuOf(o, env)
    case None => None
    case Some(m) => Some(CpuEvent(deviceId, env.now, m))
  }

  function MemoryEventOf(deviceId: string, env: CycleEnv): Option<TelemetryEvent> {
    match MemoryOf(env)
    case None => None
    case Some(m) => Some(MemoryEvent(deviceId, env.now, m))
  }

  function SubmissionErrors(o: RunnerOptions, deviceId: string, env: CycleEnv): (parts: seq<string>)
    ensures StatusText.NoneEmpty(parts)
  {
    SubmissionError(CPU_FAILED, CpuEventOf(o, deviceId, env), env.rpc) +
    SubmissionError(MEMORY_FAILED, MemoryEventOf(deviceId, env), env.rpc)
  }

  /** Published right after collecting, before anything is sent. */
  function FirstSnapshot(o: RunnerOptions, env: CycleEnv): LatestSnapshot {
    LatestSnapshot(env.now, CpuOf(o, env), MemoryOf(env), StatusText.Joined(CollectionErrors(o, env)), "")
  }

  /** Published at the end of the cycle. */
  function LastSnapshot(o: RunnerOptions, deviceId: string, env: CycleEnv): LatestSnapshot {
    FirstSnapshot(o, env).(submissionError := StatusText.Joined(SubmissionErrors(o, deviceId, env)))
  }

  function ResultOfCycle(o: RunnerOptions, deviceId: string, env: CycleEnv): CycleResult {
    CycleResult(
      Submitted(CpuEventOf(o, deviceId, env), env.rpc),
      Submitted(MemoryEventOf(deviceId, env), env.rpc),
      StatusText.Joined(CollectionErrors(o, env) + SubmissionErrors(o, deviceId, env)))
  }

  // ----- the run -----

  /** A sleep of `ms`, begun after the stop flag's check number `check` found it clear. */
  datatype Slice = Slice(check: nat, ms: int)

  /** One turn of the loop: the check before its cycle, and the sleeps after it. */
  datatype Turn = Turn(check: nat, slices: seq<Slice>)

  function Slept(slices: seq<Slice>): int {
    if slices == [] then 0 else Slept(slices[..|slices| - 1]) + slices[|slices| - 1].ms
  }

  predicate Whole(t: Turn, intervalMs: int) {
    Slept(t.slices) == intervalMs
  }

  /** Each sleep is the rest of the interval, but at most one slice. */
  predicate Sliced(slices: seq<Slice>, intervalMs: int) {
    forall k :: 0 <= k < |slices| ==>
      var rest := intervalMs - Slept(slices[..k]); rest > 0 && slices[k].ms == Min(rest, SLICE_MS)
  }

  function SliceChecks(slices: seq<Slice>): seq<nat> {
    seq(|slices|, k requires 0 <= k < |slices| => slices[k].check)
  }

  /** The checks behind everything a run did, in order. */
  function Checks(turns: seq<Turn>): seq<nat> {
    if turns == [] then []
    else
      var last := turns[|turns| - 1];
      Checks(turns[..|turns| - 1]) + [last.check] + SliceChecks(last.slices)
  }

  /** The number of the check that follows the turns. */
  function NextCheck(turns: seq<Turn>): nat {
    if turns == [] then 0 else turns[|turns| - 1].check + 2 + |turns[|turns| - 1].slices|
  }

  /** The checks of a run are those before its cycles, one right after each cycle, and those of its
      sleeps; there is none besides. */
  predicate Dense(turns: seq<Turn>) {
    && (forall t :: 0 <= t < |turns| ==> turns[t].check == NextCheck(turns[..t]))
    && (forall t :: 0 <= t < |turns| ==> Consecutive(turns[t]))
  }

  predicate Consecutive(t: Turn) {
    forall k :: 0 <= k < |t.slices| ==> t.slices[k].check == t.check + 2 + k
  }

  /** Where a run may end: before its first cycle, after a whole turn, right after a cycle, or in a
      sleep and then before the next cycle. */
  predicate EndsAt(turns: seq<Turn>, loads: nat, stop: nat -> bool, intervalMs: int) {
    && loads > 0 && stop(loads - 1)
    && if turns == [] then loads == 1
       else
         var last := turns[|turns| - 1];
         || (loads == NextCheck(turns) + 1 && Whole(last, intervalMs))
         || (loads == last.check + 2 && last.slices == [])
         || (loads == NextCheck(turns) + 2 && !Whole(last, intervalMs) && stop(loads - 2))
  }

  /** Every turn but the last slept for exactly the interval, in slices; the last one too, unless
      the run was stopped during it. */
  predicate Timed(turns: seq<Turn>, intervalMs: int) {
    && (forall t :: 0 <= t < |turns| ==> Sliced(turns[t].slices, intervalMs) && Slept(turns[t].slices) <= intervalMs)
    && (forall t :: 0 <= t < |turns| - 1 ==> Whole(turns[t], intervalMs))
  }

  /** Two snapshots per cycle. */
  function Published(o: RunnerOptions, deviceId: string, envs: nat -> CycleEnv, cycles: nat): (p: seq<LatestSnapshot>)
    ensures |p| == 2 * cycles
  {
    if cycles == 0 then []
    else Published(o, deviceId, envs, cycles - 1) +
         [FirstSnapshot(o, envs(cycles - 1)), LastSnapshot(o, deviceId, envs(cycles - 1))]
  }

  /** The message about a metric of a cycle at time `now`, under the runner's device id. */
  function CpuMessage(deviceId: string, now: Int64, m: CpuMetric): ProtoEvent {
    ProtoEvent("cpu-event-" + Decimal(now), now, deviceId, None, CpuSet(m.usagePercent))
  }

  function MemoryMessage(deviceId: string, now: Int64, m: MemoryMetric): ProtoEvent {
    ProtoEvent("memory-event-" + Decimal(now), now, deviceId, None, MemorySet(m.totalBytes, m.availableBytes))
  }

  /** The messages of one cycle: its CPU metric, then its memory metric, each if it was collected. */
  function Messages(o: RunnerOptions, deviceId: string, env: CycleEnv): seq<ProtoEvent> {
    (match CpuOf(o, env) case None => [] case Some(m) => [CpuMessage(deviceId, env.now, m)]) +
    (match MemoryOf(env) case None => [] case Some(m) => [MemoryMessage(deviceId, env.now, m)])
  }

  /** And of the first cycles of a run. */
  function Sent(o: RunnerOptions, deviceId: string, envs: nat -> CycleEnv, cycles: nat): seq<ProtoEvent> {
    if cycles == 0 then []
    else Sent(o, deviceId, envs, cycles - 1) + Messages(o, deviceId, envs(cycles - 1))
  }

  class TelemetryRunner {
    const options: RunnerOptions
    const deviceId: string
    const store: LatestSnapshotStore
    ghost var turns: seq<Turn>
    /** The messages handed to the telemetry service. */
    ghost var sent: seq<ProtoEvent>

    ghost predicate Valid() reads store {
      OptionsError(options, deviceId).None? && store.Valid()
    }

    constructor (store: LatestSnapshotStore, options: RunnerOptions, deviceId: string)
      requires OptionsError(options, deviceId).None? && store.Valid()
      ensures Valid() && turns == [] && sent == []
      ensures this.store == store && this.options == options && this.deviceId == deviceId
    {
      this.store, this.options, this.deviceId := store, options, deviceId;
      turns, sent := [], [];
    }

    /** The constructor as a caller meets it: an object, or the text of the exception. */
    static method Create(store: LatestSnapshotStore, options: RunnerOptions, deviceId: string)
    returns (runner: TelemetryRunner?, error: string)
      requires store.Valid()
      ensures runner != null <==>
        && 0 < options.cpuSampleIntervalMs <= options.collectionIntervalMs
        && 0 < options.requestTimeoutMs && deviceId != ""
      ensures runner != null ==> fresh(runner) && runner.Valid() && runner.store == store
      ensures runner == null ==> Some(error) == OptionsError(options, deviceId)
    {
      runner, error := null, "";
      if options.collectionIntervalMs <= 0 {
        error := "Collection interval must be positive";
      } else if options.cpuSampleIntervalMs <= 0 {
        error := "CPU sample interval must be positive";
      } else if options.cpuSampleIntervalMs > options.collectionIntervalMs {
        error := "CPU sample interval must not exceed collection interval";
      } else if options.requestTimeoutMs <= 0 {
        error := "Request timeout must be positive";
      } else if deviceId == "" {
        error := "Device ID must not be empty";
      } else {
        runner := new TelemetryRunner(store, options, deviceId);
      }
    }

    /** One submission, appended to both texts when it fails. */
    method SubmitOne(what: string, event: TelemetryEvent, rpc: ProtoEvent -> RpcOutcome,
                     submissionError: string, errorMessage: string, ghost before: seq<string>, ghost all: seq<string>)
    returns (accepted: bool, newSubmissionError: string, newErrorMessage: string)
      requires what != "" && StatusText.NoneEmpty(before) && StatusText.NoneEmpty(all)
      requires submissionError == StatusText.Joined(before) && errorMessage == StatusText.Joined(all)
      modifies this`sent
      ensures sent == old(sent) + if IsValid(event) then [MessageOf(event)] else []
      ensures accepted == Submitted(Some(event), rpc)
      ensures newSubmissionError == StatusText.Joined(before + SubmissionError(what, Some(event), rpc))
      ensures newErrorMessage == StatusText.Joined(all + SubmissionError(what, Some(event), rpc))
    {
      var result := Submit(event, rpc);
      sent := sent + if IsValid(event) then [MessageOf(event)] else [];
      accepted, newSubmissionError, newErrorMessage := result.accepted, submissionError, errorMessage;
      if !result.accepted {
        var text := what + (if result.errorMessage == "" then "unknown error" else result.errorMessage);
        StatusText.AppendJoins(before, text);
        StatusText.AppendJoins(all, text);
        newSubmissionError := StatusText.Append(newSubmissionError, text);
        newErrorMessage := StatusText.Append(newErrorMessage, text);
      } else {
        assert before + [] == before && all + [] == all;
      }
    }

    /** The cycle up to its first publication: collect, and record what is missing in both texts. */
    method Collect(env: CycleEnv) returns (snapshot: LatestSnapshot, result: CycleResult)
      ensures snapshot == FirstSnapshot(options, env)
      ensures result == CycleResult(false, false, StatusText.Joined(CollectionErrors(options, env)))
    {
      hide StatusText.Joined, StatusText.Append, StatusText.When, CpuUsage.CollectCpuMetric,
        CpuUsage.CollectMemoryMetric;
      result := CycleResult(false, false, "");
      var cpu := CpuUsage.CollectCpuMetric(options.cpuSampleIntervalMs, env.firstTimes, env.secondTimes);
      var memory := CpuUsage.CollectMemoryMetric(env.memoryStatus);
      snapshot := LatestSnapshot(env.now, cpu, memory, "", "");
      ghost var parts := StatusText.NothingJoined();
      parts := StatusText.JoinWhen(parts, cpu.None?, "CPU metric collection failed");
      if cpu.None? {
        var text := "CPU metric collection failed";
        snapshot := snapshot.(collectionError := StatusText.Append(snapshot.collectionError, text));
        result := result.(errorMessage := StatusText.Append(result.errorMessage, text));
      }
      parts := StatusText.JoinWhen(parts, memory.None?, "Memory metric collection failed");
      if memory.None? {
        var text := "Memory metric collection failed";
        snapshot := snapshot.(collectionError := StatusText.Append(snapshot.collectionError, text));
        result := result.(errorMessage := StatusText.Append(result.errorMessage, text));
      }
    }

    method RunOnce(env: CycleEnv) returns (result: CycleResult)
      requires Valid()
      modifies store, this`sent
      ensures Valid()
      ensures sent == old(sent) + Messages(options, deviceId, env)
      ensures result == ResultOfCycle(options, deviceId, env)
      ensures store.published == old(store.published)
        + [FirstSnapshot(options, env), LastSnapshot(options, deviceId, env)]
    {
      hide Submit, Submitted, SubmissionError, CollectionErrors, StatusText.Joined, MessageOf, IsValid, Decimal, CpuOf,
        MemoryOf, CpuEvent, MemoryEvent, CpuMessage, MemoryMessage, CpuUsage.MeasuredFrom, CpuUsage.ReadFrom, ValidCpu,
        ValidMemory, StatusText.NoneEmpty;
      var snapshot: LatestSnapshot;
      snapshot, result := Collect(env);
      store.Update(snapshot);
      ghost var collection := CollectionErrors(options, env);
      ghost var cpuParts := SubmissionError(CPU_FAILED, CpuEventOf(options, deviceId, env), env.rpc);
      ghost var memoryParts := SubmissionError(MEMORY_FAILED, MemoryEventOf(deviceId, env), env.rpc);
      JoiningErrors(collection, cpuParts, memoryParts);
      if snapshot.cpu.Some? {
        CpuEventSends(deviceId, env.now, snapshot.cpu.value);
        assert CpuEventOf(options, deviceId, env) == Some(CpuEvent(deviceId, env.now, snapshot.cpu.value));
        var event := CpuEvent(deviceId, env.now, snapshot.cpu.value);
        var accepted, submissionError, errorMessage :=
          SubmitOne(CPU_FAILED, event, env.rpc, snapshot.submissionError, result.errorMessage, [], collection);
        snapshot := snapshot.(submissionError := submissionError);
        result := result.(cpuSubmitted := accepted, errorMessage := errorMessage);
      } else {
        NoneSubmitted(env.rpc);
      }
      if snapshot.memory.Some? {
        MemoryEventSends(deviceId, env.now, snapshot.memory.value);
        assert MemoryEventOf(deviceId, env) == Some(MemoryEvent(deviceId, env.now, snapshot.memory.value));
        var event := MemoryEvent(deviceId, env.now, snapshot.memory.value);
        var accepted, submissionError, errorMessage :=
          SubmitOne(MEMORY_FAILED, event, env.rpc, snapshot.submissionError, result.errorMessage, cpuParts,
              collection + cpuParts);
        snapshot := snapshot.(submissionError := submissionError);
        result := result.(memorySubmitted := accepted, errorMessage := errorMessage);
      } else {
        NoneSubmitted(env.rpc);
      }
      store.Update(snapshot);
    }

    /** The loop: `envs` is what each cycle meets, `stop` the flag at each of its checks; it is set
        by check number `horizon` at the latest. Once it is set, nothing is begun any more and at most
        two checks are made. */
    method Run(envs: nat -> CycleEnv, stop: nat -> bool, horizon: nat) returns (ghost loads: nat)
      requires Valid() && turns == [] && StaysSet(stop) && stop(horizon)
      modifies this, store
      ensures Valid()
      ensures store.published == old(store.published) + Published(options, deviceId, envs, |turns|)
      ensures sent == old(sent) + Sent(options, deviceId, envs, |turns|)
      ensures Timed(turns, options.collectionIntervalMs)
      ensures Dense(turns) && EndsAt(turns, loads, stop, options.collectionIntervalMs)
      ensures Checked(Checks(turns), stop, horizon) && BoundedAfterStop(Checks(turns), stop)
      ensures forall set_: nat :: stop(set_) ==> loads <= set_ + 2
    {
      hide BoundedAfterStop, FirstSnapshot, LastSnapshot, ResultOfCycle, Timed, Checked, Checks, Published, Whole,
        CpuOf, MemoryOf, Dense, NextCheck, Messages, Sent;
      PublishedNothing(options, deviceId, envs);
      StartOfRun(stop, options.collectionIntervalMs);
      var check, cycle := 0, 0;
      while !stop(check)
        invariant Valid() && cycle == |turns|
        invariant store.published == old(store.published) + Published(options, deviceId, envs, cycle)
        invariant sent == old(sent) + Sent(options, deviceId, envs, cycle)
        invariant Timed(turns, options.collectionIntervalMs) && Dense(turns)
        invariant RestsAt(turns, check, stop, options.collectionIntervalMs)
        invariant Checked(Checks(turns), stop, check)
        invariant SeenOnce(stop, check)
        decreases horizon - check
      {
        BeforeHorizon(stop, check, horizon);
        var result := RunOnce(envs(cycle));
        PublishedOneMore(options, deviceId, envs, cycle, old(store.published), old(sent));
        StartTurn(turns, check, stop, options.collectionIntervalMs);
        turns := turns + [Turn(check, [])];
        cycle, check := cycle + 1, check + 1;
        if stop(check) {
          break;
        }
        CheckedLater(Checks(turns), stop, check);
        check := check + 1;
        check := Sleep(stop, horizon, check);
      }
      loads := check + 1;
      NothingBeginsAfterStop(Checks(turns), stop, check);
      LastCheck(Checks(turns), stop, check, horizon);
    }

    /** The sliced sleep; returns the number of the next check. */
    method Sleep(stop: nat -> bool, horizon: nat, start: nat) returns (check: nat)
      requires Valid() && StaysSet(stop) && stop(horizon)
      requires turns != [] && turns[|turns| - 1].slices == []
      requires Timed(turns, options.collectionIntervalMs) && Checked(Checks(turns), stop, start)
      requires Dense(turns) && NextCheck(turns) == start
      requires start > 0 && !stop(start - 1)
      modifies this`turns
      ensures |turns| == |old(turns)| && Timed(turns, options.collectionIntervalMs)
      ensures Checked(Checks(turns), stop, check) && start <= check && SeenOnce(stop, check)
      ensures turns != [] && Dense(turns) && RestsAt(turns, check, stop, options.collectionIntervalMs)
    {
      hide Timed, Checked, Checks, WithSlice, Slept, StaysSet, Dense, NextCheck;
      var interval := options.collectionIntervalMs;
      NothingSlept();
      var remaining := interval;
      check := start;
      while remaining > 0 && !stop(check)
        invariant turns != [] && |turns| == |old(turns)| && remaining >= 0 && start <= check
        invariant Timed(turns, interval) && Checked(Checks(turns), stop, check)
        invariant Dense(turns) && NextCheck(turns) == check
        invariant remaining == interval - Slept(turns[|turns| - 1].slices)
        invariant check > 0 && !stop(check - 1)
        decreases remaining
      {
        var duration := Min(remaining, SLICE_MS);
        AddSlice(turns, Slice(check, duration), stop, interval);
        NoGapBeforeSlice(turns, Slice(check, duration));
        turns := WithSlice(turns, Slice(check, duration));
        remaining, check := remaining - duration, check + 1;
      }
      ClearSoFar(stop, check);
      if remaining > 0 {
        CheckedLater(Checks(turns), stop, check);
        StillSet(stop, check);
        check := check + 1;
      }
    }
  }

  /** The loop is at check number `check`, after its last turn or after the check that cut that short. */
  predicate RestsAt(turns: seq<Turn>, check: nat, stop: nat -> bool, intervalMs: int) {
    if turns == [] then check == 0
    else if Whole(turns[|turns| - 1], intervalMs) then check == NextCheck(turns)
    else check == NextCheck(turns) + 1 && stop(check) && stop(check - 1)
  }

  /** Of the first `check` checks at most the last one saw the flag set. */
  ghost predicate SeenOnce(stop: nat -> bool, check: nat) {
    forall set_: nat :: stop(set_) ==> check <= set_ + 1
  }

  lemma ClearSoFar(stop: nat -> bool, check: nat)
    requires StaysSet(stop) && check > 0 && !stop(check - 1)
    ensures SeenOnce(stop, check) && SeenOnce(stop, check + 1)
  {
  }

  /** The turns with one more sleep in the last of them. */
  function WithSlice(turns: seq<Turn>, s: Slice): seq<Turn>
    requires turns != []
  {
    var last := turns[|turns| - 1];
    turns[..|turns| - 1] + [last.(slices := last.slices + [s])]
  }

  lemma StartTurn(turns: seq<Turn>, check: nat, stop: nat -> bool, intervalMs: int)
    requires Timed(turns, intervalMs) && Checked(Checks(turns), stop, check) && !stop(check) && intervalMs > 0
    requires Dense(turns) && RestsAt(turns, check, stop, intervalMs)
    ensures var more := turns + [Turn(check, [])];
      && Timed(more, intervalMs) && Checked(Checks(more), stop, check + 1)
      && Dense(more) && NextCheck(more) == check + 2
  {
    hide Dense, NextCheck, Sliced;
    var more := turns + [Turn(check, [])];
    NoGapBeforeTurn(turns, check, stop, intervalMs);
    NothingSliced(intervalMs);
    assert more[..|turns|] == turns;
    assert Checks(more) == Checks(turns) + [check];
  }

  lemma NothingSliced(intervalMs: int)
    ensures Sliced([], intervalMs) && Slept([]) == 0
  {
  }

  lemma NoGapBeforeTurn(turns: seq<Turn>, check: nat, stop: nat -> bool, intervalMs: int)
    requires Dense(turns) && RestsAt(turns, check, stop, intervalMs) && !stop(check)
    ensures var more := turns + [Turn(check, [])]; Dense(more) && NextCheck(more) == check + 2
  {
    hide Whole;
    var more := turns + [Turn(check, [])];
    forall t | 0 <= t < |more| ensures more[t].check == NextCheck(more[..t]) && Consecutive(more[t]) {
      assert more[..t] == turns[..t];
      assert turns[..|turns|] == turns;
    }
  }

  lemma AddSlice(turns: seq<Turn>, s: Slice, stop: nat -> bool, intervalMs: int)
    requires turns != [] && Timed(turns, intervalMs) && Checked(Checks(turns), stop, s.check) && !stop(s.check)
    requires var rest := intervalMs - Slept(turns[|turns| - 1].slices); rest > 0 && s.ms == Min(rest, SLICE_MS)
    ensures var more := WithSlice(turns, s);
      && |more| == |turns| && Timed(more, intervalMs) && Checked(Checks(more), stop, s.check + 1)
      && Slept(more[|more| - 1].slices) == Slept(turns[|turns| - 1].slices) + s.ms
  {
    hide Checked, Checks, Sliced;
    var (n, more) := (|turns| - 1, WithSlice(turns, s));
    ChecksAfterSlice(turns, s);
    CheckedOneMore(Checks(turns), s.check, stop);
    SlicedOneMore(turns[n].slices, s, intervalMs);
    assert (turns[n].slices + [s])[..|turns[n].slices|] == turns[n].slices;
  }

  lemma NoGapBeforeSlice(turns: seq<Turn>, s: Slice)
    requires turns != [] && Dense(turns) && s.check == NextCheck(turns)
    ensures Dense(WithSlice(turns, s)) && NextCheck(WithSlice(turns, s)) == s.check + 1
  {
    var more := WithSlice(turns, s);
    assert Consecutive(turns[|turns| - 1]);
    forall t | 0 <= t < |more| ensures more[t].check == NextCheck(more[..t]) && Consecutive(more[t]) {
      assert more[..t] == turns[..t];
      assert t < |turns| - 1 ==> Consecutive(turns[t]);
    }
  }

  lemma ChecksAfterSlice(turns: seq<Turn>, s: Slice)
    requires turns != []
    ensures Checks(WithSlice(turns, s)) == Checks(turns) + [s.check]
  {
    var (n, more) := (|turns| - 1, WithSlice(turns, s));
    assert more[..n] == turns[..n];
    assert SliceChecks(more[n].slices) == SliceChecks(turns[n].slices) + [s.check];
  }

  lemma SlicedOneMore(slices: seq<Slice>, s: Slice, intervalMs: int)
    requires Sliced(slices, intervalMs)
    requires var rest := intervalMs - Slept(slices); rest > 0 && s.ms == Min(rest, SLICE_MS)
    ensures Sliced(slices + [s], intervalMs)
  {
    hide Slept;
    var more := slices + [s];
    forall k | 0 <= k < |more|
      ensures var rest := intervalMs - Slept(more[..k]); rest > 0 && more[k].ms == Min(rest, SLICE_MS)
    {
      assert more[..k] == slices[..k];
      assert k == |slices| ==> slices[..k] == slices;
    }
  }

  lemma NothingSlept()
    ensures Slept([]) == 0
  {
  }

  lemma StartOfRun(stop: nat -> bool, intervalMs: int)
    ensures Timed([], intervalMs) && Checked(Checks([]), stop, 0) && Dense([])
  {
  }

  lemma PublishedNothing(o: RunnerOptions, deviceId: string, envs: nat -> CycleEnv)
    ensures Published(o, deviceId, envs, 0) == [] && Sent(o, deviceId, envs, 0) == []
  {
  }

  lemma PublishedOneMore(o: RunnerOptions, deviceId: string, envs: nat -> CycleEnv, n: nat, before: seq<LatestSnapshot>,
                         sent: seq<ProtoEvent>)
    ensures before + Published(o, deviceId, envs, n) + [FirstSnapshot(o, envs(n)), LastSnapshot(o, deviceId, envs(n))]
         == before + Published(o, deviceId, envs, n + 1)
    ensures sent + Sent(o, deviceId, envs, n) + Messages(o, deviceId, envs(n)) == sent + Sent(o, deviceId, envs, n + 1)
  {
    hide FirstSnapshot, LastSnapshot, Messages;
  }

  lemma JoiningErrors(collection: seq<string>, cpu: seq<string>, memory: seq<string>)
    ensures StatusText.Joined([]) == "" && [] + cpu == cpu
    ensures (collection + cpu) + memory == collection + (cpu + memory)
    ensures cpu == [] ==> collection + cpu == collection
    ensures memory == [] ==> cpu + memory == cpu && (collection + cpu) + memory == collection + cpu
  {
  }

  /** The event built for a CPU metric is valid and converts to the message about it. */
  lemma CpuEventSends(deviceId: string, now: Int64, m: CpuMetric)
    ensures MessageOf(CpuEvent(deviceId, now, m)) == CpuMessage(deviceId, now, m)
    ensures deviceId != "" && ValidCpu(m) ==> IsValid(CpuEvent(deviceId, now, m))
  {
    hide ValidCpu, Decimal;
  }

  lemma MemoryEventSends(deviceId: string, now: Int64, m: MemoryMetric)
    ensures MessageOf(MemoryEvent(deviceId, now, m)) == MemoryMessage(deviceId, now, m)
    ensures deviceId != "" && ValidMemory(m) ==> IsValid(MemoryEvent(deviceId, now, m))
  {
    hide ValidMemory, Decimal;
  }

  lemma NoneSubmitted(rpc: ProtoEvent -> RpcOutcome)
    ensures !Submitted(None, rpc)
  {
  }

  // ----- what a cycle guarantees -----

  /** The cycle's error text is the collection and the submission error of its last snapshot. */
  lemma ErrorsFactor(o: RunnerOptions, deviceId: string, env: CycleEnv)
    ensures var last := LastSnapshot(o, deviceId, env);
      ResultOfCycle(o, deviceId, env).errorMessage == StatusText.Both(last.collectionError, last.submissionError)
  {
    hide StatusText.Joined, SubmissionErrors, CollectionErrors;
    var (a, b) := (CollectionErrors(o, env), SubmissionErrors(o, deviceId, env));
    StatusText.JoinedGroups(a, b);
    StatusText.JoinedEmpty(a);
    StatusText.JoinedEmpty(b);
  }

  /** It is empty exactly when both events were submitted, which is exactly when the Agent will
      report itself as RUNNING. */
  lemma SuccessMeansRunning(o: RunnerOptions, deviceId: string, env: CycleEnv)
    ensures var r := ResultOfCycle(o, deviceId, env);
      var last := LastSnapshot(o, deviceId, env);
      && (r.errorMessage == "" <==> r.cpuSubmitted && r.memorySubmitted)
      && (r.errorMessage == "" <==> ResponseFor(Some(last)).agentState == Running)
  {
    hide StatusText.Joined, Submit, CpuOf, MemoryOf;
    var (a, b) := (CollectionErrors(o, env), SubmissionErrors(o, deviceId, env));
    StatusText.JoinedEmpty(a);
    StatusText.JoinedEmpty(b);
    StatusText.JoinedEmpty(a + b);
  }

  /** Every event a cycle builds is valid, so `submit` never rejects it by itself: what becomes of
      it is what the service answers. */
  lemma EventsAreValid(o: RunnerOptions, deviceId: string, env: CycleEnv)
    requires OptionsError(o, deviceId).None?
    ensures var (cpu, memory) := (CpuEventOf(o, deviceId, env), MemoryEventOf(deviceId, env));
      && (cpu.Some? ==> IsValid(cpu.value) && Submit(cpu.value, env.rpc) == ResultOf(env.rpc(MessageOf(cpu.value))))
      && (memory.Some? ==>
            IsValid(memory.value) && Submit(memory.value, env.rpc) == ResultOf(env.rpc(MessageOf(memory.value))))
  {
    hide CpuUsage.CollectCpuMetric, CpuUsage.CollectMemoryMetric;
  }

  /** What the service's answer to the message about a metric comes to. */
  function CpuAnswer(deviceId: string, env: CycleEnv, m: CpuMetric): SubmitResult {
    ResultOf(env.rpc(CpuMessage(deviceId, env.now, m)))
  }

  function MemoryAnswer(deviceId: string, env: CycleEnv, m: MemoryMetric): SubmitResult {
    ResultOf(env.rpc(MemoryMessage(deviceId, env.now, m)))
  }

  /** What a cycle reports of its submissions is the service's answers to these messages; each failure
      is told under its own name, and so is each metric that could not be collected. */
  lemma CycleReports(o: RunnerOptions, deviceId: string, env: CycleEnv)
    requires OptionsError(o, deviceId).None?
    ensures var (r, last) := (ResultOfCycle(o, deviceId, env), LastSnapshot(o, deviceId, env));
      var (cpu, memory) := (CpuOf(o, env), MemoryOf(env));
      && (r.cpuSubmitted <==> cpu.Some? && CpuAnswer(deviceId, env, cpu.value).accepted)
      && (r.memorySubmitted <==> memory.Some? && MemoryAnswer(deviceId, env, memory.value).accepted)
      && last.collectionError ==
           StatusText.Both(if cpu.None? then "CPU metric collection failed" else "",
                           if memory.None? then "Memory metric collection failed" else "")
      && last.submissionError ==
           StatusText.Both(
             if cpu.Some? && !r.cpuSubmitted then
               "CPU telemetry submission failed: " + CpuAnswer(deviceId, env, cpu.value).errorMessage else "",
             if memory.Some? && !r.memorySubmitted then
               "Memory telemetry submission failed: " + MemoryAnswer(deviceId, env, memory.value).errorMessage else "")
  {
    hide CpuOf, MemoryOf, CpuEvent, MemoryEvent, CpuMessage, MemoryMessage, Decimal, StatusText.Joined,
      StatusText.Both, StatusText.When, ResultOf, SubmissionError, Submitted, MessageOf, IsValid;
    var (cpu, memory) := (CpuEventOf(o, deviceId, env), MemoryEventOf(deviceId, env));
    if cpu.Some? {
      CpuEventSends(deviceId, env.now, CpuOf(o, env).value);
    }
    if memory.Some? {
      MemoryEventSends(deviceId, env.now, MemoryOf(env).value);
    }
    var answers := (Answered(cpu, env.rpc), Answered(memory, env.rpc));
    OneAnswer(CPU_FAILED, cpu, env.rpc);
    OneAnswer(MEMORY_FAILED, memory, env.rpc);
    StatusText.JoinedPair(CpuOf(o, env).None?, "CPU metric collection failed",
                          MemoryOf(env).None?, "Memory metric collection failed");
    StatusText.JoinedPair(cpu.Some? && !answers.0.accepted, CPU_FAILED + answers.0.errorMessage,
                          memory.Some? && !answers.1.accepted, MEMORY_FAILED + answers.1.errorMessage);
    NothingBefore(StatusText.When(CpuOf(o, env).None?, "CPU metric collection failed"));
  }

  /** The answer to an event's message; nothing is asked without an event. */
  function Answered(event: Option<TelemetryEvent>, rpc: ProtoEvent -> RpcOutcome): SubmitResult {
    if event.None? then SubmitResult(false, "", "") else ResultOf(rpc(MessageOf(event.value)))
  }

  lemma OneAnswer(what: string, event: Option<TelemetryEvent>, rpc: ProtoEvent -> RpcOutcome)
    requires event.Some? ==> IsValid(event.value)
    ensures var answer := Answered(event, rpc);
      && (Submitted(event, rpc) <==> event.Some? && answer.accepted)
      && SubmissionError(what, event, rpc) ==
           StatusText.When(event.Some? && !answer.accepted, what + answer.errorMessage)
  {
    hide IsValid, MessageOf;
  }

  lemma NothingBefore(parts: seq<string>)
    ensures [] + parts == parts
  {
  }

  /** Over a faithful channel everything collected is submitted, and only collection can fail. */
  lemma FaithfulCycle(o: RunnerOptions, deviceId: string, env: CycleEnv)
    requires OptionsError(o, deviceId).None?
    requires forall m :: env.rpc(m) == ServiceOutcome(m)
    ensures var r := ResultOfCycle(o, deviceId, env);
      && (r.cpuSubmitted <==> CpuOf(o, env).Some?) && (r.memorySubmitted <==> MemoryOf(env).Some?)
      && r.errorMessage == StatusText.Joined(CollectionErrors(o, env))
      && LastSnapshot(o, deviceId, env) == FirstSnapshot(o, env)
  {
    hide CpuUsage.CollectCpuMetric, CpuUsage.CollectMemoryMetric, StatusText.Joined, CollectionErrors, CpuEvent,
      MemoryEvent;
    EventsAreValid(o, deviceId, env);
    if CpuOf(o, env).Some? {
      FaithfulSubmission(CpuEventOf(o, deviceId, env).value);
    }
    if MemoryOf(env).Some? {
      FaithfulSubmission(MemoryEventOf(deviceId, env).value);
    }
    var nothing := StatusText.NothingJoined();
    assert SubmissionErrors(o, deviceId, env) == [];
    assert CollectionErrors(o, env) + [] == CollectionErrors(o, env);
  }

  /** What happens to the CPU metric has no bearing on the memory metric. */
  lemma MemoryIsIndependent(o: RunnerOptions, deviceId: string, env: CycleEnv, other: CycleEnv)
    requires env.memoryStatus == other.memoryStatus && env.now == other.now
    requires forall m: ProtoEvent :: m.payload.MemorySet? ==> env.rpc(m) == other.rpc(m)
    ensures ResultOfCycle(o, deviceId, env).memorySubmitted == ResultOfCycle(o, deviceId, other).memorySubmitted
    ensures LastSnapshot(o, deviceId, env).memory == LastSnapshot(o, deviceId, other).memory
  {
    hide StatusText.Joined, CpuOf, CpuUsage.CollectMemoryMetric;
  }

  /** The publish trace, cycle by cycle: both snapshots of a cycle carry its time, its metrics and
      its collection error, whatever the submissions did; the first reports no submission error, the
      second the cycle's. */
  lemma {:induction false} PublishTrace(o: RunnerOptions, deviceId: string, envs: nat -> CycleEnv, cycles: nat, c: nat)
    requires c < cycles
    ensures var p := Published(o, deviceId, envs, cycles);
      var (first, last) := (p[2 * c], p[2 * c + 1]);
      && first.collectedAt == last.collectedAt == envs(c).now
      && first.cpu == last.cpu == CpuOf(o, envs(c)) && first.memory == last.memory == MemoryOf(envs(c))
      && first.collectionError == last.collectionError && first.submissionError == ""
      && StatusText.Both(last.collectionError, last.submissionError) == ResultOfCycle(o, deviceId, envs(c)).errorMessage
    decreases cycles
  {
    hide CpuOf, MemoryOf, ResultOfCycle, StatusText.Joined, SubmissionErrors, CollectionErrors;
    if c < cycles - 1 {
      PublishTrace(o, deviceId, envs, cycles - 1, c);
    } else {
      ErrorsFactor(o, deviceId, envs(c));
    }
  }

  // ----- event ids -----

  /** The number that a decimal text stands for. */
  function Parsed(text: string): int {
    if text == "" then 0
    else if text[0] == '-' then -Parsed(text[1..])
    else Parsed(text[..|text| - 1]) * 10 + (text[|text| - 1] as int - '0' as int)
  }

  /** The text of a number reads as that number; it starts with a sign exactly if that is negative. */
  lemma {:induction false} DecimalRoundTrip(n: int)
    ensures Parsed(Decimal(n)) == n && (Decimal(n)[0] == '-' <==> n < 0)
    decreases n < 0, if n < 0 then -n else n
  {
    if n < 0 {
      DecimalRoundTrip(-n);
      assert Decimal(n)[1..] == Decimal(-n);
    } else if n >= 10 {
      DecimalRoundTrip(n / 10);
      assert Decimal(n)[..|Decimal(n)| - 1] == Decimal(n / 10);
    }
  }

  /** Two events share an id exactly when they are of one kind and of one millisecond. */
  lemma EventIds(deviceId: string, t: Int64, u: Int64, cpu: CpuMetric, memory: MemoryMetric)
    ensures CpuEvent(deviceId, t, cpu).id == CpuEvent(deviceId, u, cpu).id <==> t == u
    ensures MemoryEvent(deviceId, t, memory).id == MemoryEvent(deviceId, u, memory).id <==> t == u
    ensures CpuEvent(deviceId, t, cpu).id != MemoryEvent(deviceId, u, memory).id
  {
    var (x, y) := (CpuEvent(deviceId, t, cpu).id, CpuEvent(deviceId, u, cpu).id);
    assert x[10..] == Decimal(t) && y[10..] == Decimal(u);
    var (v, w) := (MemoryEvent(deviceId, t, memory).id, MemoryEvent(deviceId, u, memory).id);
    assert v[13..] == Decimal(t) && w[13..] == Decimal(u);
    if x == y || v == w {
      DecimalRoundTrip(t);
      DecimalRoundTrip(u);
    }
    assert x[0] == 'c' && w[0] == 'm';
  }

  // ----- the sleeps -----

  /** The slices of a turn are at most 100 ms each, and as few as the interval allows. */
  lemma SlicesAreBounded(slices: seq<Slice>, intervalMs: int)
    requires Sliced(slices, intervalMs) && intervalMs > 0
    ensures forall k :: 0 <= k < |slices| ==> 0 < slices[k].ms <= 100
    ensures forall k :: 0 <= k < |slices| - 1 ==> slices[k].ms == 100
  {
    forall k | 0 <= k < |slices| - 1 ensures slices[k].ms == SLICE_MS {
      assert slices[..k + 1][..k] == slices[..k];
      assert slices[..k + 1][k] == slices[k];
      assert intervalMs - Slept(slices[..k + 1]) > 0;
    }
  }
}
