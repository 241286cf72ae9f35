/** The Agent's pipe server (agent/src/local_ipc_server.cpp). What the operating system and the
    snapshot store answer at each point of the run is given by scripts; the worker's one stop flag
    by what each load of it sees. */
module IpcServer {
  import opened Prelude
  import opened Framing
  import opened StreamReceiver
  import opened LocalAgentMessages
  import opened StopFlag

  const READ_SIZE := 4096

  // ----- writing a reply -----

  /** A WriteFile that fails may have transferred some bytes before. */
  datatype WriteOutcome = WriteFailed(taken: nat) | Wrote(count: nat)

  /** The stop flag at one check of the write loop, and what WriteFile does if it is called. */
  datatype WriteStep = WriteStep(stopped: bool, outcome: WriteOutcome)

  /** How many bytes the pipe took, how often WriteFile was called, and what the loop reports. */
  datatype WriteResult = WriteResult(total: nat, calls: nat, sent: bool)

  /** The write loop from its i-th check on; WriteFile never takes more than it is offered. */
  function WriteRun(script: nat -> WriteStep, i: nat, size: nat, total: nat): (r: WriteResult)
    requires total <= size
    ensures total <= r.total <= size && i <= r.calls && (r.sent ==> r.total == size)
    decreases size - total
  {
    if total == size then WriteResult(total, i, true)
    else if script(i).stopped then WriteResult(total, i, false)
    else match script(i).outcome
      case WriteFailed(taken) => WriteResult(total + Min(taken, size - total), i + 1, false)
      case Wrote(count) =>
        if count == 0 then WriteResult(total, i + 1, false)
        else WriteRun(script, i + 1, size, total + Min(count, size - total))
  }

  /** Every WriteFile call was preceded by its own check that found the flag clear, and every call
      but the last moved the reply forward: at most one call per outstanding byte. A reply not sent
      is due to the flag, a failure or a zero write. */
  lemma {:induction false} WritesAreChecked(script: nat -> WriteStep, i: nat, size: nat, total: nat)
    requires total <= size
    ensures var r := WriteRun(script, i, size, total);
      && (forall j :: i <= j < r.calls ==> !script(j).stopped)
      && (forall j :: i <= j < r.calls - 1 ==> script(j).outcome.Wrote? && script(j).outcome.count > 0)
      && r.calls - i <= size - total
      && (!r.sent ==>
            || script(r.calls).stopped
            || (i < r.calls && (script(r.calls - 1).outcome.WriteFailed? || script(r.calls - 1).outcome == Wrote(0))))
    decreases size - total
  {
    if total < size && !script(i).stopped && script(i).outcome.Wrote? && script(i).outcome.count > 0 {
      WritesAreChecked(script, i + 1, size, total + Min(script(i).outcome.count, size - total));
    }
  }

  /** A pipe that never fails and takes something at each call, with the stop flag clear. */
  ghost predicate Healthy(script: nat -> WriteStep) {
    forall j: nat :: !script(j).stopped && script(j).outcome.Wrote? && script(j).outcome.count > 0
  }

  lemma {:induction false} HealthyPipeTakesAll(script: nat -> WriteStep, i: nat, size: nat, total: nat)
    requires total <= size && Healthy(script)
    ensures WriteRun(script, i, size, total).sent
    decreases size - total
  {
    if total < size {
      assert !script(i).stopped;
      HealthyPipeTakesAll(script, i + 1, size, total + Min(script(i).outcome.count, size - total));
    }
  }

  // ----- handling one request -----

  /** What the n-th request of a connection finds: the store's value, and its write script. */
  datatype RequestEnv = RequestEnv(stored: Option<LatestSnapshot>, writes: nat -> WriteStep)

  /** `process_request`: the bytes it puts on the pipe, and whether the connection is kept. */
  function HandleRequest(w: Wire, env: RequestEnv, payload: seq<Byte>): (seq<Byte>, bool) {
    if w.requests.parse(payload) != Some(REQUEST) then ([], false)
    else match ReplyPayload(w, env.stored)
      case None => ([], false)
      case Some(reply) =>
        var r := WriteRun(env.writes, 0, |Frame(reply)|, 0);
        (Frame(reply)[..r.total], r.sent)
  }

  /** How often WriteFile is called for a request. */
  function WritesOf(w: Wire, env: RequestEnv, payload: seq<Byte>): nat {
    if w.requests.parse(payload) != Some(REQUEST) then 0
    else match ReplyPayload(w, env.stored)
      case None => 0
      case Some(reply) => WriteRun(env.writes, 0, |Frame(reply)|, 0).calls
  }

  /** And for a list of requests. */
  function WritesTotal(w: Wire, met: seq<RequestEnv>, handled: seq<seq<Byte>>): nat
    requires |met| == |handled|
  {
    if met == [] then 0
    else
      var n := |met| - 1;
      WritesTotal(w, met[..n], handled[..n]) + WritesOf(w, met[n], handled[n])
  }

  function ServerHandler(w: Wire, envs: nat -> RequestEnv): (nat, seq<Byte>) -> (seq<Byte>, bool) {
    (n, payload) => HandleRequest(w, envs(n), payload)
  }

  /** The connection is kept only when a whole legal frame about the stored snapshot went out;
      otherwise what went out is a first part of one. */
  lemma ReplyIsWholeOrCut(w: Wire, env: RequestEnv, payload: seq<Byte>)
    ensures var (out, keep) := HandleRequest(w, env, payload);
      var reply := ReplyPayload(w, env.stored);
      if keep then reply.Some? && out == Frame(reply.value)
      else out == [] || (reply.Some? && out <= Frame(reply.value))
  {
  }

  /** On a healthy pipe exactly the readable version-1 requests with a reply that can be sent are
      answered, in full. */
  lemma AnsweredOnHealthyPipe(w: Wire, env: RequestEnv, payload: seq<Byte>)
    requires Healthy(env.writes)
    ensures var reply := ReplyPayload(w, env.stored);
      HandleRequest(w, env, payload) ==
        if w.requests.parse(payload) == Some(SnapshotRequest(1)) && reply.Some? then (Frame(reply.value), true)
        else ([], false)
  {
    hide Frame;
    var reply := ReplyPayload(w, env.stored);
    if reply.Some? {
      var frame := Frame(reply.value);
      HealthyPipeTakesAll(env.writes, 0, |frame|, 0);
      assert frame[..|frame|] == frame;
    }
  }

  lemma HandlerIs(w: Wire, envs: nat -> RequestEnv, n: nat, payload: seq<Byte>)
    ensures ServerHandler(w, envs)(n, payload) == HandleRequest(w, envs(n), payload)
  {
  }

  /** After a refusal the buffer does depend on the cut: what shared a read with the refused frame is
      buffered, what came later is not. Here a request of version 9 is refused by a server over the
      small wire, whatever its store holds. */
  lemma ClosedBufferDependsOnCut(envs: nat -> RequestEnv)
    ensures var h := ServerHandler(SmallWire(), envs);
      var cut: seq<seq<Byte>> := [[1, 0, 0, 0, 9, 7]];
      var other: seq<seq<Byte>> := [[1, 0, 0, 0, 9], [7]];
      && Concat(cut) == Concat(other)
      && FeedAll(h, Fresh(), cut).0.rest == [7] && FeedAll(h, Fresh(), other).0.rest == []
      && ClosesAt(h, Fresh(), Concat(cut), 5) && FirstCut(cut, 5) == 6 && FirstCut(other, 5) == 5
  {
    hide TryDecodeFrame, Receive, Continue, ClosesAt;
    var h := ServerHandler(SmallWire(), envs);
    var frame: seq<Byte> := [1, 0, 0, 0, 9];
    var last: seq<Byte> := [7];
    var cut, other := [frame + last], [frame, last];
    assert [1, 0, 0, 0, 9, 7] == frame + last;
    assert other[1..] == [last] && Concat([last]) == last && Concat(cut) == frame + last;
    NinthVersionIsRefused(envs(0));
    HandlerIs(SmallWire(), envs, 0, [9]);
    RefusedFrame(h, frame + last);
    RefusedFrame(h, frame);
    assert FeedAll(h, Fresh(), cut).0 == Feed(h, Fresh(), cut[0]);
    assert FeedAll(h, Fresh(), other).0 == Feed(h, Fresh(), other[0]);
    RefusedFrameClosesAtFive(h, frame + last);
  }

  lemma NinthVersionIsRefused(env: RequestEnv)
    ensures HandleRequest(SmallWire(), env, [9]) == ([], false)
  {
    assert SmallWire().requests.parse([9]) == Some(SnapshotRequest(9));
  }

  lemma RefusedFrameClosesAtFive<T(!new)>(h: (nat, seq<Byte>) -> (T, bool), b: seq<Byte>)
    requires |b| >= 5 && b[..5] == [1, 0, 0, 0, 9] && !h(0, [9]).1
    ensures ClosesAt(h, Fresh(), b, 5)
  {
    hide Receive;
    RefusedFrame(h, b[..5]);
    forall m: nat | m < 5 ensures Continue(h, 0, Fresh(), b[..m]).verdict == Open {
      assert [] + b[..m] == b[..m];
      ShortIsIncomplete(h, b[..m]);
    }
  }

  lemma ShortIsIncomplete<T>(h: (nat, seq<Byte>) -> (T, bool), b: seq<Byte>)
    requires |b| < 5 && b <= [1, 0, 0, 0]
    ensures Receive(h, 0, b).verdict == Open
  {
  }

  // ----- one connection -----

  datatype ReadOutcome = ReadFailed | ReadBytes(data: seq<Byte>)

  /** What one request finds apart from the flag. */
  datatype Request = Request(stored: Option<LatestSnapshot>, writes: nat -> WriteOutcome)

  /** The write script of a reply whose first check is load number `from` of the flag. */
  function Script(stop: nat -> bool, from: nat, writes: nat -> WriteOutcome): nat -> WriteStep {
    (j: nat) => WriteStep(stop(from + j), writes(j))
  }

  const UNMET := RequestEnv(None, _ => WriteStep(true, Wrote(0)))

  /** What the requests of a connection met, as a function of their number. */
  function EnvsOf(met: seq<RequestEnv>): nat -> RequestEnv {
    (n: nat) => if n < |met| then met[n] else UNMET
  }

  ghost predicate Extends(envs: nat -> RequestEnv, met: seq<RequestEnv>) {
    forall n: nat :: n < |met| ==> envs(n) == met[n]
  }

  /** A request was met as its script says, its reply's checks being loads of the one flag. */
  ghost predicate Met(request: Request, stop: nat -> bool, env: RequestEnv) {
    env.stored == request.stored && exists from: nat :: env.writes == Script(stop, from, request.writes)
  }

  /** The reads `taken`, with requests that met `met`, bring a fresh session to `s`. */
  ghost predicate ComesFrom(w: Wire, met: seq<RequestEnv>, taken: seq<seq<Byte>>, s: Received<seq<Byte>>) {
    forall envs: nat -> RequestEnv :: Extends(envs, met) ==> FeedAll(ServerHandler(w, envs), Fresh(), taken) == (s, [])
  }

  /** The reads that came, in order and none of them empty. */
  ghost predicate Took(arrivals: nat -> ReadOutcome, taken: seq<seq<Byte>>) {
    forall k :: 0 <= k < |taken| ==> arrivals(k) == ReadBytes(taken[k]) && taken[k] != []
  }

  class PipeConnection {
    const wire: Wire
    const flag: AtomicFlag
    const script: nat -> Request
    var receiveBuffer: seq<Byte>
    var keepConnection: bool
    var requests: nat
    /** What WriteFile has taken on this connection. */
    var replyPipe: seq<Byte>
    ghost var met: seq<RequestEnv>
    /** The payloads taken off the buffer, and the reads appended to it. */
    ghost var handled: seq<seq<Byte>>
    ghost var taken: seq<seq<Byte>>
    /** How often ReadFile was called. */
    ghost var readCalls: nat
    /** The flag's loads and calls before this connection. */
    ghost const firstLoad: nat
    ghost const firstCall: nat
    ghost var outputs: seq<seq<Byte>>
    ghost var verdict: Verdict

    ghost predicate Valid() reads this, flag {
      && flag.Valid() && flag.Near()
      && (keepConnection <==> verdict == Open)
      && requests == |outputs| == |met| == |handled| && replyPipe == Concat(outputs)
      && (forall n :: 0 <= n < |met| ==> Met(script(n), flag.stop, met[n]))
      && Accounted()
    }

    /** Every load of this connection that saw the flag clear was followed by a call of its own, and
        these calls are its ReadFile calls and the WriteFile calls its requests make. */
    ghost predicate Accounted() reads this`met, this`handled, this`readCalls, flag {
      && |met| == |handled| && flag.From(firstCall, firstLoad)
      && |flag.begun| == firstCall + readCalls + WritesTotal(wire, met, handled)
      && flag.loads - firstLoad == |flag.begun| - firstCall + if flag.Clear() then 0 else 1
    }

    /** Every byte read went into a payload's frame or is still buffered. */
    ghost predicate BytesKept() reads this`handled, this`taken, this`receiveBuffer {
      AllLegal(handled) && Concat(taken) == EncodeAll(handled) + receiveBuffer
    }

    ghost function Session(): Received<seq<Byte>> reads this {
      Received(outputs, receiveBuffer, verdict)
    }

    constructor (wire: Wire, flag: AtomicFlag, script: nat -> Request)
      requires flag.Valid() && flag.Clear() && flag.Near()
      ensures Valid() && Session() == Fresh() && met == [] && handled == [] && taken == [] && readCalls == 0
      ensures this.wire == wire && this.flag == flag && this.script == script
      ensures firstLoad == flag.loads && firstCall == |flag.begun|
    {
      this.wire, this.flag, this.script := wire, flag, script;
      receiveBuffer, keepConnection, requests, replyPipe := [], true, 0, [];
      met, handled, taken, readCalls, outputs, verdict := [], [], [], 0, [], Open;
      firstLoad, firstCall := flag.loads, |flag.begun|;
    }

    /** The system call: it may succeed on a part, or fail after some bytes went through. */
    method WriteFile(bytes: seq<Byte>, outcome: WriteOutcome) returns (success: bool, written: nat)
      modifies this`replyPipe
      ensures success == outcome.Wrote?
      ensures written == Min(if outcome.Wrote? then outcome.count else outcome.taken, |bytes|)
      ensures replyPipe == old(replyPipe) + bytes[..written]
    {
      match outcome {
        case WriteFailed(count) => success, written := false, Min(count, |bytes|);
        case Wrote(count) => success, written := true, Min(count, |bytes|);
      }
      replyPipe := replyPipe + bytes[..written];
    }

    method WriteAll(frame: seq<Byte>, writes: nat -> WriteOutcome) returns (sent: bool)
      requires flag.Valid() && flag.Clear() && flag.Near() && flag.From(firstCall, firstLoad)
      modifies this`replyPipe, flag
      ensures flag.Valid() && flag.Near() && (sent ==> flag.Clear()) && old(flag.loads) <= flag.loads
      ensures var r := WriteRun(Script(flag.stop, old(flag.loads), writes), 0, |frame|, 0);
        && replyPipe == old(replyPipe) + frame[..r.total] && sent == r.sent
        && |flag.begun| == |old(flag.begun)| + r.calls
      ensures flag.From(firstCall, firstLoad)
      ensures flag.loads - |flag.begun| == old(flag.loads - |flag.begun|) + if flag.Clear() then 0 else 1
    {
      hide StaysSet, Checked, Script, WriteRun;
      var totalWritten, calls := 0, 0;
      ghost var script, pipe := Script(flag.stop, flag.loads, writes), replyPipe;
      assert frame[..0] == [];
      while totalWritten < |frame|
        invariant flag.Valid() && flag.Clear() && flag.Near()
        invariant totalWritten <= |frame| && flag.loads == old(flag.loads) + calls
        invariant flag.From(firstCall, firstLoad) && |flag.begun| == |old(flag.begun)| + calls
        invariant replyPipe == pipe + frame[..totalWritten]
        invariant WriteRun(script, calls, |frame|, totalWritten) == WriteRun(script, 0, |frame|, 0)
        decreases |frame| - totalWritten
      {
        ScriptAt(flag.stop, old(flag.loads), writes, calls);
        WriteOnce(script, calls, |frame|, totalWritten);
        var stopped := flag.Load();
        if stopped {
          return false;
        }
        flag.Begin();
        var success, bytesWritten := WriteFile(frame[totalWritten..], writes(calls));
        TakenTogether(pipe, frame, totalWritten, bytesWritten);
        if !success || bytesWritten == 0 {
          return false;
        }
        totalWritten, calls := totalWritten + bytesWritten, calls + 1;
      }
      WriteDone(script, calls, |frame|);
      sent := true;
    }

    method ProcessRequest(payload: seq<Byte>) returns (keep: bool)
      requires Valid() && flag.Clear()
      modifies this`replyPipe, this`requests, this`outputs, this`met, this`handled, flag
      ensures flag.Valid() && flag.Near() && (keep ==> flag.Clear()) && old(flag.loads) <= flag.loads
      ensures requests == old(requests) + 1 && handled == old(handled) + [payload] && Accounted()
      ensures var request := script(old(requests));
        met == old(met) + [RequestEnv(request.stored, Script(flag.stop, old(flag.loads), request.writes))]
      ensures var (out, kept) := HandleRequest(wire, met[old(requests)], payload);
        && keep == kept && outputs == old(outputs) + [out]
        && replyPipe == old(replyPipe) + out && replyPipe == Concat(outputs)
    {
      hide Concat, WritesTotal, Checked, StaysSet;
      var request := script(requests);
      ghost var env := RequestEnv(request.stored, Script(flag.stop, flag.loads, request.writes));
      ghost var sent := HandleRequest(wire, env, payload).0;
      ConcatSplit(outputs, [sent]);
      ConcatOne(sent);
      OneMoreRequest(wire, met, handled, env, payload);
      outputs, met, handled := outputs + [sent], met + [env], handled + [payload];
      requests := requests + 1;
      if wire.requests.parse(payload) != Some(REQUEST) {
        return false;
      }
      var response := MakeResponse(request.stored);
      var serialized := wire.responses.serialize(response);
      if serialized.None? {
        return false;
      }
      var frame := EncodeFrame(serialized.value);
      if frame.None? {
        return false;
      }
      keep := WriteAll(frame.value, request.writes);
    }

    /** The loop body on a whole frame: erase it, process it, keep the connection or not. */
    method TakeFrame(decoded: DecodeResult)
      requires Valid() && verdict == Open && flag.Clear() && BytesKept()
      requires decoded == TryDecodeFrame(receiveBuffer) && decoded.status == Complete
      modifies this, flag
      ensures Valid() && (keepConnection ==> flag.Clear()) && old(flag.loads) <= flag.loads
      ensures |receiveBuffer| < |old(receiveBuffer)| && old(met) <= met
      ensures taken == old(taken) && readCalls == old(readCalls) && BytesKept()
      ensures forall envs: nat -> RequestEnv :: Extends(envs, met) ==>
        Continue(ServerHandler(wire, envs), 0, old(Session()), []) ==
          if keepConnection then Continue(ServerHandler(wire, envs), 0, Session(), []) else Session()
    {
      hide Continue, ServerHandler, HandleRequest, TryDecodeFrame, Concat, Script, Accounted, AllLegal, EncodeAll,
        StaysSet, Checked, ReplyPayload;
      ghost var before := Session();
      FrameTaken(handled, receiveBuffer, decoded);
      receiveBuffer := receiveBuffer[decoded.consumed..];
      keepConnection := ProcessRequest(decoded.payload);
      verdict := if keepConnection then Open else Rejected;
      forall envs: nat -> RequestEnv | Extends(envs, met)
        ensures Continue(ServerHandler(wire, envs), 0, before, []) ==
          if keepConnection then Continue(ServerHandler(wire, envs), 0, Session(), []) else Session()
      {
        assert envs(|before.outputs|) == met[|before.outputs|];
        HandlerIs(wire, envs, |before.outputs|, decoded.payload);
        OneFrame(ServerHandler(wire, envs), before, decoded);
      }
    }

    /** The inner loop: take every whole frame off the buffer until a refusal. */
    method DrainBuffer()
      requires Valid() && verdict == Open && flag.Clear() && BytesKept()
      modifies this, flag
      ensures Valid() && (keepConnection ==> flag.Clear()) && old(flag.loads) <= flag.loads
      ensures old(met) <= met && taken == old(taken)
      ensures readCalls == old(readCalls) && BytesKept()
      ensures forall envs: nat -> RequestEnv :: Extends(envs, met) ==>
        Session() == Continue(ServerHandler(wire, envs), 0, old(Session()), [])
    {
      hide TryDecodeFrame, Continue, ServerHandler, Concat, Accounted, BytesKept;
      ghost var start := Session();
      while keepConnection
        invariant Valid() && (keepConnection ==> flag.Clear()) && old(flag.loads) <= flag.loads
        invariant old(met) <= met && taken == old(taken)
        invariant readCalls == old(readCalls) && BytesKept()
        invariant forall envs: nat -> RequestEnv :: Extends(envs, met) ==>
          Continue(ServerHandler(wire, envs), 0, start, []) ==
            if keepConnection then Continue(ServerHandler(wire, envs), 0, Session(), []) else Session()
        decreases |receiveBuffer|, keepConnection
      {
        var decoded := TryDecodeFrame(receiveBuffer);
        ghost var before := Session();
        if decoded.status != Complete {
          forall envs: nat -> RequestEnv | Extends(envs, met)
            ensures Continue(ServerHandler(wire, envs), 0, before, []) ==
              if decoded.status == Incomplete then before else before.(verdict := BadLength)
          {
            NoFrame(ServerHandler(wire, envs), before);
          }
        }
        if decoded.status == Incomplete {
          break;
        }
        if decoded.status == InvalidLength {
          keepConnection, verdict := false, BadLength;
          break;
        }
        TakeFrame(decoded);
      }
    }

    /** What was read goes to the end of the buffer, which is at its fullest then. */
    method AppendRead(data: seq<Byte>)
      requires |receiveBuffer| < HEADER_SIZE + MAX_PAYLOAD_SIZE && |data| <= READ_SIZE
      modifies this`receiveBuffer
      ensures receiveBuffer == old(receiveBuffer) + data
      ensures |receiveBuffer| < 4 + 0x10_0000 + 4096
    {
      receiveBuffer := receiveBuffer + data;
    }

    /** The receive loop's body on what was read: append it and drain the buffer. */
    method TakeRead(data: seq<Byte>)
      requires Valid() && verdict == Open && flag.Clear() && |data| <= READ_SIZE
      requires Settled(Session()) && ComesFrom(wire, met, taken, Session()) && BytesKept()
      modifies this, flag
      ensures Valid() && (keepConnection ==> flag.Clear()) && old(flag.loads) <= flag.loads
      ensures BytesKept() && readCalls == old(readCalls)
      ensures taken == old(taken) + [data] && |receiveBuffer| <= |old(receiveBuffer) + data|
      ensures Settled(Session()) && ComesFrom(wire, met, taken, Session())
      ensures |receiveBuffer| < 4 + 0x10_0000 + 4096
    {
      hide TryDecodeFrame, Continue, FeedAll, ServerHandler, Concat, Settled, Extends, StaysSet, Checked, Met,
        Accounted, AllLegal, EncodeAll;
      SettledIsShort(Session());
      ghost var before, metBefore := Session(), met;
      AppendRead(data);
      taken := taken + [data];
      BytesAppended(old(taken), data, handled, before.rest);
      DrainBuffer();
      NextRead(wire, before, Session(), old(taken), data, metBefore, met);
    }

    /** The receive loop's check of the flag; if it was clear, ReadFile is called. */
    method BeginRead() returns (stopped: bool)
      requires Valid() && flag.Clear()
      modifies this`readCalls, flag
      ensures Valid() && flag.loads == old(flag.loads) + 1 && (stopped <==> !flag.Clear())
      ensures readCalls == old(readCalls) + if stopped then 0 else 1
    {
      hide Checked, Concat, Met, WritesTotal;
      stopped := flag.Load();
      if !stopped {
        flag.Begin();
        readCalls := readCalls + 1;
      }
    }

    /** What the accounts say of the loads since the connection began. */
    lemma LoadsAreSpent()
      requires Valid()
      ensures forall i :: firstLoad <= i < flag.loads && !flag.stop(i) ==> i in flag.begun
      ensures |flag.begun| == firstCall + readCalls + WritesTotal(wire, met, handled)
      ensures flag.loads - |flag.begun| == firstLoad - firstCall + if flag.Clear() then 0 else 1
    {
      hide Checked, StaysSet, WritesTotal, Met, Concat;
      NoIdleLoad(flag.begun, flag.stop, flag.loads, firstCall, firstLoad);
    }

    /** The receive loop of one connection; the flag is set by load number `horizon` at the latest.
        Between reads the buffer holds less than one frame of the greatest length; with a read on
        top it stays below that plus the size of a read. It ends for a reason: the verdict, the flag,
        a failed or an empty read. */
    method Run(arrivals: nat -> ReadOutcome, horizon: nat)
      requires Valid() && Session() == Fresh() && met == [] && handled == [] && taken == [] && readCalls == 0
      requires flag.Clear() && flag.stop(horizon) && firstLoad == flag.loads && firstCall == |flag.begun|
      requires forall i: nat :: arrivals(i).ReadBytes? ==> |arrivals(i).data| <= READ_SIZE
      modifies this, flag
      ensures Valid() && old(flag.loads) <= flag.loads
      ensures Session() == FeedAll(ServerHandler(wire, EnvsOf(met)), Fresh(), taken).0
      ensures ComesFrom(wire, met, taken, Session())
      ensures Took(arrivals, taken)
      ensures BytesKept() && |handled| == |met|
      ensures readCalls == |taken| || (readCalls == |taken| + 1 && arrivals(|taken|) in {ReadFailed, ReadBytes([])})
      ensures verdict != Open || !flag.Clear() || readCalls == |taken| + 1
      ensures forall i :: old(flag.loads) <= i < flag.loads && !flag.stop(i) ==> i in flag.begun
      ensures |flag.begun| == |old(flag.begun)| + readCalls + WritesTotal(wire, met, handled)
      ensures flag.loads - |flag.begun| == old(flag.loads - |flag.begun|) + if flag.Clear() then 0 else 1
      ensures verdict == Open ==> |receiveBuffer| < 4 + 0x10_0000
      ensures |receiveBuffer| < 4 + 0x10_0000 + 4096
    {
      hide FeedAll, ServerHandler, EnvsOf, Concat, Settled, ComesFrom, StaysSet, Checked, Met, AllLegal, EncodeAll,
        Extends, HandleRequest, ReplyPayload, TryDecodeFrame, WritesTotal, Took;
      NothingRead<seq<Byte>>();
      NothingTaken(wire, met, arrivals);
      NothingKept();
      assert BytesKept();
      hide BytesKept, Accounted;
      var next := 0;
      while keepConnection
        invariant Valid() && (keepConnection ==> flag.Clear()) && old(flag.loads) <= flag.loads
        invariant Settled(Session()) && next == |taken| == readCalls && BytesKept()
        invariant ComesFrom(wire, met, taken, Session())
        invariant Took(arrivals, taken)
        invariant |receiveBuffer| < HEADER_SIZE + MAX_PAYLOAD_SIZE + READ_SIZE
        decreases horizon + 1 - flag.loads
      {
        LoadsBeforeHorizon(flag, horizon);
        var stopped := BeginRead();
        if stopped {
          break;
        }
        var read := arrivals(next);
        if read.ReadFailed? {
          break;
        }
        if read.data == [] {
          break;
        }
        TookOneMore(arrivals, taken, read.data);
        TakeRead(read.data);
        next := next + 1;
      }
      LoadsAreSpent();
      SessionFrom(wire, met, taken, Session());
      if verdict == Open {
        SettledIsShort(Session());
      }
    }
  }

  lemma FrameTaken(handled: seq<seq<Byte>>, buffer: seq<Byte>, decoded: DecodeResult)
    requires AllLegal(handled) && decoded == TryDecodeFrame(buffer) && decoded.status == Complete
    ensures AllLegal(handled + [decoded.payload]) && decoded.consumed <= |buffer|
    ensures EncodeAll(handled + [decoded.payload]) + buffer[decoded.consumed..] == EncodeAll(handled) + buffer
  {
    hide TryDecodeFrame, Frame;
    EncodeAllSplit(handled, [decoded.payload]);
    EncodeOne(decoded.payload);
    assert buffer == Frame(decoded.payload) + buffer[decoded.consumed..];
  }

  lemma BytesAppended(taken: seq<seq<Byte>>, data: seq<Byte>, handled: seq<seq<Byte>>, buffer: seq<Byte>)
    requires AllLegal(handled) && Concat(taken) == EncodeAll(handled) + buffer
    ensures Concat(taken + [data]) == EncodeAll(handled) + (buffer + data)
  {
    ConcatSplit(taken, [data]);
    ConcatOne(data);
  }

  lemma OneMoreRequest(w: Wire, met: seq<RequestEnv>, handled: seq<seq<Byte>>, env: RequestEnv, payload: seq<Byte>)
    requires |met| == |handled|
    ensures WritesTotal(w, met + [env], handled + [payload]) == WritesTotal(w, met, handled) + WritesOf(w, env, payload)
  {
    hide WritesOf;
    assert (met + [env])[..|met|] == met && (handled + [payload])[..|met|] == handled;
  }

  lemma ScriptAt(stop: nat -> bool, from: nat, writes: nat -> WriteOutcome, j: nat)
    ensures Script(stop, from, writes)(j) == WriteStep(stop(from + j), writes(j))
  {
  }

  /** One round of the write loop. */
  lemma WriteOnce(script: nat -> WriteStep, i: nat, size: nat, total: nat)
    requires total < size
    ensures var (step, r) := (script(i), WriteRun(script, i, size, total));
      var count := if step.outcome.Wrote? then step.outcome.count else step.outcome.taken;
      && (step.stopped ==> r.total == total && r.calls == i && !r.sent)
      && (!step.stopped ==>
            var now := total + Min(count, size - total);
            if step.outcome.Wrote? && count > 0 then r == WriteRun(script, i + 1, size, now)
            else r.total == now && r.calls == i + 1 && !r.sent)
  {
  }

  lemma WriteDone(script: nat -> WriteStep, i: nat, size: nat)
    ensures WriteRun(script, i, size, size) == WriteResult(size, i, true)
  {
  }

  lemma TakenTogether(pipe: seq<Byte>, frame: seq<Byte>, total: nat, count: nat)
    requires total + count <= |frame|
    ensures pipe + frame[..total] + frame[total..][..count] == pipe + frame[..total + count]
  {
    assert frame[..total + count] == frame[..total] + frame[total..][..count];
  }

  lemma LoadsBeforeHorizon(flag: AtomicFlag, horizon: nat)
    requires flag.Valid() && flag.stop(horizon)
    ensures flag.Clear() ==> flag.loads <= horizon
    ensures flag.Near() ==> flag.loads <= horizon + 1
  {
  }

  lemma NothingRead<T>()
    ensures Settled<T>(Fresh())
  {
    EmptyIsIncomplete();
  }

  lemma NothingTaken(w: Wire, met: seq<RequestEnv>, arrivals: nat -> ReadOutcome)
    ensures ComesFrom(w, met, [], Fresh()) && Took(arrivals, [])
  {
  }

  lemma TookOneMore(arrivals: nat -> ReadOutcome, taken: seq<seq<Byte>>, data: seq<Byte>)
    requires Took(arrivals, taken) && arrivals(|taken|) == ReadBytes(data) && data != []
    ensures Took(arrivals, taken + [data])
  {
  }

  lemma NothingKept()
    ensures AllLegal([]) && Concat<Byte>([]) == EncodeAll([]) + []
  {
  }

  lemma SessionFrom(w: Wire, met: seq<RequestEnv>, taken: seq<seq<Byte>>, s: Received<seq<Byte>>)
    requires ComesFrom(w, met, taken, s)
    ensures FeedAll(ServerHandler(w, EnvsOf(met)), Fresh(), taken) == (s, [])
  {
    hide FeedAll, ServerHandler;
    EnvsOfExtends(met);
  }

  lemma SettledIsShort<T>(s: Received<T>)
    requires Settled(s) && s.verdict == Open
    ensures |s.rest| < HEADER_SIZE + MAX_PAYLOAD_SIZE
  {
    hide TryDecodeFrame;
  }

  lemma EnvsOfExtends(met: seq<RequestEnv>)
    ensures Extends(EnvsOf(met), met)
  {
  }

  lemma ExtendsLess(envs: nat -> RequestEnv, met: seq<RequestEnv>, less: seq<RequestEnv>)
    requires Extends(envs, met) && less <= met
    ensures Extends(envs, less)
  {
  }

  /** One read more. */
  lemma {:induction false} FeedOneMore<T>(h: (nat, seq<Byte>) -> (T, bool), start: Received<T>, s: Received<T>,
                                          taken: seq<seq<Byte>>, chunk: seq<Byte>)
    requires FeedAll(h, start, taken) == (s, []) && s.verdict == Open
    ensures FeedAll(h, start, taken + [chunk]) == (Feed(h, s, chunk), [])
    decreases |taken|
  {
    hide Continue;
    if taken == [] {
      assert [chunk][1..] == [];
    } else {
      assert (taken + [chunk])[1..] == taken[1..] + [chunk];
      FeedOneMore(h, Feed(h, start, taken[0]), s, taken[1..], chunk);
    }
  }

  /** The buffer with one read appended and drained is the session after that read. */
  lemma NextRead(w: Wire, before: Received<seq<Byte>>, after: Received<seq<Byte>>, taken: seq<seq<Byte>>,
                 chunk: seq<Byte>, metBefore: seq<RequestEnv>, met: seq<RequestEnv>)
    requires before.verdict == Open && metBefore <= met
    requires ComesFrom(w, metBefore, taken, before)
    requires forall envs: nat -> RequestEnv :: Extends(envs, met) ==>
      after == Continue(ServerHandler(w, envs), 0, before.(rest := before.rest + chunk), [])
    ensures ComesFrom(w, met, taken + [chunk], after)
    ensures Settled(after) && |after.rest| <= |before.rest| + |chunk|
  {
    hide FeedAll, Continue, ServerHandler, Extends, Settled;
    forall envs: nat -> RequestEnv | Extends(envs, met)
      ensures FeedAll(ServerHandler(w, envs), Fresh(), taken + [chunk]) == (after, [])
      ensures Settled(after) && |after.rest| <= |before.rest| + |chunk|
    {
      ExtendsLess(envs, met, metBefore);
      ReceiveOnly(ServerHandler(w, envs), before, chunk);
      FeedOneMore(ServerHandler(w, envs), Fresh(), before, taken, chunk);
    }
    EnvsOfExtends(met);
  }

  // ----- one connection after another -----

  /** One turn of the accept loop: whether the pipe could be created and a client connected, and what
      that client's connection finds. */
  datatype Turn = Turn(created: bool, connected: bool, arrivals: nat -> ReadOutcome, requests: nat -> Request)

  /** A client served: in which turn, what its requests met, what was taken off the buffer and read
      from it, and how often ReadFile was called. */
  datatype Served = Served(turn: nat, met: seq<RequestEnv>, handled: seq<seq<Byte>>, taken: seq<seq<Byte>>,
                           readCalls: nat)

  /** The first `n` turns that brought a client. */
  function Visits(turns: nat -> Turn, n: nat): seq<nat> {
    if n == 0 then []
    else if turns(n - 1).created && turns(n - 1).connected then Visits(turns, n - 1) + [n - 1]
    else Visits(turns, n - 1)
  }

  /** In how many of the first `n` turns a pipe was created. */
  function Creations(turns: nat -> Turn, n: nat): nat {
    if n == 0 then 0 else Creations(turns, n - 1) + if turns(n - 1).created then 1 else 0
  }

  /** The last call begun was directly followed by the last load. */
  ghost predicate CutShort(begun: seq<nat>, loads: nat) {
    loads > 1 && begun != [] && begun[|begun| - 1] == loads - 2
  }

  /** The blocking calls made while serving clients, reads and writes. */
  ghost function CallsTotal(w: Wire, clients: seq<Served>): nat
    requires AllPaired(clients)
  {
    if clients == [] then 0
    else
      var last := clients[|clients| - 1];
      CallsTotal(w, clients[..|clients| - 1]) + last.readCalls + WritesTotal(w, last.met, last.handled)
  }

  ghost predicate AllPaired(clients: seq<Served>) {
    forall k :: 0 <= k < |clients| ==> |clients[k].met| == |clients[k].handled|
  }

  /** Where the loads of a worker with `n` whole turns went. Each turn took two loads and made one call
      of its own, the wait for a client or the pause after a failed creation; every other load that
      found the flag clear was followed by a call of a session. The last one or two loads found the
      flag set; it may have stopped the last turn's pause, or one more wait. */
  ghost predicate Spent(turns: nat -> Turn, n: nat, sessionCalls: nat, connects: nat, begun: seq<nat>, loads: nat,
                        stop: nat -> bool)
  {
    var seen := if loads > 1 && stop(loads - 2) then 2 else 1;
    && loads == |begun| + n + seen
    && (|| (connects == Creations(turns, n) && |begun| == n + sessionCalls)
        || (&& connects == Creations(turns, n) && |begun| + 1 == n + sessionCalls
            && n > 0 && !turns(n - 1).created && seen == 2)
        || (&& connects == Creations(turns, n) + 1 && |begun| == n + 1 + sessionCalls
            && turns(n).created && seen == 1 && CutShort(begun, loads)))
  }

  function SessionOf(w: Wire, client: Served): Received<seq<Byte>> {
    FeedAll(ServerHandler(w, EnvsOf(client.met)), Fresh(), client.taken).0
  }

  /** The session took its reads and requests from its turn, and all its checks from the one flag; what
      was read from the client is the frames of the payloads handled and what was left. */
  ghost predicate Fits(w: Wire, client: Served, turns: nat -> Turn, stop: nat -> bool) {
    var turn := turns(client.turn);
    && Took(turn.arrivals, client.taken)
    && (forall n :: 0 <= n < |client.met| ==> Met(turn.requests(n), stop, client.met[n]))
    && |client.handled| == |client.met| && AllLegal(client.handled)
    && Concat(client.taken) == EncodeAll(client.handled) + SessionOf(w, client).rest
    && (|| client.readCalls == |client.taken|
        || (client.readCalls == |client.taken| + 1 && turn.arrivals(|client.taken|) in {ReadFailed, ReadBytes([])}))
  }

  /** Every client was sent what its session puts out. */
  ghost predicate AllServed(w: Wire, clients: seq<Served>, replyPipes: seq<seq<Byte>>, turns: nat -> Turn,
                            stop: nat -> bool)
  {
    && |clients| == |replyPipes|
    && forall k :: 0 <= k < |clients| ==>
         Fits(w, clients[k], turns, stop) && replyPipes[k] == Concat(SessionOf(w, clients[k]).outputs)
  }

  /** All sessions, but perhaps the last one if the flag was seen in it, ended by themselves. */
  ghost predicate AllEnded(w: Wire, clients: seq<Served>, cut: bool) {
    forall k :: 0 <= k < |clients| ==> Ended(w, clients[k]) || (k == |clients| - 1 && cut)
  }

  /** A refusal, a bad length, a failed or an empty read. */
  ghost predicate Ended(w: Wire, client: Served) {
    SessionOf(w, client).verdict != Open || client.readCalls == |client.taken| + 1
  }

  ghost predicate PlausibleReads(turn: Turn) {
    forall i: nat :: turn.arrivals(i).ReadBytes? ==> |turn.arrivals(i).data| <= READ_SIZE
  }

  class PipeServer {
    const wire: Wire
    const flag: AtomicFlag
    /** What was written to each client, one pipe instance after another. */
    var replyPipes: seq<seq<Byte>>
    ghost var clients: seq<Served>
    /** How often ConnectNamedPipe was called. */
    ghost var connects: nat

    ghost predicate Valid(turns: nat -> Turn) reads this, flag {
      flag.Valid() && AllPaired(clients) && AllServed(wire, clients, replyPipes, turns, flag.stop)
    }

    /** The loads and calls of `n` whole turns. */
    ghost predicate Accounted(turns: nat -> Turn, n: nat) reads this, flag {
      && AllPaired(clients) && flag.loads == |flag.begun| + n + (if flag.Clear() then 0 else 1)
      && (|| |flag.begun| == n + CallsTotal(wire, clients)
          || (&& |flag.begun| + 1 == n + CallsTotal(wire, clients)
              && n > 0 && !turns(n - 1).created && !flag.Clear()))
    }

    constructor (wire: Wire, flag: AtomicFlag)
      ensures this.wire == wire && this.flag == flag && replyPipes == [] && clients == [] && connects == 0
    {
      this.wire, this.flag, replyPipes, clients, connects := wire, flag, [], [], 0;
    }

    /** The worker: the accept loop with the receive and write loops inside it, under one stop flag
        that is set by its load number `horizon` at the latest. Every client that connects is served,
        in turn, and gets what its own session puts out from a fresh start. No load before the flag is
        set is wasted. Once it is set no blocking call is begun any more, at most the one begun right
        after the last clear load can still be going on, and the worker ends after at most two loads. */
    method Run(turns: nat -> Turn, horizon: nat)
      requires flag.Valid() && flag.loads == 0 && flag.begun == [] && flag.stop(horizon)
      requires replyPipes == [] && clients == [] && connects == 0
      requires forall k: nat :: PlausibleReads(turns(k))
      modifies this, flag
      ensures Valid(turns)
      ensures exists n: nat ::
        && Turns(clients) == Visits(turns, n)
        && Spent(turns, n, CallsTotal(wire, clients), connects, flag.begun, flag.loads, flag.stop)
      ensures flag.loads > 0 && flag.stop(flag.loads - 1)
      ensures AllEnded(wire, clients, flag.loads > 1 && flag.stop(flag.loads - 2))
      ensures forall set_: nat :: flag.stop(set_) ==> flag.loads <= set_ + 2
      ensures BoundedAfterStop(flag.begun, flag.stop)
    {
      hide PlausibleReads, Checked, StaysSet, BoundedAfterStop, Turns, AllServed, AllEnded, CallsTotal, AllPaired,
        Spent, Creations, Visits, CutShort;
      var turn := 0;
      NoTurns(wire, turns, flag.stop);
      while true
        invariant Valid(turns) && flag.Near() && Turns(clients) == Visits(turns, turn)
        invariant connects == Creations(turns, turn) && Accounted(turns, turn)
        invariant AllEnded(wire, clients, !flag.Clear())
        decreases horizon + 1 - flag.loads
      {
        LoadsBeforeHorizon(flag, horizon);
        var stopped := flag.Load();
        if stopped {
          SpentAtCheck(turns, turn, CallsTotal(wire, clients), connects, flag.begun, flag.loads - 1, flag.stop);
          break;
        }
        OneMoreTurn(turns, turn);
        var more := TakeTurn(turns, turn, horizon);
        if !more {
          SpentAtWait(turns, turn, CallsTotal(wire, clients), connects, flag.begun, flag.loads, flag.stop);
          break;
        }
        turn := turn + 1;
      }
      NothingBeginsAfterStop(flag.begun, flag.stop, flag.loads);
      LoadsAfterStop(flag);
    }

    /** The accept loop's body after a load that saw the flag clear. */
    method TakeTurn(turns: nat -> Turn, turn: nat, horizon: nat) returns (more: bool)
      requires Valid(turns) && flag.MayBegin() && flag.Clear() && flag.Near() && flag.stop(horizon)
      requires |flag.begun| == turn + CallsTotal(wire, clients) && flag.loads == |flag.begun| + turn + 1
      requires PlausibleReads(turns(turn)) && AllEnded(wire, clients, false)
      modifies this, flag
      ensures Valid(turns) && flag.Near() && old(flag.loads) <= flag.loads
      ensures Turns(clients) == old(Turns(clients)) +
        if more && turns(turn).created && turns(turn).connected then [turn] else []
      ensures connects == old(connects) + if turns(turn).created then 1 else 0
      ensures more ==> Accounted(turns, turn + 1) && AllEnded(wire, clients, !flag.Clear())
      ensures !more ==>
        && clients == old(clients) && turns(turn).created
        && CutShort(flag.begun, flag.loads) && flag.stop(flag.loads - 1)
        && |flag.begun| == turn + 1 + CallsTotal(wire, clients) && flag.loads == |flag.begun| + turn + 1
    {
      hide PlausibleReads, Checked, StaysSet, Turns, AllServed, AllEnded, CallsTotal, AllPaired;
      more := true;
      var stopped;
      if !turns(turn).created {
        EndedAnyway(wire, clients);
        stopped := flag.Load();
        if !stopped {
          flag.Begin(); // the pause before the next attempt
        }
      } else {
        flag.Begin(); // ConnectNamedPipe
        connects := connects + 1;
        stopped := flag.Load();
        if stopped {
          return false;
        }
        EndedAnyway(wire, clients);
        if turns(turn).connected {
          ServeClient(turns, turn, horizon);
        }
      }
    }

    /** One client: a fresh buffer, then the receive loop. */
    method ServeClient(turns: nat -> Turn, turn: nat, horizon: nat)
      requires Valid(turns) && flag.Clear() && flag.Near() && flag.stop(horizon) && PlausibleReads(turns(turn))
      requires AllEnded(wire, clients, false)
      modifies this, flag
      ensures Valid(turns) && flag.Near() && old(flag.loads) <= flag.loads
      ensures Turns(clients) == old(Turns(clients)) + [turn] && connects == old(connects)
      ensures AllEnded(wire, clients, !flag.Clear())
      ensures |flag.begun| - CallsTotal(wire, clients) == old(|flag.begun| - CallsTotal(wire, clients))
      ensures flag.loads - |flag.begun| == old(flag.loads - |flag.begun|) + if flag.Clear() then 0 else 1
    {
      hide FeedAll, ServerHandler, Concat, Checked, Met, SessionOf, WritesTotal;
      var connection := new PipeConnection(wire, flag, turns(turn).requests);
      connection.Run(turns(turn).arrivals, horizon);
      ghost var client := Served(turn, connection.met, connection.handled, connection.taken, connection.readCalls);
      SessionIs(wire, client);
      replyPipes, clients := replyPipes + [connection.replyPipe], clients + [client];
      assert clients[..|clients| - 1] == old(clients);
    }
  }

  function Turns(clients: seq<Served>): seq<nat> {
    seq(|clients|, k requires 0 <= k < |clients| => clients[k].turn)
  }

  lemma OneMoreTurn(turns: nat -> Turn, n: nat)
    ensures Visits(turns, n + 1) == Visits(turns, n) + if turns(n).created && turns(n).connected then [n] else []
    ensures Creations(turns, n + 1) == Creations(turns, n) + if turns(n).created then 1 else 0
  {
  }

  /** The worker ends at the accept loop's own check. */
  lemma SpentAtCheck(turns: nat -> Turn, n: nat, sessionCalls: nat, connects: nat, begun: seq<nat>, check: nat,
                     stop: nat -> bool)
    requires connects == Creations(turns, n) && check == |begun| + n + (if check > 0 && stop(check - 1) then 1 else 0)
    requires |begun| == n + sessionCalls
      || (|begun| + 1 == n + sessionCalls && n > 0 && !turns(n - 1).created && check > 0 && stop(check - 1))
    ensures Spent(turns, n, sessionCalls, connects, begun, check + 1, stop)
  {
    hide Creations;
  }

  /** The worker ends right after a wait for a client. */
  lemma SpentAtWait(turns: nat -> Turn, n: nat, sessionCalls: nat, connects: nat, begun: seq<nat>, loads: nat,
                    stop: nat -> bool)
    requires connects == Creations(turns, n) + 1 && turns(n).created && CutShort(begun, loads)
    requires |begun| == n + 1 + sessionCalls && loads == |begun| + n + 1 && Checked(begun, stop, loads)
    ensures Spent(turns, n, sessionCalls, connects, begun, loads, stop) && !stop(loads - 2)
  {
    hide Creations;
  }

  lemma EndedAnyway(w: Wire, clients: seq<Served>)
    requires AllEnded(w, clients, false)
    ensures forall cut :: AllEnded(w, clients, cut)
  {
  }

  lemma NoTurns(w: Wire, turns: nat -> Turn, stop: nat -> bool)
    ensures Turns([]) == Visits(turns, 0) && Creations(turns, 0) == 0 && AllPaired([]) && CallsTotal(w, []) == 0
    ensures AllServed(w, [], [], turns, stop) && AllEnded(w, [], false)
  {
  }

  lemma SessionIs(w: Wire, client: Served)
    ensures SessionOf(w, client) == FeedAll(ServerHandler(w, EnvsOf(client.met)), Fresh(), client.taken).0
  {
  }

  lemma LoadsAfterStop(flag: AtomicFlag)
    requires flag.Valid() && (flag.Near() || (flag.loads > 2 ==> !flag.stop(flag.loads - 3)))
    ensures forall set_: nat :: flag.stop(set_) ==> flag.loads <= set_ + 2
  {
  }

  /** No leakage between connections: what a client is sent depends on the bytes it sent itself and
      on what its requests met, however the bytes were cut, and on nothing before it. */
  lemma ConnectionsAreIsolated(w: Wire, a: Served, b: Served)
    requires a.met == b.met && Concat(a.taken) == Concat(b.taken)
    ensures SessionOf(w, a).outputs == SessionOf(w, b).outputs && SessionOf(w, a).verdict == SessionOf(w, b).verdict
  {
    hide FeedAll, ServerHandler, Concat;
    ChunkingIndependence(ServerHandler(w, EnvsOf(a.met)), a.taken, b.taken);
  }
}
