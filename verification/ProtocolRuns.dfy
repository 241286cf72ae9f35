/** What the step system of Agent and Desktop guarantees in every run. */
module ProtocolRuns {
  import opened Prelude
  import opened Framing
  import opened LocalAgentMessages
  import opened Protocol
  import C = ClientState
  import StreamReceiver

  // ----- across connections -----

  /** Everything delivered on `l` was delivered before anything was asked on `m`. */
  predicate Before(l: Log, m: Log) {
    forall i, j :: 0 <= i < |l.seen| && 0 <= j < |m.asked| ==> l.seen[i] <= m.asked[j]
  }

  ghost predicate HistoryInv(w: Wire, s: System) {
    && (forall a :: 0 <= a < |s.past| ==> LogInv(w, s.store, s.past[a]) && Before(s.past[a], s.log))
    && (forall a, b :: 0 <= a < b < |s.past| ==> Before(s.past[a], s.past[b]))
  }

  lemma StepKeepsHistory(w: Wire, s: System, a: Action)
    requires Inv(w, s) && HistoryInv(w, s)
    ensures HistoryInv(w, Step(w, s, a))
  {
    hide ServerHandling, ServerWriting, ClientReading, LogInv, EncodeAll;
    if Enabled(s, a) {
      match a
      case Publish(snapshot) => PublishKeepsHistory(w, s, snapshot);
      case Connect => ConnectKeepsHistory(w, s);
      case Request => AskKeepsHistory(w, s);
      case RequestRefused(_) => AskKeepsHistory(w, s);
      case ServerHandles => HandlingKeepsPast(w, s);
      case ServerWrites(count) => WritingKeepsPast(s, count);
      case ClientReads(count) => ReadingKeepsPast(w, s, count);
      case _ =>
    }
  }

  lemma PublishKeepsHistory(w: Wire, s: System, snapshot: LatestSnapshot)
    requires HistoryInv(w, s)
    ensures HistoryInv(w, s.(store := s.store + [snapshot]))
  {
    hide LogInv;
    forall a | 0 <= a < |s.past| ensures LogInv(w, s.store + [snapshot], s.past[a]) {
      LogAfterPublish(w, s.store, snapshot, s.past[a]);
    }
  }

  lemma ConnectKeepsHistory(w: Wire, s: System)
    requires HistoryInv(w, s) && LogInv(w, s.store, s.log) && Enabled(s, Connect)
    ensures HistoryInv(w, Step(w, s, Connect))
  {
    hide LogInv;
  }

  lemma AskKeepsHistory(w: Wire, s: System)
    requires HistoryInv(w, s)
    ensures HistoryInv(w, Asks(s))
  {
    hide Justified, Truthful;
  }

  lemma HandlingKeepsPast(w: Wire, s: System)
    requires s.server.Some?
    ensures var t := ServerHandling(w, s);
      t.past == s.past && t.store == s.store && t.log.asked == s.log.asked && t.log.seen == s.log.seen
  {
    hide TryDecodeFrame, ReplyPayload;
  }

  lemma WritingKeepsPast(s: System, count: nat)
    requires Enabled(s, ServerWrites(count))
    ensures var t := ServerWriting(s, count); t.past == s.past && t.store == s.store && t.log == s.log
  {
  }

  lemma ReadingKeepsPast(w: Wire, s: System, count: nat)
    requires count <= |s.toClient|
    ensures var t := ClientReading(w, s, count); t.past == s.past && t.store == s.store && t.log.asked == s.log.asked
  {
  }

  lemma {:induction false} RunKeepsHistory(w: Wire, s: System, actions: seq<Action>)
    requires Inv(w, s) && HistoryInv(w, s) && Lawful(w)
    ensures Inv(w, Run(w, s, actions)) && HistoryInv(w, Run(w, s, actions))
    decreases |actions|
  {
    hide Step, Inv, HistoryInv, Lawful;
    if actions != [] {
      StepKeepsInv(w, s, actions[0]);
      StepKeepsHistory(w, s, actions[0]);
      RunKeepsHistory(w, Step(w, s, actions[0]), actions[1..]);
    }
  }

  lemma InitialInv(w: Wire)
    requires Lawful(w)
    ensures Inv(w, INITIAL) && HistoryInv(w, INITIAL)
  {
  }

  /** All connections of a run so far, the current one last. */
  function Logs(s: System): seq<Log> {
    s.past + [s.log]
  }

  /** Request and reply. In every run, on every connection: the i-th snapshot delivered is what
      `make_response` says of the store at one version, and that version lies between the i-th
      request's write and the delivery. Only this connection's requests and replies count, so no
      byte of an earlier connection is ever decoded. */
  lemma DeliveriesAnswerRequests(w: Wire, actions: seq<Action>, c: nat, i: nat)
    requires Lawful(w)
    requires var s := Run(w, INITIAL, actions); c < |Logs(s)| && i < |Logs(s)[c].delivered|
    ensures var s := Run(w, INITIAL, actions);
      var l := Logs(s)[c];
      && i < |l.answered| && i < |l.asked| && i < |l.seen|
      && l.asked[i] <= l.answered[i] <= l.seen[i] <= Version(s)
      && l.delivered[i] == Told(ValueAt(s.store, l.answered[i]))
  {
    InitialInv(w);
    RunKeepsHistory(w, INITIAL, actions);
    var s := Run(w, INITIAL, actions);
    assert LogInv(w, s.store, Logs(s)[c]);
    assert Logs(s)[c].delivered[i] == Spoken(s.store, Logs(s)[c], i);
  }

  /** No receiver ever meets a bad frame, an unreadable message or a wrong version. */
  lemma NoProtocolFaults(w: Wire, actions: seq<Action>)
    requires Lawful(w)
    ensures Run(w, INITIAL, actions).faults == 0
  {
    InitialInv(w);
    RunKeepsInv(w, INITIAL, actions);
  }

  // ----- freshness -----

  /** The store versions behind what was delivered on a connection. */
  function Versions(l: Log): seq<nat> {
    if |l.delivered| <= |l.answered| then l.answered[..|l.delivered|] else []
  }

  function AllVersions(logs: seq<Log>): seq<nat> {
    if logs == [] then [] else AllVersions(logs[..|logs| - 1]) + Versions(logs[|logs| - 1])
  }

  ghost predicate Chain(w: Wire, store: seq<LatestSnapshot>, logs: seq<Log>) {
    && (forall a :: 0 <= a < |logs| ==> LogInv(w, store, logs[a]))
    && (forall a, b :: 0 <= a < b < |logs| ==> Before(logs[a], logs[b]))
  }

  lemma VersionsBefore(w: Wire, store: seq<LatestSnapshot>, l: Log, m: Log)
    requires LogInv(w, store, l) && LogInv(w, store, m) && Before(l, m)
    ensures forall i, j :: 0 <= i < |Versions(l)| && 0 <= j < |Versions(m)| ==> Versions(l)[i] <= Versions(m)[j]
  {
    hide ReplyPayload, Told, ValueAt;
    forall i, j | 0 <= i < |Versions(l)| && 0 <= j < |Versions(m)| ensures Versions(l)[i] <= Versions(m)[j] {
      assert l.answered[i] <= l.seen[i] <= m.asked[j] <= m.answered[j];
    }
  }

  lemma {:induction false} AllVersionsBefore(w: Wire, store: seq<LatestSnapshot>, logs: seq<Log>, m: Log)
    requires LogInv(w, store, m)
    requires forall a :: 0 <= a < |logs| ==> LogInv(w, store, logs[a]) && Before(logs[a], m)
    ensures forall i, j :: 0 <= i < |AllVersions(logs)| && 0 <= j < |Versions(m)| ==>
      AllVersions(logs)[i] <= Versions(m)[j]
    decreases |logs|
  {
    hide LogInv, Before, Versions;
    if logs != [] {
      var (init, last) := (logs[..|logs| - 1], logs[|logs| - 1]);
      AllVersionsBefore(w, store, init, m);
      VersionsBefore(w, store, last, m);
    }
  }

  lemma SortedAppend(a: seq<nat>, b: seq<nat>)
    requires Sorted(a) && Sorted(b)
    requires forall i, j :: 0 <= i < |a| && 0 <= j < |b| ==> a[i] <= b[j]
    ensures Sorted(a + b)
  {
  }

  lemma OrderedVersions(w: Wire, store: seq<LatestSnapshot>, l: Log)
    requires LogInv(w, store, l)
    ensures Sorted(Versions(l))
  {
    hide Justified, Truthful;
  }

  lemma {:induction false} VersionsAreSorted(w: Wire, store: seq<LatestSnapshot>, logs: seq<Log>)
    requires Chain(w, store, logs)
    ensures Sorted(AllVersions(logs))
    decreases |logs|
  {
    hide LogInv, Before, Versions;
    if logs != [] {
      var (init, last) := (logs[..|logs| - 1], logs[|logs| - 1]);
      OrderedVersions(w, store, last);
      VersionsAreSorted(w, store, init);
      AllVersionsBefore(w, store, init, last);
      SortedAppend(AllVersions(init), Versions(last));
    }
  }

  lemma LogsAreChained(w: Wire, s: System)
    requires LogInv(w, s.store, s.log) && HistoryInv(w, s)
    ensures Chain(w, s.store, Logs(s))
  {
    hide LogInv, Before;
  }

  /** Freshness. Over a whole run, across any number of connections, the snapshots delivered go
      back to store versions that never decrease. */
  lemma DeliveriesNeverGoBack(w: Wire, actions: seq<Action>)
    requires Lawful(w)
    ensures Sorted(AllVersions(Logs(Run(w, INITIAL, actions))))
  {
    hide LogInv, HistoryInv, Run, EncodeAll;
    InitialInv(w);
    RunKeepsHistory(w, INITIAL, actions);
    var s := Run(w, INITIAL, actions);
    LogsAreChained(w, s);
    VersionsAreSorted(w, s.store, Logs(s));
  }

  // ----- conservation -----

  /** Request conservation. While both ends of a connection are up, every request written is
      delivered, or on its way to or buffered at the server, or answered by a reply being written,
      on its way or buffered at the client: counted in the bytes themselves, with frames in parts
      on both sides of a cut counted once, and no byte left over. */
  lemma RequestsAreConserved(w: Wire, actions: seq<Action>)
    requires Lawful(w)
    ensures var s := Run(w, INITIAL, actions);
      s.clientUp && s.server.Some? ==>
        var replies := DecodeStream(s.clientBuffer + s.toClient + Unsent(s.server));
        var requests := DecodeStream(s.server.value.buffer + s.server.value.inbound);
        && |s.log.asked| == |s.log.delivered| + |replies.payloads| + |requests.payloads|
        && replies.rest == requests.rest == [] && !replies.invalid && !requests.invalid
        && (forall i :: 0 <= i < |requests.payloads| ==> requests.payloads[i] == RequestPayload(w))
  {
    InitialInv(w);
    RunKeepsInv(w, INITIAL, actions);
    var s := Run(w, INITIAL, actions);
    if s.clientUp && s.server.Some? {
      ConservedIn(w, s);
    }
  }

  lemma ConservedIn(w: Wire, s: System)
    requires Inv(w, s) && s.clientUp && s.server.Some?
    ensures DecodeStream(s.clientBuffer + s.toClient + Unsent(s.server)) == Decoded(Due(s.log), [], false)
    ensures DecodeStream(s.server.value.buffer + s.server.value.inbound)
         == Decoded(Requests(w, |s.log.asked| - |s.log.answered|), [], false)
    ensures |s.log.asked| == |s.log.delivered| + |Due(s.log)| + (|s.log.asked| - |s.log.answered|)
  {
    hide EncodeAll, TryDecodeFrame, Justified, Truthful, Ordered;
    var requests := Requests(w, |s.log.asked| - |s.log.answered|);
    EmptyIsIncomplete();
    StreamRoundTrip(Due(s.log), []);
    StreamRoundTrip(requests, []);
    assert EncodeAll(Due(s.log)) + [] == EncodeAll(Due(s.log));
    assert EncodeAll(requests) + [] == EncodeAll(requests);
  }

  // ----- progress -----

  /** A buffer of whole frames in which none can be decoded is empty. */
  lemma NothingLeft(ps: seq<seq<Byte>>)
    requires AllLegal(ps) && TryDecodeFrame(EncodeAll(ps)).status == Incomplete
    ensures ps == []
  {
    if ps != [] {
      DecodeOfFrame(ps[0], EncodeAll(ps[1..]));
    }
  }

  /** The steps that move a live connection on: the server reads, handles or writes, or the client
      reads something. */
  predicate Moving(a: Action) {
    a.ServerReads? || a.ServerHandles? || a.ServerWrites? || (a.ClientReads? && a.count > 0)
  }

  /** A connection with both ends up, and a store whose value can be sent. */
  ghost predicate Live(w: Wire, s: System) {
    Inv(w, s) && s.clientUp && s.server.Some? && ReplyPayload(w, ValueAt(s.store, Version(s))).Some?
  }

  /** Nothing is left to be done. */
  predicate Idle(s: System)
    requires s.server.Some?
  {
    var e := s.server.value;
    e.reply.None? && TryDecodeFrame(e.buffer).status == Incomplete && e.inbound == [] && s.toClient == []
  }

  /** One of the moves of a connection that is not idle: finish a reply, else take up a request, else
      read requests, else let the client read. */
  function Advance(s: System): Action
    requires s.server.Some?
  {
    var e := s.server.value;
    if e.reply.Some? then ServerWrites(|Unsent(s.server)|)
    else if TryDecodeFrame(e.buffer).status != Incomplete then ServerHandles
    else if e.inbound != [] then ServerReads(Min(|e.inbound|, IpcServer.READ_SIZE))
    else ClientReads(|s.toClient|)
  }

  /** A live connection is idle exactly if no move is possible. */
  lemma IdleExactlyIfNoMove(w: Wire, s: System)
    requires Live(w, s)
    ensures Idle(s) <==> forall a: Action :: Moving(a) ==> !Enabled(s, a)
  {
    hide LogInv, RequestBytes, ReplyBytes, EncodeAll, TryDecodeFrame, ReplyPayload;
    if !Idle(s) {
      AdvanceMoves(w, s);
    }
  }

  lemma AdvanceMoves(w: Wire, s: System)
    requires Live(w, s) && !Idle(s)
    ensures Moving(Advance(s)) && Enabled(s, Advance(s))
  {
    hide LogInv, RequestBytes, ReplyBytes, EncodeAll, TryDecodeFrame, ReplyPayload;
  }

  /** More than a request can still cost in bytes written and read. */
  const REQUEST_RANK := 1 + 2 * (HEADER_SIZE + MAX_PAYLOAD_SIZE)

  /** How much is left to be done: for each request not taken up, for each byte not read by the
      server, not written by it, and not read by the client. */
  function Rank(s: System): nat
    requires Sizes(s.log) && s.server.Some?
  {
    REQUEST_RANK * (|s.log.asked| - |s.log.answered|) + |s.server.value.inbound| + 2 * |Unsent(s.server)| + |s.toClient|
  }

  lemma LiveSizes(w: Wire, s: System)
    requires Inv(w, s)
    ensures Sizes(s.log)
  {
    hide Justified, Truthful, Ordered, RequestBytes, ReplyBytes;
  }

  /** Every move, whichever it is, leaves less to be done, and the connection live. */
  lemma EveryMoveLowers(w: Wire, s: System, a: Action)
    requires Lawful(w) && Live(w, s) && Moving(a) && Enabled(s, a)
    ensures var t := Step(w, s, a);
      && Live(w, t) && Sizes(s.log) && Sizes(t.log) && Rank(t) < Rank(s)
      && t.store == s.store && t.log.asked == s.log.asked
  {
    hide Inv, Step, Rank, ReplyPayload, Lawful;
    LiveSizes(w, s);
    StepKeepsInv(w, s, a);
    LiveSizes(w, Step(w, s, a));
    match a
    case ServerReads(count) => ReadLowers(w, s, count);
    case ServerHandles => HandleLowers(w, s);
    case ServerWrites(count) => WriteLowers(w, s, count);
    case ClientReads(count) => ClientReadLowers(w, s, count);
  }

  /** What a move leaves of a live connection. */
  predicate StaysUp(s: System, t: System) {
    t.clientUp && t.server.Some? && t.store == s.store && t.log.asked == s.log.asked
  }

  lemma ReadLowers(w: Wire, s: System, count: nat)
    requires Sizes(s.log) && s.clientUp && Enabled(s, ServerReads(count))
    ensures var t := Step(w, s, ServerReads(count)); StaysUp(s, t) && Sizes(t.log) && Rank(t) < Rank(s)
  {
    hide TryDecodeFrame;
  }

  lemma HandleLowers(w: Wire, s: System)
    requires Lawful(w) && Live(w, s) && Sizes(s.log) && Enabled(s, ServerHandles)
    requires Sizes(Step(w, s, ServerHandles).log)
    ensures var t := Step(w, s, ServerHandles); StaysUp(s, t) && Rank(t) < Rank(s)
  {
    hide TryDecodeFrame, Inv, Lawful, ReplyPayload, Frame;
    NextRequest(w, s);
    var reply := ReplyPayload(w, ValueAt(s.store, Version(s))).value;
    FrameIsShort(reply);
  }

  lemma FrameIsShort(payload: seq<Byte>)
    requires Legal(payload)
    ensures |Frame(payload)| <= HEADER_SIZE + MAX_PAYLOAD_SIZE
  {
  }

  lemma WriteLowers(w: Wire, s: System, count: nat)
    requires Sizes(s.log) && s.clientUp && Enabled(s, ServerWrites(count))
    ensures var t := Step(w, s, ServerWrites(count)); StaysUp(s, t) && Sizes(t.log) && Rank(t) < Rank(s)
  {
    hide Unsent;
    UnsentMovesOn(s, count);
  }

  lemma ClientReadLowers(w: Wire, s: System, count: nat)
    requires Lawful(w) && Live(w, s) && Sizes(s.log) && count > 0 && Enabled(s, ClientReads(count))
    requires Sizes(Step(w, s, ClientReads(count)).log)
    ensures var t := Step(w, s, ClientReads(count)); StaysUp(s, t) && Rank(t) < Rank(s)
  {
    hide Inv, Lawful, ReplyPayload, StreamReceiver.Receive, C.Snapshots, C.ReplyHandler, DueSpoken, LogInv, EncodeAll,
      Justified, Truthful, Ordered, Unsent;
    NextReplies(w, s, count);
    OpenReading(w, s, count);
  }

  lemma OpenReading(w: Wire, s: System, count: nat)
    requires count <= |s.toClient| && s.clientUp
    requires StreamReceiver.Receive(C.ReplyHandler(w), 0, s.clientBuffer + s.toClient[..count]).verdict
      == StreamReceiver.Open
    ensures var t := ClientReading(w, s, count);
      && t.clientUp && t.server == s.server && t.store == s.store && |t.toClient| == |s.toClient| - count
      && t.log.asked == s.log.asked && t.log.answered == s.log.answered
  {
    hide StreamReceiver.Receive, C.Snapshots;
  }

  /** Each of these actions is a possible move when its turn comes. */
  ghost predicate AllMoves(w: Wire, s: System, actions: seq<Action>)
    decreases |actions|
  {
    actions == [] ||
      (Moving(actions[0]) && Enabled(s, actions[0]) && AllMoves(w, Step(w, s, actions[0]), actions[1..]))
  }

  /** Progress under every schedule. Any run of moves from a live connection is bounded by what was
      left to be done; and wherever it comes to a state without a move, every request is answered. */
  lemma {:induction false} EveryScheduleAnswers(w: Wire, s: System, actions: seq<Action>)
    requires Lawful(w) && Live(w, s) && AllMoves(w, s, actions)
    ensures var t := Run(w, s, actions);
      && Sizes(s.log) && |actions| <= Rank(s)
      && Live(w, t) && t.store == s.store && t.log.asked == s.log.asked
      && ((forall a: Action :: Moving(a) ==> !Enabled(t, a)) ==> |t.log.delivered| == |s.log.asked|)
    decreases |actions|
  {
    hide Step, Live, Rank, Lawful;
    LiveParts(w, s);
    if actions == [] {
      IdleExactlyIfNoMove(w, s);
      if Idle(s) {
        IdleIsDone(w, s);
      }
    } else {
      EveryMoveLowers(w, s, actions[0]);
      EveryScheduleAnswers(w, Step(w, s, actions[0]), actions[1..]);
    }
  }

  lemma LiveParts(w: Wire, s: System)
    requires Live(w, s)
    ensures Inv(w, s) && Sizes(s.log) && s.clientUp && s.server.Some?
  {
    LiveSizes(w, s);
  }

  /** There is such a run: where the store's value can be sent, reading, handling and writing alone
      answer every request of a live connection. */
  lemma {:induction false} RequestsCanBeAnswered(w: Wire, s: System) returns (actions: seq<Action>)
    requires Lawful(w) && Live(w, s)
    ensures AllMoves(w, s, actions)
    ensures var t := Run(w, s, actions);
      && t.clientUp && t.server.Some? && t.log.asked == s.log.asked && t.store == s.store
      && |t.log.delivered| == |s.log.asked|
    decreases if Sizes(s.log) && s.server.Some? then Rank(s) else 0
  {
    hide Step, Live, Rank, Lawful, Idle;
    LiveParts(w, s);
    if Idle(s) {
      IdleIsDone(w, s);
      actions := [];
    } else {
      var a := Advance(s);
      AdvanceMoves(w, s);
      EveryMoveLowers(w, s, a);
      LiveParts(w, Step(w, s, a));
      var more := RequestsCanBeAnswered(w, Step(w, s, a));
      actions := [a] + more;
      assert actions[1..] == more;
    }
  }

  lemma IdleIsDone(w: Wire, s: System)
    requires Inv(w, s) && s.clientUp && s.server.Some? && Idle(s)
    ensures |s.log.delivered| == |s.log.asked|
  {
    hide EncodeAll, TryDecodeFrame, Justified, Truthful, Ordered;
    var e := s.server.value;
    assert e.buffer + e.inbound == e.buffer;
    NothingLeft(Requests(w, |s.log.asked| - |s.log.answered|));
    assert s.clientBuffer + s.toClient + Unsent(s.server) == s.clientBuffer;
    NothingLeft(Due(s.log));
  }
}
