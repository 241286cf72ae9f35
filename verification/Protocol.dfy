/** Agent and Desktop together: one client, the two byte streams of its connection, the
    single-connection server and the snapshot store, as a system of small steps. */
module Protocol {
  import opened Prelude
  import opened Framing
  import opened StreamReceiver
  import opened LocalAgentMessages
  import IpcServer
  import C = ClientState

  /** What happened on one connection. Versions count the store's updates: version 0 is the empty
      store. For the i-th request: the version when it was written (`asked`), the version its reply
      was made from (`answered`) and the payload of that reply (`replies`); for the i-th snapshot
      the client delivered: the version at that moment (`seen`) and the snapshot (`delivered`). */
  datatype Log = Log(
    asked: seq<nat>,
    answered: seq<nat>,
    replies: seq<seq<Byte>>,
    seen: seq<nat>,
    delivered: seq<LocalAgentSnapshot>)

  const EMPTY_LOG := Log([], [], [], [], [])

  /** A reply being written, and how much of it the pipe has taken. */
  datatype Sending = Sending(frame: seq<Byte>, written: nat)

  datatype ServerEnd = ServerEnd(inbound: seq<Byte>, buffer: seq<Byte>, reply: Option<Sending>)

  /** `clientBuffer` is the client's member: it outlives connections. `toClient` are bytes sent and
      not yet read. No connection exists when the client is down and the server has no end. */
  datatype System = System(
    store: seq<LatestSnapshot>,
    past: seq<Log>,
    log: Log,
    clientUp: bool,
    clientBuffer: seq<Byte>,
    toClient: seq<Byte>,
    server: Option<ServerEnd>,
    faults: nat)

  const INITIAL := System([], [], EMPTY_LOG, false, [], [], None, 0)

  datatype Action =
    | Publish(snapshot: LatestSnapshot)   // LatestSnapshotStore::update
    | Connect                             // a new pipe instance, both ends fresh
    | Request                             // request_snapshot, the whole frame queued
    | RequestRefused(kept: nat)           // request_snapshot, part of it queued, then abort
    | ClientDrops(kept: nat)              // the client's end goes; unread bytes may be lost
    | ClientReads(count: nat)             // readyRead
    | ServerReads(count: nat)             // ReadFile
    | ServerHandles                       // one whole frame decoded and processed up to its reply
    | ServerWrites(count: nat)            // WriteFile, possibly partial
    | ServerCloses(kept: nat)             // any read or write error, stop; unread bytes may be lost

  /** The Agent's own actions. */
  predicate AgentSide(a: Action) {
    a.Publish? || a.ServerReads? || a.ServerHandles? || a.ServerWrites? || a.ServerCloses?
  }

  /** The client's actions on a connection it has. */
  predicate ClientSide(a: Action) {
    a.Request? || a.RequestRefused? || a.ClientDrops? || a.ClientReads?
  }

  function Version(s: System): nat {
    |s.store|
  }

  function ValueAt(store: seq<LatestSnapshot>, version: nat): Option<LatestSnapshot>
    requires version <= |store|
  {
    if version == 0 then None else Some(store[version - 1])
  }

  function Cut(b: seq<Byte>, kept: nat): seq<Byte> {
    b[..Min(kept, |b|)]
  }

  function RequestFrame(w: Wire): seq<Byte> {
    if Legal(RequestPayload(w)) then Frame(RequestPayload(w)) else []
  }

  /** The server's end after more bytes were written to it. */
  function Arrive(server: Option<ServerEnd>, bytes: seq<Byte>): Option<ServerEnd> {
    match server
    case None => None
    case Some(e) => Some(e.(inbound := e.inbound + bytes))
  }

  function CutInbound(server: Option<ServerEnd>, kept: nat): Option<ServerEnd> {
    match server
    case None => None
    case Some(e) => Some(e.(inbound := Cut(e.inbound, kept)))
  }

  predicate Enabled(s: System, a: Action) {
    match a
    case Publish(_) => true
    case Connect => !s.clientUp && s.server.None?
    case Request => s.clientUp
    case RequestRefused(_) => s.clientUp
    case ClientDrops(_) => s.clientUp
    case ClientReads(count) => s.clientUp && count <= |s.toClient|
    case ServerReads(count) =>
      && s.server.Some? && s.server.value.reply.None?
      && TryDecodeFrame(s.server.value.buffer).status == Incomplete
      && 1 <= count <= Min(|s.server.value.inbound|, IpcServer.READ_SIZE)
    case ServerHandles =>
      && s.server.Some? && s.server.value.reply.None?
      && TryDecodeFrame(s.server.value.buffer).status != Incomplete
    case ServerWrites(count) =>
      && s.server.Some? && s.server.value.reply.Some?
      && 1 <= count && s.server.value.reply.value.written + count <= |s.server.value.reply.value.frame|
    case ServerCloses(_) => s.server.Some?
  }

  function Asks(s: System): System {
    s.(log := s.log.(asked := s.log.asked + [Version(s)]))
  }

  function ServerHandling(w: Wire, s: System): System
    requires s.server.Some?
  {
    var e := s.server.value;
    var f := TryDecodeFrame(e.buffer);
    if f.status != Complete || w.requests.parse(f.payload) != Some(REQUEST) then
      s.(server := None, faults := s.faults + 1)
    else match ReplyPayload(w, ValueAt(s.store, Version(s)))
      case None => s.(server := None)
      case Some(reply) =>
        s.(server := Some(e.(buffer := e.buffer[f.consumed..], reply := Some(Sending(Frame(reply), 0)))),
           log := s.log.(answered := s.log.answered + [Version(s)], replies := s.log.replies + [reply]))
  }

  function ServerWriting(s: System, count: nat): System
    requires Enabled(s, ServerWrites(count))
  {
    var e := s.server.value;
    var (frame, written) := (e.reply.value.frame, e.reply.value.written);
    s.(server := Some(e.(reply := if written + count == |frame| then None else Some(Sending(frame, written + count)))),
       toClient := if s.clientUp then s.toClient + frame[written..written + count] else s.toClient)
  }

  function ClientReading(w: Wire, s: System, count: nat): System
    requires count <= |s.toClient|
  {
    var r := Receive(C.ReplyHandler(w), 0, s.clientBuffer + s.toClient[..count]);
    var got := C.Snapshots(r.outputs);
    var t := s.(toClient := s.toClient[count..], clientBuffer := r.rest,
                log := s.log.(seen := s.log.seen + seq(|got|, _ => Version(s)), delivered := s.log.delivered + got));
    if r.verdict == Open then t else t.(clientUp := false, faults := s.faults + 1)
  }

  /** One step; an action that is not enabled changes nothing. */
  function Step(w: Wire, s: System, a: Action): System {
    if !Enabled(s, a) then s
    else match a
      case Publish(snapshot) => s.(store := s.store + [snapshot])
      case Connect =>
        s.(past := s.past + [s.log], log := EMPTY_LOG, clientUp := true, clientBuffer := [], toClient := [],
           server := Some(ServerEnd([], [], None)))
      case Request => Asks(s).(server := Arrive(s.server, RequestFrame(w)))
      case RequestRefused(kept) =>
        Asks(s).(clientUp := false, server := CutInbound(Arrive(s.server, RequestFrame(w)), kept))
      case ClientDrops(kept) => s.(clientUp := false, server := CutInbound(s.server, kept))
      case ClientReads(count) => ClientReading(w, s, count)
      case ServerReads(count) =>
        var e := s.server.value;
        s.(server := Some(e.(inbound := e.inbound[count..], buffer := e.buffer + e.inbound[..count])))
      case ServerHandles => ServerHandling(w, s)
      case ServerWrites(count) => ServerWriting(s, count)
      case ServerCloses(kept) => s.(server := None, toClient := Cut(s.toClient, kept))
  }

  function Run(w: Wire, s: System, actions: seq<Action>): System
    decreases |actions|
  {
    if actions == [] then s else Run(w, Step(w, s, actions[0]), actions[1..])
  }

  lemma NoSteps(w: Wire, s: System)
    ensures Run(w, s, []) == s
  {
  }

  lemma OneStep(w: Wire, s: System, a: Action)
    ensures Run(w, s, [a]) == Step(w, s, a)
  {
    hide Step;
    assert [a][1..] == [];
  }

  lemma TwoSteps(w: Wire, s: System, a: Action, more: seq<Action>)
    ensures Run(w, s, [a] + more) == Run(w, Step(w, s, a), more)
  {
    assert ([a] + more)[1..] == more;
  }

  lemma {:induction false} RunTogether(w: Wire, s: System, a: seq<Action>, b: seq<Action>)
    ensures Run(w, s, a + b) == Run(w, Run(w, s, a), b)
    decreases |a|
  {
    hide Step;
    if a == [] {
      assert a + b == b;
    } else {
      assert (a + b)[1..] == a[1..] + b;
      RunTogether(w, Step(w, s, a[0]), a[1..], b);
    }
  }

  /** The client's end and its record are as they were. */
  predicate SameClientEnd(s: System, t: System) {
    && t.clientUp == s.clientUp && t.clientBuffer == s.clientBuffer && t.past == s.past
    && t.log.asked == s.log.asked && t.log.seen == s.log.seen && t.log.delivered == s.log.delivered
  }

  /** The Agent's own steps leave the client's end of the connection alone. */
  lemma AgentKeepsClientEnd(w: Wire, s: System, a: Action)
    requires AgentSide(a)
    ensures SameClientEnd(s, Step(w, s, a))
  {
    hide TryDecodeFrame, ReplyPayload;
  }

  // ----- what every step keeps: the log -----

  predicate Sizes(l: Log) {
    |l.seen| == |l.delivered| <= |l.answered| <= |l.asked| && |l.replies| == |l.answered|
  }

  predicate Ordered(l: Log, version: nat) {
    && Sorted(l.asked) && Sorted(l.answered) && Sorted(l.seen)
    && (forall i :: 0 <= i < |l.asked| ==> l.asked[i] <= version)
    && (forall i :: 0 <= i < |l.answered| ==> l.answered[i] <= version)
    && (forall i :: 0 <= i < |l.seen| ==> l.seen[i] <= version)
  }

  /** The i-th reply was made from the store's value at one version, not older than the request. */
  predicate Justified(w: Wire, store: seq<LatestSnapshot>, l: Log)
    requires Sizes(l) && Ordered(l, |store|)
  {
    forall i :: 0 <= i < |l.answered| ==>
      l.asked[i] <= l.answered[i] && ReplyPayload(w, ValueAt(store, l.answered[i])) == Some(l.replies[i])
  }

  /** What the i-th reply tells the Desktop. */
  function Spoken(store: seq<LatestSnapshot>, l: Log, i: nat): LocalAgentSnapshot
    requires Sizes(l) && Ordered(l, |store|) && i < |l.answered|
  {
    Told(ValueAt(store, l.answered[i]))
  }

  /** The i-th delivery says what the i-th reply was made from, and came later. */
  predicate Truthful(store: seq<LatestSnapshot>, l: Log)
    requires Sizes(l) && Ordered(l, |store|)
  {
    forall i :: 0 <= i < |l.delivered| ==>
      l.answered[i] <= l.seen[i] && l.delivered[i] == Spoken(store, l, i)
  }

  predicate LogInv(w: Wire, store: seq<LatestSnapshot>, l: Log) {
    Sizes(l) && Ordered(l, |store|) && Justified(w, store, l) && Truthful(store, l)
  }

  lemma LogAfterPublish(w: Wire, store: seq<LatestSnapshot>, snapshot: LatestSnapshot, l: Log)
    requires LogInv(w, store, l)
    ensures LogInv(w, store + [snapshot], l)
  {
    hide ReplyPayload, Told;
    forall v: nat | v <= |store| ensures ValueAt(store + [snapshot], v) == ValueAt(store, v) {
    }
  }

  lemma LogAfterAsk(w: Wire, store: seq<LatestSnapshot>, l: Log)
    requires LogInv(w, store, l)
    ensures LogInv(w, store, l.(asked := l.asked + [|store|]))
  {
    hide ReplyPayload, Told;
  }

  lemma LogAfterAnswer(w: Wire, store: seq<LatestSnapshot>, l: Log, reply: seq<Byte>)
    requires LogInv(w, store, l) && |l.answered| < |l.asked|
    requires ReplyPayload(w, ValueAt(store, |store|)) == Some(reply)
    ensures LogInv(w, store, l.(answered := l.answered + [|store|], replies := l.replies + [reply]))
  {
    hide ReplyPayload, Told;
  }

  lemma SeenLater(store: seq<LatestSnapshot>, l: Log, count: nat)
    requires Sizes(l) && Ordered(l, |store|)
    ensures Ordered(l.(seen := l.seen + seq(count, _ => |store|)), |store|)
  {
  }

  /** `got` is what the replies after the delivered ones say. */
  lemma LogAfterDelivery(w: Wire, store: seq<LatestSnapshot>, l: Log, got: seq<LocalAgentSnapshot>)
    requires LogInv(w, store, l) && |l.delivered| + |got| <= |l.answered|
    requires forall i :: 0 <= i < |got| ==> got[i] == Spoken(store, l, |l.delivered| + i)
    ensures LogInv(w, store, l.(seen := l.seen + seq(|got|, _ => |store|), delivered := l.delivered + got))
  {
    hide ReplyPayload, Told, ValueAt;
    var t := l.(seen := l.seen + seq(|got|, _ => |store|), delivered := l.delivered + got);
    SeenLater(store, l, |got|);
    assert Justified(w, store, t);
    forall i | |l.delivered| <= i < |t.delivered|
      ensures t.answered[i] <= t.seen[i] && t.delivered[i] == Spoken(store, t, i)
    {
      assert got[i - |l.delivered|] == Spoken(store, l, |l.delivered| + (i - |l.delivered|));
    }
  }

  // ----- what every step keeps: the bytes -----

  /** `n` requests. */
  function Requests(w: Wire, n: nat): (ps: seq<seq<Byte>>)
    ensures |ps| == n && forall i :: 0 <= i < n ==> ps[i] == RequestPayload(w)
  {
    seq(n, _ => RequestPayload(w))
  }

  /** The replies made and not yet delivered. */
  function Due(l: Log): seq<seq<Byte>>
    requires Sizes(l)
  {
    l.replies[|l.delivered|..]
  }

  /** The part of a reply that the pipe has not taken. */
  function Unsent(server: Option<ServerEnd>): seq<Byte> {
    if server.Some? && server.value.reply.Some? then
      var r := server.value.reply.value;
      if r.written <= |r.frame| then r.frame[r.written..] else []
    else []
  }

  /** What the server holds is the frames of the requests not yet answered: all of them while the
      client is up, a first part of them once it has gone. */
  ghost predicate RequestBytes(w: Wire, s: System)
    requires Sizes(s.log) && Legal(RequestPayload(w))
  {
    s.server.Some? ==>
      var held := s.server.value.buffer + s.server.value.inbound;
      var due := EncodeAll(Requests(w, |s.log.asked| - |s.log.answered|));
      held <= due && (s.clientUp ==> held == due)
  }

  /** What the client holds or will receive is the frames of the replies due: all of them while the
      server is there, a first part of them once it has closed. */
  ghost predicate ReplyBytes(s: System)
    requires Sizes(s.log) && AllLegal(s.log.replies)
  {
    s.clientUp ==>
      var coming := s.clientBuffer + s.toClient + Unsent(s.server);
      coming <= EncodeAll(Due(s.log)) && (s.server.Some? ==> coming == EncodeAll(Due(s.log)))
  }

  predicate SendingWithinFrame(server: Option<ServerEnd>) {
    server.Some? && server.value.reply.Some? ==>
      server.value.reply.value.written < |server.value.reply.value.frame|
  }

  ghost predicate Inv(w: Wire, s: System) {
    && LogInv(w, s.store, s.log) && AllLegal(s.log.replies)
    && Legal(RequestPayload(w))
    && RequestBytes(w, s) && ReplyBytes(s) && SendingWithinFrame(s.server)
    && (s.clientUp ==> TryDecodeFrame(s.clientBuffer).status == Incomplete)
    && s.faults == 0
  }

  lemma OneMoreRequest(w: Wire, n: nat)
    requires Legal(RequestPayload(w))
    ensures EncodeAll(Requests(w, n + 1)) == EncodeAll(Requests(w, n)) + RequestFrame(w)
  {
    var p := RequestPayload(w);
    assert Requests(w, n + 1) == Requests(w, n) + [p];
    EncodeAllSplit(Requests(w, n), [p]);
    EncodeOne(p);
  }

  lemma OneMoreReply(l: Log, reply: seq<Byte>)
    requires Sizes(l) && AllLegal(l.replies) && Legal(reply)
    requires |l.answered| < |l.asked|
    ensures var t := l.(answered := l.answered + [0], replies := l.replies + [reply]);
      AllLegal(t.replies) && EncodeAll(Due(t)) == EncodeAll(Due(l)) + Frame(reply)
  {
    var t := l.(answered := l.answered + [0], replies := l.replies + [reply]);
    assert Due(t) == Due(l) + [reply];
    EncodeAllSplit(Due(l), [reply]);
    EncodeOne(reply);
  }

  lemma PublishKeepsInv(w: Wire, s: System, snapshot: LatestSnapshot)
    requires Inv(w, s)
    ensures Inv(w, Step(w, s, Publish(snapshot)))
  {
    hide LogInv, EncodeAll;
    LogAfterPublish(w, s.store, snapshot, s.log);
  }

  lemma ConnectKeepsInv(w: Wire, s: System)
    requires Inv(w, s)
    ensures Inv(w, Step(w, s, Connect))
  {
    hide LogInv, TryDecodeFrame, Frame, Legal, RequestPayload;
    EmptyIsIncomplete();
    EmptyLogInv(w, s.store);
    assert Sizes(EMPTY_LOG) && Due(EMPTY_LOG) == [] && Requests(w, 0) == [];
  }

  lemma EmptyLogInv(w: Wire, store: seq<LatestSnapshot>)
    ensures LogInv(w, store, EMPTY_LOG)
  {
  }

  lemma CutIsPrefix(a: seq<Byte>, b: seq<Byte>, kept: nat)
    ensures a + Cut(b, kept) <= a + b
  {
  }

  lemma AskKeepsBytes(w: Wire, s: System)
    requires Inv(w, s) && s.clientUp
    ensures var t := Step(w, s, Request); LogInv(w, t.store, t.log) && RequestBytes(w, t)
  {
    hide Justified, Truthful, Ordered, EncodeAll, RequestFrame;
    LogAfterAsk(w, s.store, s.log);
    var n := |s.log.asked| - |s.log.answered|;
    OneMoreRequest(w, n);
    if s.server.Some? {
      var e := s.server.value;
      assert e.buffer + (e.inbound + RequestFrame(w)) == (e.buffer + e.inbound) + RequestFrame(w);
    }
  }

  lemma RequestKeepsInv(w: Wire, s: System)
    requires Inv(w, s)
    ensures Inv(w, Step(w, s, Request))
  {
    hide LogInv, RequestBytes, EncodeAll, RequestFrame;
    if s.clientUp {
      AskKeepsBytes(w, s);
    }
  }

  lemma RefusalKeepsInv(w: Wire, s: System, kept: nat)
    requires Inv(w, s)
    ensures Inv(w, Step(w, s, RequestRefused(kept)))
  {
    hide LogInv, EncodeAll, RequestFrame;
    if s.clientUp {
      AskKeepsBytes(w, s);
      if s.server.Some? {
        var e := s.server.value;
        CutIsPrefix(e.buffer, e.inbound + RequestFrame(w), kept);
      }
    }
  }

  lemma DropKeepsInv(w: Wire, s: System, kept: nat)
    requires Inv(w, s)
    ensures Inv(w, Step(w, s, ClientDrops(kept)))
  {
    hide LogInv, EncodeAll;
    if s.clientUp && s.server.Some? {
      CutIsPrefix(s.server.value.buffer, s.server.value.inbound, kept);
    }
  }

  lemma ReadKeepsInv(w: Wire, s: System, count: nat)
    requires Inv(w, s)
    ensures Inv(w, Step(w, s, ServerReads(count)))
  {
    hide LogInv, EncodeAll, TryDecodeFrame;
    if Enabled(s, ServerReads(count)) {
      var e := s.server.value;
      assert e.buffer + e.inbound[..count] + e.inbound[count..] == e.buffer + e.inbound;
    }
  }

  lemma WriteKeepsInv(w: Wire, s: System, count: nat)
    requires Inv(w, s)
    ensures Inv(w, Step(w, s, ServerWrites(count)))
  {
    hide LogInv, EncodeAll, TryDecodeFrame, Requests, Unsent, AllLegal, Due;
    if Enabled(s, ServerWrites(count)) {
      if s.clientUp {
        WriteKeepsComing(s, count);
      }
    }
  }

  lemma WriteKeepsComing(s: System, count: nat)
    requires Enabled(s, ServerWrites(count)) && s.clientUp
    ensures var t := ServerWriting(s, count);
      t.clientBuffer + t.toClient + Unsent(t.server) == s.clientBuffer + s.toClient + Unsent(s.server)
  {
    hide Unsent;
    var r := s.server.value.reply.value;
    UnsentMovesOn(s, count);
    BytesSent(r.frame, r.written, count, s.clientBuffer, s.toClient);
  }

  lemma UnsentMovesOn(s: System, count: nat)
    requires Enabled(s, ServerWrites(count))
    ensures var r := s.server.value.reply.value;
      Unsent(s.server) == r.frame[r.written..] && Unsent(ServerWriting(s, count).server) == r.frame[r.written + count..]
  {
  }

  lemma BytesSent(frame: seq<Byte>, written: nat, count: nat, held: seq<Byte>, coming: seq<Byte>)
    requires written + count <= |frame|
    ensures held + (coming + frame[written..written + count]) + frame[written + count..]
         == held + coming + frame[written..]
  {
    assert frame[written..] == frame[written..written + count] + frame[written + count..];
  }

  lemma CloseKeepsInv(w: Wire, s: System, kept: nat)
    requires Inv(w, s)
    ensures Inv(w, Step(w, s, ServerCloses(kept)))
  {
    hide LogInv, EncodeAll;
    if s.server.Some? {
      CutIsPrefix(s.clientBuffer, s.toClient, kept);
      assert s.clientBuffer + Cut(s.toClient, kept) + [] == s.clientBuffer + Cut(s.toClient, kept);
      assert s.clientBuffer + s.toClient <= s.clientBuffer + s.toClient + Unsent(s.server);
    }
  }

  /** The next request the server decodes is one of those due. */
  lemma NextRequest(w: Wire, s: System)
    requires Inv(w, s) && Lawful(w) && Enabled(s, ServerHandles)
    ensures var e := s.server.value;
      var f := TryDecodeFrame(e.buffer);
      var n := |s.log.asked| - |s.log.answered|;
      && f.status == Complete && f.payload == RequestPayload(w) && n > 0
      && w.requests.parse(f.payload) == Some(REQUEST)
      && (var held := e.buffer[f.consumed..] + e.inbound;
          var due := EncodeAll(Requests(w, n - 1));
          held <= due && (s.clientUp ==> held == due))
  {
    hide LogInv, TryDecodeFrame, EncodeAll;
    var e := s.server.value;
    var f := TryDecodeFrame(e.buffer);
    var n := |s.log.asked| - |s.log.answered|;
    var ps := Requests(w, n);
    var held := e.buffer + e.inbound;
    assert e.buffer <= EncodeAll(ps);
    HeadOfPrefix(ps, e.buffer);
    var rest := e.buffer[f.consumed..];
    assert ps[1..] == Requests(w, n - 1);
    HeadAndTail(ps);
    assert held == Frame(ps[0]) + (rest + e.inbound);
    Cancel(Frame(ps[0]), rest + e.inbound, EncodeAll(ps[1..]));
  }

  lemma Cancel(a: seq<Byte>, x: seq<Byte>, y: seq<Byte>)
    requires a + x <= a + y
    ensures x <= y && (a + x == a + y ==> x == y)
  {
    assert x == (a + x)[|a|..] && y == (a + y)[|a|..];
    assert x == y[..|x|] by {
      assert (a + x)[|a|..] == (a + y)[..|a + x|][|a|..];
    }
  }

  lemma HeadAndTail(ps: seq<seq<Byte>>)
    requires AllLegal(ps) && ps != []
    ensures EncodeAll(ps) == Frame(ps[0]) + EncodeAll(ps[1..])
  {
  }

  lemma HandleKeepsInv(w: Wire, s: System)
    requires Inv(w, s) && Lawful(w)
    ensures Inv(w, Step(w, s, ServerHandles))
  {
    hide TryDecodeFrame, EncodeAll, Lawful, Justified, Truthful, Ordered, ReplyPayload;
    if Enabled(s, ServerHandles) {
      NextRequest(w, s);
      var reply := ReplyPayload(w, ValueAt(s.store, Version(s)));
      if reply.Some? {
        LogAfterAnswer(w, s.store, s.log, reply.value);
        OneMoreReply(s.log, reply.value);
        var t := Step(w, s, ServerHandles);
        assert Unsent(s.server) == [] && Unsent(t.server) == Frame(reply.value);
        assert Due(t.log) == Due(s.log.(answered := s.log.answered + [0], replies := s.log.replies + [reply.value]));
        assert s.clientBuffer + s.toClient + [] == s.clientBuffer + s.toClient;
      } else {
        CloseKeepsInv(w, s, |s.toClient|);
      }
    }
  }

  /** A client shown part of the frames of `ps`, replies that say `told`, takes some first of them
      and delivers what they say. */
  lemma ReadsReplies(w: Wire, ps: seq<seq<Byte>>, told: seq<LocalAgentSnapshot>, b: seq<Byte>)
    requires AllLegal(ps) && b <= EncodeAll(ps) && |told| == |ps|
    requires forall i :: 0 <= i < |ps| ==> C.ReadReply(w, ps[i]) == (C.SnapshotReceived(told[i]), true)
    ensures var r := Receive(C.ReplyHandler(w), 0, b);
      && r.verdict == Open && C.Snapshots(r.outputs) <= told
      && b == EncodeAll(ps[..|C.Snapshots(r.outputs)|]) + r.rest
  {
    hide EncodeAll, Receive, C.ReadReply;
    var h := C.ReplyHandler(w);
    forall m: nat, i | 0 <= i < |ps| ensures h(m, ps[i]) == (C.SnapshotReceived(told[i]), true) {
      assert h(m, ps[i]) == C.ReadReply(w, ps[i]);
    }
    ReceivePrefix(h, 0, ps, b);
    var r := Receive(h, 0, b);
    forall i | 0 <= i < |r.outputs| ensures r.outputs[i] == C.SnapshotReceived(told[i]) {
      assert r.outputs[i] == h(0 + i, ps[i]).0;
    }
    AllSnapshots(r.outputs);
    assert C.Snapshots(r.outputs) == told[..|r.outputs|];
  }

  /** What the replies due say. */
  function DueSpoken(store: seq<LatestSnapshot>, l: Log): seq<LocalAgentSnapshot>
    requires Sizes(l) && Ordered(l, |store|)
  {
    var d := |l.delivered|;
    seq(|l.answered| - d, i requires 0 <= i < |l.answered| - d => Spoken(store, l, d + i))
  }

  lemma DueIsSpoken(w: Wire, store: seq<LatestSnapshot>, l: Log)
    requires LogInv(w, store, l) && Lawful(w)
    ensures forall i :: 0 <= i < |Due(l)| ==>
      C.ReadReply(w, Due(l)[i]) == (C.SnapshotReceived(DueSpoken(store, l)[i]), true)
  {
    hide C.ReadReply, Justified, Truthful, Spoken, Lawful;
    forall i | 0 <= i < |Due(l)|
      ensures C.ReadReply(w, Due(l)[i]) == (C.SnapshotReceived(DueSpoken(store, l)[i]), true)
    {
      DueIsSpokenAt(w, store, l, i);
    }
  }

  lemma DueIsSpokenAt(w: Wire, store: seq<LatestSnapshot>, l: Log, i: nat)
    requires LogInv(w, store, l) && Lawful(w) && i < |Due(l)|
    ensures C.ReadReply(w, Due(l)[i]) == (C.SnapshotReceived(DueSpoken(store, l)[i]), true)
  {
    hide C.ReadReply, Told, ReplyPayload, Lawful, ValueAt;
    var j := |l.delivered| + i;
    assert Due(l)[i] == l.replies[j] && DueSpoken(store, l)[i] == Spoken(store, l, j);
    GoodReply(w, ValueAt(store, l.answered[j]), l.replies[j]);
  }

  lemma GoodReply(w: Wire, stored: Option<LatestSnapshot>, payload: seq<Byte>)
    requires Lawful(w) && ReplyPayload(w, stored) == Some(payload)
    ensures C.ReadReply(w, payload) == (C.SnapshotReceived(Told(stored)), true)
  {
    assert w.responses.parse(payload) == Some(ResponseFor(stored));
  }

  lemma {:induction false} AllSnapshots(signals: seq<C.Signal>)
    requires forall i :: 0 <= i < |signals| ==> signals[i].SnapshotReceived?
    ensures |C.Snapshots(signals)| == |signals|
    ensures forall i :: 0 <= i < |signals| ==> C.Snapshots(signals)[i] == signals[i].snapshot
    decreases |signals|
  {
    if signals != [] {
      AllSnapshots(signals[1..]);
    }
  }

  /** The client reads on: what it takes off its buffer are the next replies due, each one good. */
  lemma NextReplies(w: Wire, s: System, count: nat)
    requires Inv(w, s) && Lawful(w) && s.clientUp && count <= |s.toClient|
    ensures var r := Receive(C.ReplyHandler(w), 0, s.clientBuffer + s.toClient[..count]);
      && r.verdict == Open && C.Snapshots(r.outputs) <= DueSpoken(s.store, s.log)
      && s.clientBuffer + s.toClient[..count] == EncodeAll(Due(s.log)[..|C.Snapshots(r.outputs)|]) + r.rest
  {
    hide EncodeAll, Receive, C.ReadReply, C.ReplyHandler, C.Snapshots, Justified, Truthful, Lawful;
    var b := s.clientBuffer + s.toClient[..count];
    assert b <= EncodeAll(Due(s.log)) by {
      assert b + (s.toClient[count..] + Unsent(s.server)) == s.clientBuffer + s.toClient + Unsent(s.server);
    }
    DueIsSpoken(w, s.store, s.log);
    ReadsReplies(w, Due(s.log), DueSpoken(s.store, s.log), b);
  }

  lemma DeliveryKeepsLog(w: Wire, s: System, got: seq<LocalAgentSnapshot>)
    requires LogInv(w, s.store, s.log) && got <= DueSpoken(s.store, s.log)
    ensures LogInv(w, s.store,
      s.log.(seen := s.log.seen + seq(|got|, _ => Version(s)), delivered := s.log.delivered + got))
  {
    hide Justified, Truthful;
    LogAfterDelivery(w, s.store, s.log, got);
  }

  /** Taking `k` whole replies and leaving `rest` moves the bytes due along. */
  lemma DueMovesOn(ps: seq<seq<Byte>>, k: nat, read: seq<Byte>, rest: seq<Byte>, more: seq<Byte>)
    requires AllLegal(ps) && k <= |ps| && read == EncodeAll(ps[..k]) + rest && read + more <= EncodeAll(ps)
    ensures rest + more <= EncodeAll(ps[k..])
    ensures read + more == EncodeAll(ps) ==> rest + more == EncodeAll(ps[k..])
  {
    hide EncodeAll, Legal;
    assert ps == ps[..k] + ps[k..];
    EncodeAllSplit(ps[..k], ps[k..]);
    BytesMoveOn(EncodeAll(ps[..k]), EncodeAll(ps[k..]), read, rest, more);
  }

  lemma BytesMoveOn(taken: seq<Byte>, due: seq<Byte>, read: seq<Byte>, rest: seq<Byte>, more: seq<Byte>)
    requires read == taken + rest && read + more <= taken + due
    ensures rest + more <= due && (read + more == taken + due ==> rest + more == due)
  {
    assert read + more == taken + (rest + more);
    Cancel(taken, rest + more, due);
  }

  lemma ClientReadKeepsInv(w: Wire, s: System, count: nat)
    requires Inv(w, s) && Lawful(w)
    ensures Inv(w, Step(w, s, ClientReads(count)))
  {
    hide Lawful, Justified, Truthful, Ordered, EncodeAll, Receive, C.ReplyHandler, C.Snapshots, DueSpoken, Requests;
    if Enabled(s, ClientReads(count)) {
      NextReplies(w, s, count);
      var read := s.clientBuffer + s.toClient[..count];
      var more := s.toClient[count..] + Unsent(s.server);
      var r := Receive(C.ReplyHandler(w), 0, read);
      var got := C.Snapshots(r.outputs);
      DeliveryKeepsLog(w, s, got);
      assert s.clientBuffer + s.toClient + Unsent(s.server) == read + more;
      DueMovesOn(Due(s.log), |got|, read, r.rest, more);
      var t := Step(w, s, ClientReads(count));
      assert Due(t.log) == Due(s.log)[|got|..];
      assert t.clientBuffer + t.toClient + Unsent(t.server) == r.rest + more;
    }
  }

  lemma StepKeepsInv(w: Wire, s: System, a: Action)
    requires Inv(w, s) && Lawful(w)
    ensures Inv(w, Step(w, s, a))
  {
    hide Step, Inv, Lawful;
    match a
    case Publish(snapshot) => PublishKeepsInv(w, s, snapshot);
    case Connect => ConnectKeepsInv(w, s);
    case Request => RequestKeepsInv(w, s);
    case RequestRefused(kept) => RefusalKeepsInv(w, s, kept);
    case ClientDrops(kept) => DropKeepsInv(w, s, kept);
    case ClientReads(count) => ClientReadKeepsInv(w, s, count);
    case ServerReads(count) => ReadKeepsInv(w, s, count);
    case ServerHandles => HandleKeepsInv(w, s);
    case ServerWrites(count) => WriteKeepsInv(w, s, count);
    case ServerCloses(kept) => CloseKeepsInv(w, s, kept);
  }

  lemma {:induction false} RunKeepsInv(w: Wire, s: System, actions: seq<Action>)
    requires Inv(w, s) && Lawful(w)
    ensures Inv(w, Run(w, s, actions))
    decreases |actions|
  {
    hide Step, Inv, Lawful;
    if actions != [] {
      StepKeepsInv(w, s, actions[0]);
      RunKeepsInv(w, Step(w, s, actions[0]), actions[1..]);
    }
  }
}
