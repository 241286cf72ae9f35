/** The two messages of the local Agent protocol: how the Agent fills a reply from its latest
    snapshot, and how the Desktop reads it. Protobuf itself is a parameter (`Wire`). */
module LocalAgentMessages {
  import opened Prelude
  import opened TelemetryModel
  import Framing
  import StatusText

  const PROTOCOL_VERSION: UInt32 := 1

  datatype LatestSnapshot = LatestSnapshot(
    collectedAt: Int64,
    cpu: Option<CpuMetric>,
    memory: Option<MemoryMetric>,
    collectionError: string,
    submissionError: string)

  datatype SnapshotRequest = SnapshotRequest(protocolVersion: UInt32)

  /** The open proto3 enumeration: any other number may arrive. */
  datatype AgentState = Unspecified | Starting | Running | Degraded | Unrecognized(number: int)

  datatype MetricSnapshot = MetricSnapshot(
    collectedAtUnixMs: Int64,
    cpu: Option<CpuMetric>,
    memory: Option<MemoryMetric>)

  datatype SnapshotResponse = SnapshotResponse(
    protocolVersion: UInt32,
    agentState: AgentState,
    snapshot: Option<MetricSnapshot>,
    statusMessage: string)

  // ----- the Agent's side -----

  predicate Complete(s: LatestSnapshot) {
    s.cpu.Some? && s.memory.Some?
  }

  predicate HasErrors(s: LatestSnapshot) {
    s.collectionError != "" || s.submissionError != ""
  }

  /** Everything that keeps a snapshot from being reported as RUNNING, in the order reported. */
  function Complaints(s: LatestSnapshot): (parts: seq<string>)
    ensures StatusText.NoneEmpty(parts)
    ensures parts == [] <==> Complete(s) && !HasErrors(s)
  {
    [] +
    StatusText.When(s.cpu.None?, "CPU metric is unavailable") +
    StatusText.When(s.memory.None?, "Memory metric is unavailable") +
    StatusText.When(s.collectionError != "", "Collection error: " + s.collectionError) +
    StatusText.When(s.submissionError != "", "Remote submission error: " + s.submissionError)
  }

  /** The reply that a stored snapshot calls for. */
  function ResponseFor(stored: Option<LatestSnapshot>): SnapshotResponse {
    match stored
    case None =>
      SnapshotResponse(PROTOCOL_VERSION, Starting, None, "Waiting for the first metric snapshot")
    case Some(s) =>
      var (state, message) :=
        if Complaints(s) == [] then (Running, "System is under observation")
        else (Degraded, StatusText.Joined(Complaints(s)));
      SnapshotResponse(PROTOCOL_VERSION, state, Some(MetricSnapshot(s.collectedAt, s.cpu, s.memory)), message)
  }

  /** The text of a degraded reply, appended complaint by complaint. */
  method DescribeDegraded(s: LatestSnapshot) returns (message: string)
    ensures message == StatusText.Joined(Complaints(s))
  {
    hide StatusText.Joined, StatusText.Append, StatusText.When, StatusText.NoneEmpty;
    message := "";
    ghost var parts := StatusText.NothingJoined();
    parts := StatusText.JoinWhen(parts, s.cpu.None?, "CPU metric is unavailable");
    if s.cpu.None? {
      message := StatusText.Append(message, "CPU metric is unavailable");
    }
    parts := StatusText.JoinWhen(parts, s.memory.None?, "Memory metric is unavailable");
    if s.memory.None? {
      message := StatusText.Append(message, "Memory metric is unavailable");
    }
    parts := StatusText.JoinWhen(parts, s.collectionError != "", "Collection error: " + s.collectionError);
    if s.collectionError != "" {
      message := StatusText.Append(message, "Collection error: " + s.collectionError);
    }
    parts := StatusText.JoinWhen(parts, s.submissionError != "", "Remote submission error: " + s.submissionError);
    if s.submissionError != "" {
      message := StatusText.Append(message, "Remote submission error: " + s.submissionError);
    }
  }

  /** `make_response`, which fills the message field by field. */
  method MakeResponse(stored: Option<LatestSnapshot>) returns (response: SnapshotResponse)
    ensures response == ResponseFor(stored)
  {
    response := SnapshotResponse(0, Unspecified, None, "");
    response := response.(protocolVersion := PROTOCOL_VERSION);
    if stored.None? {
      response := response.(agentState := Starting);
      response := response.(statusMessage := "Waiting for the first metric snapshot");
      return;
    }
    var s := stored.value;
    if Complete(s) && !HasErrors(s) {
      response := response.(agentState := Running);
      response := response.(statusMessage := "System is under observation");
    } else {
      response := response.(agentState := Degraded);
      var message := DescribeDegraded(s);
      response := response.(statusMessage := message);
    }
    var snapshot := MetricSnapshot(0, None, None);
    snapshot := snapshot.(collectedAtUnixMs := s.collectedAt);
    if s.cpu.Some? {
      snapshot := snapshot.(cpu := Some(CpuMetric(s.cpu.value.usagePercent)));
    }
    if s.memory.Some? {
      snapshot := snapshot.(memory := Some(MemoryMetric(s.memory.value.totalBytes, s.memory.value.availableBytes)));
    }
    response := response.(snapshot := Some(snapshot));
  }

  // ----- the Desktop's side -----

  datatype LocalAgentState = AgentStarting | AgentRunning | AgentDegraded

  datatype LocalAgentSnapshot = LocalAgentSnapshot(
    state: LocalAgentState,
    hasSnapshot: bool,
    collectedAtUnixMs: Int64,
    cpu: Option<CpuMetric>,
    memory: Option<MemoryMetric>,
    statusMessage: string)

  /** What the client makes of a reply it accepts. */
  function ToLocal(r: SnapshotResponse): LocalAgentSnapshot {
    var state := match r.agentState
      case Running => AgentRunning
      case Degraded => AgentDegraded
      case _ => AgentStarting;
    match r.snapshot
    case None => LocalAgentSnapshot(state, false, 0, None, None, r.statusMessage)
    case Some(s) => LocalAgentSnapshot(state, true, s.collectedAtUnixMs, s.cpu, s.memory, r.statusMessage)
  }

  /** What the Desktop is told about a stored snapshot. */
  function Told(stored: Option<LatestSnapshot>): LocalAgentSnapshot {
    ToLocal(ResponseFor(stored))
  }

  /** End to end, the Desktop is told exactly what the store held: its time and metrics, and
      RUNNING precisely when nothing is missing and nothing failed. */
  lemma ReplyTellsTheStore(stored: Option<LatestSnapshot>)
    ensures var told := Told(stored);
      && (told.hasSnapshot <==> stored.Some?)
      && (told.state == AgentStarting <==> stored.None?)
      && (told.state == AgentRunning <==> stored.Some? && Complete(stored.value) && !HasErrors(stored.value))
      && (stored.Some? ==>
            && told.collectedAtUnixMs == stored.value.collectedAt
            && told.cpu == stored.value.cpu && told.memory == stored.value.memory)
      && told.statusMessage != "" && ResponseFor(stored).protocolVersion == 1
      && (told.state == AgentDegraded ==> told.statusMessage == StatusText.Joined(Complaints(stored.value)))
  {
    if stored.Some? {
      StatusText.JoinedEmpty(Complaints(stored.value));
    }
  }

  /** Whatever an Agent replies, the Desktop takes its text and its snapshot as they are; every state but
      RUNNING and DEGRADED, one of a later version of the protocol included, reads as starting. */
  lemma AnyReplyIsRead(r: SnapshotResponse)
    ensures var told := ToLocal(r);
      && (told.state == AgentRunning <==> r.agentState == Running)
      && (told.state == AgentDegraded <==> r.agentState == Degraded)
      && told.statusMessage == r.statusMessage && (told.hasSnapshot <==> r.snapshot.Some?)
      && (r.snapshot.Some? ==> r.snapshot.value == MetricSnapshot(told.collectedAtUnixMs, told.cpu, told.memory))
      && (r.snapshot.None? ==> told.collectedAtUnixMs == 0 && told.cpu.None? && told.memory.None?)
  {
  }

  /** The metrics that are missing, as a degraded reply names them. */
  function MissingText(s: LatestSnapshot): string {
    StatusText.Both(
      if s.cpu.None? then "CPU metric is unavailable" else "",
      if s.memory.None? then "Memory metric is unavailable" else "")
  }

  /** The stored error texts, each after its label. */
  function ErrorText(s: LatestSnapshot): string {
    StatusText.Both(
      if s.collectionError != "" then "Collection error: " + s.collectionError else "",
      if s.submissionError != "" then "Remote submission error: " + s.submissionError else "")
  }

  /** The status message, word for word: both stored error texts are told, each after its own label. */
  lemma StatusMessages(stored: Option<LatestSnapshot>)
    ensures var message := Told(stored).statusMessage;
      match stored
      case None => message == "Waiting for the first metric snapshot"
      case Some(s) =>
        message ==
          if Complete(s) && !HasErrors(s) then "System is under observation"
          else StatusText.Both(MissingText(s), ErrorText(s))
  {
    hide Complaints, MissingText, ErrorText;
    if stored.Some? {
      ComplaintsRead(stored.value);
    }
  }

  lemma ComplaintsRead(s: LatestSnapshot)
    ensures StatusText.Joined(Complaints(s)) == StatusText.Both(MissingText(s), ErrorText(s))
  {
    hide StatusText.Joined, StatusText.When, StatusText.Both, StatusText.NoneEmpty;
    var cpu := StatusText.When(s.cpu.None?, "CPU metric is unavailable");
    var memory := StatusText.When(s.memory.None?, "Memory metric is unavailable");
    var collection := StatusText.When(s.collectionError != "", "Collection error: " + s.collectionError);
    var submission := StatusText.When(s.submissionError != "", "Remote submission error: " + s.submissionError);
    StatusText.JoinedPair(s.cpu.None?, "CPU metric is unavailable", s.memory.None?, "Memory metric is unavailable");
    StatusText.JoinedPair(
      s.collectionError != "", "Collection error: " + s.collectionError,
      s.submissionError != "", "Remote submission error: " + s.submissionError);
    StatusText.JoinedPairs(cpu, memory, collection, submission);
  }

  // ----- protobuf as a parameter -----

  /** `SerializeToString` may fail and gives none; so may `ParseFromArray`. */
  datatype Codec<!M> = Codec(serialize: M -> Option<seq<Byte>>, parse: seq<Byte> -> Option<M>)

  datatype Wire = Wire(requests: Codec<SnapshotRequest>, responses: Codec<SnapshotResponse>)

  ghost predicate Faithful<M(!new)>(c: Codec<M>) {
    forall m :: c.serialize(m).Some? ==> c.parse(c.serialize(m).value) == Some(m)
  }

  const REQUEST := SnapshotRequest(PROTOCOL_VERSION)

  /** What is asked of protobuf: parsing undoes serializing, and the version-1 request serializes
      to a payload that fits a frame. */
  ghost predicate Lawful(w: Wire) {
    && Faithful(w.requests) && Faithful(w.responses)
    && w.requests.serialize(REQUEST).Some? && Framing.Legal(w.requests.serialize(REQUEST).value)
  }

  /** The payload of every request the Desktop sends. */
  function RequestPayload(w: Wire): seq<Byte> {
    match w.requests.serialize(REQUEST)
    case Some(p) => p
    case None => []
  }

  /** The payload of the reply about a stored snapshot; none when it cannot be sent, because it
      does not serialize or does not fit a frame. */
  function ReplyPayload(w: Wire, stored: Option<LatestSnapshot>): (p: Option<seq<Byte>>)
    ensures p.Some? ==> Framing.Legal(p.value)
  {
    match w.responses.serialize(ResponseFor(stored))
    case Some(p) => if Framing.Legal(p) then Some(p) else None
    case None => None
  }

  /** A reply is sent exactly if it serializes to a payload that fits a frame, and then as that. */
  lemma SentExactlyIfItFits(w: Wire, stored: Option<LatestSnapshot>, payload: seq<Byte>)
    ensures ReplyPayload(w, stored) == Some(payload) <==>
      w.responses.serialize(ResponseFor(stored)) == Some(payload) && Framing.Legal(payload)
    ensures ReplyPayload(w, stored).None? <==>
      forall p :: w.responses.serialize(ResponseFor(stored)) == Some(p) ==> !Framing.Legal(p)
  {
    hide ResponseFor;
  }

  // ----- a small wire that meets the hypotheses -----

  function StateCode(s: AgentState): Byte {
    match s
    case Unspecified => 0
    case Starting => 1
    case Running => 2
    case Degraded => 3
    case Unrecognized(_) => 4
  }

  predicate Plain(text: string) {
    forall i :: 0 <= i < |text| ==> text[i] as int < 0x100
  }

  predicate Small(r: SnapshotResponse) {
    && r.protocolVersion == PROTOCOL_VERSION && !r.agentState.Unrecognized? && Plain(r.statusMessage)
    && (r.snapshot.Some? ==>
          var s := r.snapshot.value;
          0 <= s.collectedAtUnixMs < 0x100 && s.cpu.None? && s.memory.Some?
          && s.memory.value.totalBytes < 0x100 && s.memory.value.availableBytes < 0x100)
  }

  function SmallSerialize(r: SnapshotResponse): Option<seq<Byte>> {
    if !Small(r) then None
    else
      var text: seq<Byte> := seq(|r.statusMessage|, i requires 0 <= i < |r.statusMessage| => r.statusMessage[i] as int);
      var head: seq<Byte> := match r.snapshot
        case None => [StateCode(r.agentState)]
        case Some(s) => [StateCode(r.agentState) + 0x10, s.collectedAtUnixMs,
                         s.memory.value.totalBytes, s.memory.value.availableBytes];
      Some(head + text)
  }

  function SmallParse(b: seq<Byte>): Option<SnapshotResponse> {
    if b == [] || b[0] % 0x10 > 3 then None
    else
      var state := [Unspecified, Starting, Running, Degraded][b[0] % 0x10];
      if b[0] < 0x10 then
        Some(SnapshotResponse(PROTOCOL_VERSION, state, None, Text(b[1..])))
      else if |b| < 4 then None
      else
        Some(SnapshotResponse(PROTOCOL_VERSION, state,
          Some(MetricSnapshot(b[1], None, Some(MemoryMetric(b[2], b[3])))), Text(b[4..])))
  }

  function Text(b: seq<Byte>): string {
    seq(|b|, i requires 0 <= i < |b| => b[i] as char)
  }

  function SmallWire(): Wire {
    Wire(
      Codec(
        (m: SnapshotRequest) => if m.protocolVersion < 0x100 then Some([m.protocolVersion as Byte]) else None,
        (b: seq<Byte>) => if |b| == 1 then Some(SnapshotRequest(b[0])) else None),
      Codec(SmallSerialize, SmallParse))
  }

  /** The hypotheses on protobuf can be met. */
  lemma SmallWireIsLawful()
    ensures Lawful(SmallWire())
  {
    forall m | SmallSerialize(m).Some? ensures SmallParse(SmallSerialize(m).value) == Some(m) {
      SmallRoundTrip(m);
    }
  }

  /** What a cycle publishes first that could not read the system times. */
  const SMALL_SNAPSHOT := LatestSnapshot(7, None, Some(MemoryMetric(9, 4)), "CPU metric collection failed", "")

  /** They can be met by a wire that carries replies with and without a snapshot. */
  lemma SmallWireCarriesNoSnapshot()
    ensures ReplyPayload(SmallWire(), None).Some?
  {
    hide Plain;
    TextsArePlain();
    assert Small(ResponseFor(None));
  }

  lemma SmallWireCarriesSnapshot()
    ensures ReplyPayload(SmallWire(), Some(SMALL_SNAPSHOT)).Some?
  {
    hide Plain, StatusText.NoneEmpty, StatusText.Joined;
    var (missing, failed) := ("CPU metric is unavailable", "Collection error: " + SMALL_SNAPSHOT.collectionError);
    TextsArePlain();
    ErrorTextsArePlain();
    assert Complaints(SMALL_SNAPSHOT) == [missing, failed];
    TwoJoined(missing, failed);
    PlainTogether("Collection error: ", SMALL_SNAPSHOT.collectionError);
    PlainTogether(missing, StatusText.SEPARATOR);
    PlainTogether(missing + StatusText.SEPARATOR, failed);
    assert Small(ResponseFor(Some(SMALL_SNAPSHOT)));
  }

  lemma TwoJoined(a: string, b: string)
    ensures StatusText.Joined([a, b]) == a + StatusText.SEPARATOR + b
  {
    assert [a, b][1..] == [b];
  }

  lemma PlainTogether(a: string, b: string)
    requires Plain(a) && Plain(b)
    ensures Plain(a + b)
  {
  }

  lemma TextsArePlain()
    ensures Plain("CPU metric is unavailable") && Plain("Waiting for the first metric snapshot")
  {
  }

  lemma ErrorTextsArePlain()
    ensures Plain("Collection error: ") && Plain("CPU metric collection failed") && Plain(StatusText.SEPARATOR)
  {
  }

  lemma SmallRoundTrip(r: SnapshotResponse)
    requires Small(r)
    ensures SmallParse(SmallSerialize(r).value) == Some(r)
  {
    var b := SmallSerialize(r).value;
    if r.snapshot.None? {
      assert Text(b[1..]) == r.statusMessage;
    } else {
      assert Text(b[4..]) == r.statusMessage;
    }
  }
}
