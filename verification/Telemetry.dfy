/** Telemetry events on their way to the server: conversion to and from protobuf messages, the
    client's `submit` and the service's `SubmitTelemetry`. */
module Telemetry {
  import opened Prelude
  import opened TelemetryModel

  /** The `payload` oneof of the message, by the members this program knows. */
  datatype ProtoPayload =
    | NotSet
    | CpuSet(usagePercent: Double)
    | MemorySet(totalBytes: UInt64, availableBytes: UInt64)

  datatype ProtoEvent = ProtoEvent(
    eventId: string,
    timestampUnixMs: Int64,
    deviceId: string,
    processId: Option<UInt32>,
    payload: ProtoPayload)

  /** The message that carries an event. */
  function MessageOf(e: TelemetryEvent): ProtoEvent {
    var payload := match e.payload
      case Cpu(m) => CpuSet(m.usagePercent)
      case Memory(m) => MemorySet(m.totalBytes, m.availableBytes);
    ProtoEvent(e.id, e.timestamp, e.deviceId, e.processId, payload)
  }

  /** `to_proto`, which sets the fields of a fresh message one by one. */
  method ToProto(event: TelemetryEvent) returns (message: Option<ProtoEvent>)
    ensures message.Some? <==> IsValid(event)
    ensures message.Some? ==> message.value == MessageOf(event) && FromProto(message.value) == Some(event)
  {
    if !IsValid(event) {
      return None;
    }
    var m := ProtoEvent("", 0, "", None, NotSet);
    m := m.(eventId := event.id);
    m := m.(deviceId := event.deviceId);
    m := m.(timestampUnixMs := event.timestamp);
    if event.processId.Some? {
      m := m.(processId := Some(event.processId.value));
    }
    match event.payload {
      case Cpu(metric) => m := m.(payload := CpuSet(metric.usagePercent));
      case Memory(metric) => m := m.(payload := MemorySet(metric.totalBytes, metric.availableBytes));
    }
    message := Some(m);
  }

  function FromProto(m: ProtoEvent): Option<TelemetryEvent> {
    if m.payload.NotSet? then None
    else
      var payload := if m.payload.CpuSet? then Cpu(CpuMetric(m.payload.usagePercent))
                     else Memory(MemoryMetric(m.payload.totalBytes, m.payload.availableBytes));
      var event := TelemetryEvent(m.eventId, m.timestampUnixMs, m.deviceId, m.processId, payload);
      if IsValid(event) then Some(event) else None
  }

  /** The two conversions are inverse to each other between the valid events and the accepted
      messages, and no message but the event's own is read as it. */
  lemma ConversionsAreInverse(e: TelemetryEvent, m: ProtoEvent)
    ensures FromProto(m) == Some(e) <==> IsValid(e) && m == MessageOf(e)
  {
  }

  // ----- the service -----

  datatype Status = Status(ok: bool, message: string)

  /** The caller's response object. */
  class SubmitTelemetryResponse {
    var eventId: string

    constructor ()
      ensures eventId == ""
    {
      eventId := "";
    }
  }

  method SubmitTelemetry(request: Option<ProtoEvent>, response: SubmitTelemetryResponse?) returns (status: Status)
    modifies response
    ensures status.ok <==> request.Some? && response != null && FromProto(request.value).Some?
    ensures status.ok ==> response.eventId == request.value.eventId && response.eventId != ""
    ensures !status.ok && response != null ==> response.eventId == old(response.eventId)
    ensures !status.ok ==>
      status.message == (if request.None? || response == null then "Request and response must not be null"
                         else "Invalid telemetry event")
  {
    if request.None? || response == null {
      return Status(false, "Request and response must not be null");
    }
    var event := FromProto(request.value);
    if event.None? {
      return Status(false, "Invalid telemetry event");
    }
    response.eventId := event.value.id;
    status := Status(true, "");
  }

  // ----- the client -----

  /** What the RPC leaves behind: its status and the event id in the response. */
  datatype RpcOutcome = RpcOutcome(status: Status, eventId: string)

  datatype SubmitResult = SubmitResult(accepted: bool, eventId: string, errorMessage: string)

  /** The result that `submit` makes of an RPC outcome. */
  function ResultOf(o: RpcOutcome): (r: SubmitResult)
    ensures r.accepted <==> o.status.ok && o.eventId != ""
    ensures r.accepted <==> r.errorMessage == ""
    ensures r.eventId == if r.accepted then o.eventId else ""
    ensures !o.status.ok && o.status.message != "" ==> r.errorMessage == o.status.message
  {
    if !o.status.ok then
      SubmitResult(false, "", if o.status.message == "" then "Telemetry RPC failed" else o.status.message)
    else if o.eventId == "" then SubmitResult(false, "", "Server returned an empty event ID")
    else SubmitResult(true, o.eventId, "")
  }

  /** `rpc` is what the channel and the server behind it do with a message. */
  function Submit(event: TelemetryEvent, rpc: ProtoEvent -> RpcOutcome): SubmitResult {
    if !IsValid(event) then SubmitResult(false, "", "Invalid telemetry event")
    else ResultOf(rpc(MessageOf(event)))
  }

  /** A channel that delivers messages to the service and its answer back. */
  function ServiceOutcome(m: ProtoEvent): RpcOutcome {
    match FromProto(m)
    case None => RpcOutcome(Status(false, "Invalid telemetry event"), "")
    case Some(e) => RpcOutcome(Status(true, ""), e.id)
  }

  /** One submission through such a channel, with a response object as the RPC layer makes it. */
  method SubmitToService(event: TelemetryEvent) returns (r: SubmitResult)
    ensures r == Submit(event, ServiceOutcome)
  {
    var message := ToProto(event);
    if message.None? {
      return SubmitResult(false, "", "Invalid telemetry event");
    }
    var response := new SubmitTelemetryResponse();
    var status := SubmitTelemetry(message, response);
    if !status.ok {
      return SubmitResult(false, "", if status.message == "" then "Telemetry RPC failed" else status.message);
    }
    if response.eventId == "" {
      return SubmitResult(false, "", "Server returned an empty event ID");
    }
    r := SubmitResult(true, response.eventId, "");
  }

  /** Over a faithful channel exactly the valid events are accepted, under their own id. */
  lemma FaithfulSubmission(event: TelemetryEvent)
    ensures var r := Submit(event, ServiceOutcome);
      if IsValid(event) then r == SubmitResult(true, event.id, "")
      else r == SubmitResult(false, "", "Invalid telemetry event")
  {
    ConversionsAreInverse(event, MessageOf(event));
  }
}
