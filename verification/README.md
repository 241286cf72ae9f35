# AI PC Guardian: a verified model of the local Agent protocol and the telemetry cycle

This project models the working core of AI PC Guardian in Dafny and proves properties of it that
span its programs. On one machine an Agent collects CPU and memory metrics, submits them to a
telemetry service and keeps the latest snapshot; a Desktop window reads that snapshot over a local
pipe. Each component is one module:

| module | models |
|---|---|
| `Framing`, `StreamReceiver` | the length-prefixed frame code, and the receive loop that server and client both run, against one pure stream decoder |
| `LocalAgentMessages`, `StatusText` | the two protocol messages: how the Agent fills a reply, how the Desktop reads it |
| `IpcServer`, `StopFlag`, `ReplyStream` | the pipe server's worker under its one stop flag, with partial and failed writes and one client after another, and what it puts on the reply pipe |
| `ClientState`, `LocalAgentClient`, `Reconnect` | the Desktop's client: its handlers as functions and as a class, and the reconnect logic under every order of events |
| `ViewModel`, `StateReports` | the window's state beside the client, and what an observer of the connection state is told |
| `Protocol`, `ProtocolRuns` | Agent and Desktop as one system of small steps over two byte streams |
| `Composition`, `ServerInProtocol` | the client's handlers, the window and the server's loops refine those steps; the end-to-end theorems |
| `SnapshotStore` | the locked store and its linearizability |
| `Rounding`, `CpuUsage`, `TelemetryModel`, `Telemetry`, `TelemetryRunner` | arithmetic of doubles, the collectors, events and their conversions, submission, the cycle and its loop |

The classes follow the program's objects: their methods update the same members in the same order,
and their contracts equate the new state with a function of the old one. The main theorems are about
these functions, for all inputs, all runs and all interleavings.

What the operating system, the clock, the network, the sockets and the stop flag do is given by
parameters and scripts over which every statement quantifies: reads of any size up to 4096 bytes,
partial and failed writes, losses told early or late, timers, clicks. Protobuf is a parameter
(`Wire`): parsing undoes serializing, and the version-1 request serializes to a payload that fits a
frame; a reply may fail to serialize or be too long, and then the connection closes, as in the code.
`SmallWire` meets the hypotheses. The pipe is the only way to the server, and its one instance is
used by this client.

## What the code does not do

Four things one might expect of the code hold only in part. Each has an exact statement:

- After a refused frame the server's buffer depends on how the bytes were cut: a refused request and
  one byte more, read together or apart, leave different buffers (`IpcServer.ClosedBufferDependsOnCut`).
  Where the bytes close the connection at byte n, the buffers agree if and only if the first read
  boundaries at or after n do (`StreamReceiver.BuffersAgreeExactlyWhen`); outputs, verdict and the
  buffer of an open connection never depend on the cut (`StreamReceiver.ChunkingIndependence`).
- A buffer left waiting need not start a legal frame: three zero bytes do not
  (`Framing.ThreeZeroBytesWait`). Three header bytes that rule out every legal length are the only
  such buffers (`Framing.IncompleteMeansFramePrefix`).
- An error told of a connection that stays up silences polling for the rest of that connection
  (`Reconnect.ErrorSilencesPolling`); nothing else does while the connection stays reported as up
  (`Reconnect.PollingEndsWithAnError`).
- A disconnection told after the socket has moved on would start a second reconnect; it is safe if
  and only if the socket is still unconnected (`Reconnect.LateDisconnectIsUnsafe`). The runs modelled
  tell it in that state only.

`docs/tasks/IPC-001.md:195-196` asks for waits of 0.5, 1, 2 and 5 s and a single attempt; the code
meets this in every run (`Reconnect.EveryRunBacksOff`, `Reconnect.SingleAttempt`).

## Model

| member | source | states |
|---|---|---|
| Framing.EncodeFrame | ipc/src/framing.cpp:14-35 | A payload gets a frame exactly when it has 1 to 2^20 bytes: its length in four bytes, the lowest first, then itself; the frame decodes to the payload, whatever bytes follow it |
| Framing.TryDecodeFrame | ipc/src/framing.cpp:38-74 | A complete verdict means the buffer starts with the frame of a legal payload and names its exact length; a buffer left waiting is shorter than the longest frame |
| Framing.DecodeOfFrame | ipc/src/framing.cpp:38-74 | A frame at the head of any longer buffer is recognised, with its own payload and length |
| Framing.VerdictStable | ipc/src/framing.cpp:56-73 | Complete and invalid-length verdicts never change when bytes are appended |
| Framing.IncompleteMeansFramePrefix | ipc/src/framing.cpp:41-66 | A buffer starts some legal frame if and only if it is left waiting and is not three header bytes that already rule out every legal length (these are rejected only when the fourth arrives) |
| Framing.ThreeZeroBytesWait | ipc/src/framing.cpp:41-60 | Three zero bytes are such a buffer: they start no legal frame, are left waiting, and are rejected with whatever byte comes fourth |
| Framing.DecodeStreamSound | ipc/src/framing.cpp:38-74 | Decoding a byte stream accounts for every byte: it is the frames of the payloads found, then the rest |
| Framing.StreamRoundTrip | ipc/src/framing.cpp:14-74 | Decoding the frames of any list of legal payloads gives that list back, with exactly the undecodable bytes that followed left over |
| Framing.HeadOfPrefix | ipc/src/framing.cpp:38-74 | A first part of legal frames is never rejected, and what decodes at its head is the first payload |
| Framing.PrefixOfStream | ipc/src/framing.cpp:38-74 | A cut anywhere in a sequence of frames shows a prefix of the payloads and leaves a proper prefix of the next frame |
| Framing.UniqueParsing | ipc/src/framing.cpp:14-74 | One frame sequence is a prefix of another only if its payload list is; equal streams have equal payloads |
| StreamReceiver.Receive | agent/src/local_ipc_server.cpp:415-440 | A decoding pass over a buffer takes at most one fifth of its bytes in iterations, never grows it, and leaves no whole frame while the connection stays open |
| StreamReceiver.ReceiveAppend | agent/src/local_ipc_server.cpp:413-440 | One pass over two byte strings put together is a pass over the first, continued with the second |
| StreamReceiver.ReadsAreOneRead | agent/src/local_ipc_server.cpp:376-440 | Any sequence of reads comes to what a single read of all the bytes comes to, the unread rest included |
| StreamReceiver.ChunkingIndependence | agent/src/local_ipc_server.cpp:376-440 | However the same bytes are cut into reads, a connection puts out the same things, ends with the same verdict and holds, followed by what it never read, the same bytes; an open connection has read all |
| StreamReceiver.BuffersAgreeExactlyWhen | agent/src/local_ipc_server.cpp:376-440 | Where the bytes close the connection at byte n, two ways of reading them leave the same buffer if and only if their first read boundaries at or after n agree |
| StreamReceiver.ClosesSomewhere | agent/src/local_ipc_server.cpp:415-440 | A stream that closes its connection does so at one byte |
| IpcServer.ClosedBufferDependsOnCut | agent/src/local_ipc_server.cpp:232-240 | A refused version-9 request and one byte more, in one read or two: the server is left with that byte buffered or not |
| StreamReceiver.ReceiveRefinesDecoder | agent/src/local_ipc_server.cpp:415-440 | Both receive loops hand on the payloads of the pure stream decoder, in order, up to the first refusal; unrefused, they also agree on the rest and on a bad length |
| StreamReceiver.ReceiveAccountsForBytes | desktop/src/local_agent_client.cpp:151-229 | What a pass consumed is exactly the frames of the payloads handed on |
| StreamReceiver.ReceivePrefix | desktop/src/local_agent_client.cpp:154-228 | Shown any first part of the frames of acceptable payloads, a receiver stays open, has handled some first of them and holds the start of the others |
| StreamReceiver.OneFrame | agent/src/local_ipc_server.cpp:432-439 | Taking one frame and handling it, then going on, is one pass; a refusal ends it |
| StatusText.AppendJoins | agent/src/local_ipc_server.cpp:73-78 | Appending a message to a joined text joins one part more, with a separator between neighbours only |
| StatusText.JoinedGroups | agent/src/telemetry_runner.cpp:49-57 | Two groups joined separately and then put together read like one group |
| TelemetryModel.MemoryMetric.UsedBytes | common/src/telemetry_event.cpp:34-40 | Used bytes never exceed the total, make it up with the available bytes, and are 0 when these exceed it |
| LocalAgentMessages.Complaints | agent/src/local_ipc_server.cpp:92-119 | There is nothing to complain of exactly when both metrics are there and both error texts are empty |
| LocalAgentMessages.DescribeDegraded | agent/src/local_ipc_server.cpp:103-120 | The appended status message is the list of complaints, joined, in their order |
| LocalAgentMessages.StatusMessages | agent/src/local_ipc_server.cpp:80-121 | The status message told, word for word: that of an empty store, that of a complete snapshot without errors, or the missing metrics and then both stored error texts, each after its own label |
| LocalAgentMessages.AnyReplyIsRead | desktop/src/local_agent_client.cpp:192-227 | Of any reply, the Desktop takes the text and the snapshot as they are; every state but RUNNING and DEGRADED reads as starting |
| LocalAgentMessages.MakeResponse | agent/src/local_ipc_server.cpp:80-139 | Filling the message field by field yields the reply that the stored snapshot calls for, with no field left over |
| LocalAgentMessages.ReplyTellsTheStore | agent/src/local_ipc_server.cpp:80-139 | Make the reply, then read it as the client does: the Desktop is told the stored time and metrics, STARTING exactly for an empty store, RUNNING exactly for a complete snapshot without errors, and DEGRADED with the joined complaints |
| LocalAgentMessages.SentExactlyIfItFits | agent/src/local_ipc_server.cpp:141-161 | A reply is sent exactly if it serializes to a payload that fits a frame, and then as that payload |
| LocalAgentMessages.SmallWireIsLawful | agent/src/local_ipc_server.cpp:146-151 | The hypotheses made about protobuf can be met |
| IpcServer.WritesAreChecked | agent/src/local_ipc_server.cpp:163-214 | Every WriteFile call follows its own check that found the stop flag clear; all but the last made progress, so there are at most as many as bytes; a reply not sent is due to the flag, a failure or a zero write |
| IpcServer.PipeConnection.WriteAll | agent/src/local_ipc_server.cpp:163-214 | Over any outcomes, failures after some bytes included, the pipe takes a first part of the frame, nothing twice and nothing skipped, with each check a load of the one flag; success means all of it; every check but one that found the flag set was followed by a WriteFile call |
| IpcServer.ReplyIsWholeOrCut | agent/src/local_ipc_server.cpp:216-245 | A connection is kept only when one whole frame about the stored snapshot went out; otherwise a first part of it, or nothing |
| IpcServer.AnsweredOnHealthyPipe | agent/src/local_ipc_server.cpp:216-245 | On a healthy pipe exactly the readable version-1 requests with a sendable reply are answered, in full; any other closes the connection unanswered |
| IpcServer.PipeConnection.ProcessRequest | agent/src/local_ipc_server.cpp:216-245 | One request is parsed, checked, answered from the store and written; bytes sent and the keep flag are those of the handled request, and earlier output is kept |
| IpcServer.PipeConnection.TakeFrame | agent/src/local_ipc_server.cpp:432-439 | The loop body shrinks the buffer and moves the session on by exactly one payload; every byte read is in the frame of a payload handled or still buffered |
| IpcServer.PipeConnection.DrainBuffer | agent/src/local_ipc_server.cpp:415-440 | The inner loop is one pass of the receiver over the buffer; it ends |
| IpcServer.PipeConnection.AppendRead | agent/src/local_ipc_server.cpp:413 | The buffer at its fullest, right after a read is appended, stays below 4 + 2^20 + 4096 bytes |
| IpcServer.PipeConnection.TakeRead | agent/src/local_ipc_server.cpp:413-440 | What is read is appended and drained, which brings the session on by exactly that read |
| IpcServer.PipeConnection.Run | agent/src/local_ipc_server.cpp:376-441 | For any reads of at most 4096 bytes and any outcomes, the session is the one the pure receiver has on the reads taken; no load that found the flag clear is idle: the calls begun are one ReadFile per read taken, one more if the last failed or was empty, and the WriteFile calls of the requests; the loop ends by the verdict, the flag, or such a read; between reads the buffer is below 4 + 2^20 bytes |
| IpcServer.PipeServer.Run | agent/src/local_ipc_server.cpp:305-448 | The worker under its one stop flag, its loads fully accounted for: two for each of its n turns, one for each ReadFile and WriteFile call of a session, and those that ended it. Each client of these turns is served in turn, to the end of its session, and is sent what that session, started afresh, puts out; once the flag is set no blocking call is begun, only the one begun right after the last clear load can still be going on, and the worker ends within two loads |
| IpcServer.PipeServer.ServeClient | agent/src/local_ipc_server.cpp:373-444 | One client is served from an empty buffer, with every check a load of the shared flag |
| IpcServer.ConnectionsAreIsolated | agent/src/local_ipc_server.cpp:373-448 | What a client is sent depends on the bytes it sent itself and on what its requests met, not on cuts nor on any other connection |
| ReplyStream.ReplyStreamIntegrity | agent/src/local_ipc_server.cpp:163-245 | For any reads, partial writes, write errors, zero writes and stop flags, a connection sends whole frames, the i-th answering the i-th request from the store, then at most a first part of one more, after which it is closed |
| ReplyStream.SentIsFramesAndPrefix | agent/src/local_ipc_server.cpp:163-245 | Put in whole frames: the bytes are the frames of some first replies and at most one proper frame prefix, left by a closed connection only |
| ReplyStream.NoWriteAfterStop | agent/src/local_ipc_server.cpp:169-207 | Seen from one connection: if the flag is set from one check on, the request being answered makes only the calls already checked, at most one later request is taken up, and it sends nothing |
| StopFlag.NothingBeginsAfterStop | agent/src/local_ipc_server.cpp:169-207 | If every call was begun after its own check, in order, then once the flag is set none is begun, and only the last can have been begun right before |
| StopFlag.NoIdleLoad | agent/src/local_ipc_server.cpp:376-382 | If there were as many calls from some load on as loads that found the flag clear, each of these loads was followed by a call of its own |
| ReplyStream.SentIsPrefixOfReplies | agent/src/local_ipc_server.cpp:163-214 | All bytes sent are a first part of the frames of replies |
| LocalAgentClient.LocalAgentClient.SetConnectionState | desktop/src/local_agent_client.cpp:256-263 | A state is signalled exactly when it differs from the one reported |
| LocalAgentClient.LocalAgentClient.ScheduleReconnect | desktop/src/local_agent_client.cpp:240-254 | A stopped client or a waiting one is left alone; otherwise the next delay is started and the counter saturates |
| LocalAgentClient.LocalAgentClient.HandleDisconnected | desktop/src/local_agent_client.cpp:144-149 | The handler ends in the state of its specification, about which the reconnect properties are proved |
| LocalAgentClient.LocalAgentClient.HandleSocketError | desktop/src/local_agent_client.cpp:231-238 | Polling stops in any case; only in the unconnected state is a loss reported and a reconnect scheduled |
| LocalAgentClient.LocalAgentClient.AbortSocket | desktop/src/local_agent_client.cpp:89 | An abort leaves the socket unconnected, with the loss told during the call or still to be told |
| LocalAgentClient.LocalAgentClient.RequestSnapshot | desktop/src/local_agent_client.cpp:93-123 | Only a connected socket is written to; each failing step reports its own error, and only a short write aborts |
| LocalAgentClient.LocalAgentClient.HandleConnected | desktop/src/local_agent_client.cpp:135-142 | The connection is reset, reported, polled and asked for a snapshot, in that order |
| LocalAgentClient.LocalAgentClient.ConnectToAgent | desktop/src/local_agent_client.cpp:125-133 | Only a running client with an unconnected socket makes an attempt |
| LocalAgentClient.LocalAgentClient.ConnectSocket | desktop/src/local_agent_client.cpp:132 | The attempt may hang, come up or fail, during the call or later |
| LocalAgentClient.LocalAgentClient.Start | desktop/src/local_agent_client.cpp:74-82 | A second start changes nothing |
| LocalAgentClient.LocalAgentClient.Stop | desktop/src/local_agent_client.cpp:84-91 | Both timers are off, the buffer is empty, the socket is aborted and the state is reported last |
| LocalAgentClient.LocalAgentClient.HandleReply | desktop/src/local_agent_client.cpp:175-227 | One payload yields a snapshot, or one error and an abort |
| LocalAgentClient.LocalAgentClient.HandleReadyRead | desktop/src/local_agent_client.cpp:151-229 | The loop over the buffer is one pass of the pure receiver: it signals what that puts out, in order, and stops at the first refusal |
| ClientState.TakeOneReply | desktop/src/local_agent_client.cpp:171-227 | Taking one reply and going on is the whole pass; a refused one ends it |
| ClientState.FirstReplyDecides | desktop/src/local_agent_client.cpp:175-228 | A reply is signalled as a snapshot if and only if it parses and is of version 1, and then as what it says; any other is reported as corrupt or of a wrong version and the socket ends unconnected |
| ClientState.PassDecides | desktop/src/local_agent_client.cpp:151-229 | A pass over the buffer leaves the connection as it was and the incomplete rest buffered, or else the socket unconnected, with a bad frame length reported as that; it signals exactly the snapshots of its replies |
| Reconnect.EveryRunIsSafe | desktop/src/local_agent_client.cpp:74-263 | In every run: running and unconnected with nothing left to be told means a reconnect is due; one is due only then; polling only when reported connected; a stopped client is at rest; the delay index stays in range |
| Reconnect.StepPolling | desktop/src/local_agent_client.cpp:135-142 | A connection just reported is polled; on one that stays reported no event but an error changes that |
| Reconnect.PollingEndsWithAnError | desktop/src/local_agent_client.cpp:231-238 | Over any stretch of events in which the connection stays reported, polling goes on if and only if it was on and no error was told |
| Reconnect.StepKeepsInv | desktop/src/local_agent_client.cpp:74-263 | Every call, timer, socket change and notification, in any order, keeps the reconnect, state, polling, stop and backoff invariants |
| Reconnect.AskingSendsOneRequest | desktop/src/local_agent_client.cpp:93-142 | On a connected socket that takes it, a new connection, a poll and a call each send the version-1 request in one frame, and nothing else |
| Reconnect.StartBeginsAnew | desktop/src/local_agent_client.cpp:74-82 | In every run a start makes one attempt and begins a new series of waits: none yet, or the least one if the attempt failed at once |
| Reconnect.ReconnectHappens | desktop/src/local_agent_client.cpp:57-61 | A reconnect that is called for can fire, and firing it makes the attempt |
| Reconnect.SingleAttempt | desktop/src/local_agent_client.cpp:125-133 | No event makes more than one attempt, and only on an unconnected socket |
| Reconnect.StoppedStaysStopped | desktop/src/local_agent_client.cpp:84-91 | After a stop, whatever happens but a start, both timers stay off, the buffer empty and the state disconnected |
| Reconnect.OneLossOneWait | desktop/src/local_agent_client.cpp:144-149 | An error and a disconnection told of one loss, in either order, start one wait and advance the counter once |
| Reconnect.LateDisconnectIsUnsafe | desktop/src/local_agent_client.cpp:144-149 | Being told of a disconnection is safe if and only if the socket is still unconnected: told later, it starts a second reconnect |
| Reconnect.ErrorSilencesPolling | desktop/src/local_agent_client.cpp:231-238 | An error told of a connection that stays up ends polling on it, and nothing is scheduled to resume it |
| Reconnect.EveryRunBacksOff | desktop/src/local_agent_client.cpp:240-254 | Since the last reset the k-th wait is 500, 1000, 2000, then always 5000 ms; a connection reported as up is a reset; a reconnect that is due waits for the last of them; n waits (n at least 3) take 3500 + 5000 (n - 3) ms |
| StateReports.EveryChangeIsToldOnce | desktop/src/local_agent_client.cpp:256-263 | Over a whole run an observer of the connection state is told every change once: no report repeats the one before, and the last is the current state |
| ViewModel.SystemMetricsViewModel.Refresh | desktop/src/system_metrics_view_model.cpp:92-101 | A refresh asks exactly when the Agent is available and none is going on |
| ViewModel.SystemMetricsViewModel.OnSnapshot | desktop/src/system_metrics_view_model.cpp:103-165 | The slot ends in the state of its specification, about which the window properties are proved; without a snapshot only the refresh ends and the stale mark becomes "has data" |
| ViewModel.SystemMetricsViewModel.OnConnectionState | desktop/src/system_metrics_view_model.cpp:167-191 | Likewise for the connection state |
| ViewModel.SystemMetricsViewModel.OnProtocolError | desktop/src/system_metrics_view_model.cpp:39-47 | An error ends a refresh and changes nothing else modelled |
| ViewModel.ShownMemoryIsAShare | desktop/src/system_metrics_view_model.cpp:130-137 | For any metric received, the memory percentage shown, rounded as in the code, is between 0 and 100, and used does not exceed total |
| ViewModel.ShownMemoryIsAccurate | desktop/src/system_metrics_view_model.cpp:131-137 | Both GiB figures are off by one rounding at most, 2^-53, and the percentage by at most 5 * 2^-53 |
| ViewModel.WindowShowsTheStore | desktop/src/system_metrics_view_model.cpp:103-165 | Store to window: the figures are those stored up to that rounding, a missing metric leaves the old one, and the stale mark is set exactly for undated data or data older than 15 s |
| ViewModel.EmptyReplyKeepsFigures | desktop/src/system_metrics_view_model.cpp:103-114 | A reply without a snapshot, as an empty store sends, ends the refresh, keeps every figure and marks as stale what was ever shown |
| ViewModel.OnlyDataChangesMetrics | desktop/src/system_metrics_view_model.cpp:167-191 | No step of the window but data from the Agent changes the figures shown: losses, errors, stops, timers and clicks keep them |
| ViewModel.EventAgrees | desktop/src/system_metrics_view_model.cpp:167-191 | Every event of the client leaves the window in step with it: availability follows the reported state, and no refresh is left with nothing to wait for |
| ViewModel.EveryRunAgrees | desktop/src/system_metrics_view_model.cpp:39-191 | So does every run with clicks and any clock; while disconnected, no refresh is shown and the stale mark equals "has data" |
| ViewModel.MetricsNeedSnapshots | desktop/src/system_metrics_view_model.cpp:167-191 | Signals without a snapshot, a disconnection among them, never change the metrics shown |
| Protocol.StepKeepsInv | agent/src/local_ipc_server.cpp:376-444 | Every step of client, pipes, server and store keeps: replies match requests in order, each is made from one store value not older than its request, deliveries say what the replies say, and the bytes on either stream are exactly the frames outstanding |
| Protocol.NextRequest | agent/src/local_ipc_server.cpp:416-439 | The next frame the server decodes is always a good request of this connection |
| Protocol.NextReplies | desktop/src/local_agent_client.cpp:151-229 | What the client takes off its buffer are the next replies due, each one good |
| ProtocolRuns.DeliveriesAnswerRequests | desktop/src/local_agent_client.cpp:93-229 | In every run, on every connection, the i-th snapshot delivered is the decoded reply about the store value of one version, not older than the i-th request and not newer than the delivery; no byte of an earlier connection takes part |
| ProtocolRuns.NoProtocolFaults | agent/src/local_ipc_server.cpp:222-240 | No receiver ever meets a bad length, an unreadable message or a wrong version |
| ProtocolRuns.DeliveriesNeverGoBack | desktop/src/local_agent_client.cpp:135-142 | The store versions delivered never decrease, across reconnects too |
| ProtocolRuns.RequestsAreConserved | agent/src/local_ipc_server.cpp:416-440 | While both ends are up, requests written = snapshots delivered + requests in pipe and server buffer + replies being written, in pipe and client buffer, counted in the bytes with nothing left over |
| ProtocolRuns.EveryScheduleAnswers | agent/src/local_ipc_server.cpp:376-440 | Progress under every schedule: any run of reads, handlings and writes on a live connection whose store value can be sent is bounded by what was left to do, and where it comes to an end every request is answered |
| ProtocolRuns.IdleExactlyIfNoMove | agent/src/local_ipc_server.cpp:416-430 | Such a connection has no move left if and only if nothing is on either pipe, being written or decodable |
| ProtocolRuns.RequestsCanBeAnswered | agent/src/local_ipc_server.cpp:376-440 | There is such a run: reading, handling and writing alone answer every request |
| ServerInProtocol.WritesAreSteps | agent/src/local_ipc_server.cpp:163-214 | The write loop, with any outcomes, is a run of write steps that moves the same bytes |
| ServerInProtocol.FrameIsSteps | agent/src/local_ipc_server.cpp:432-439 | Processing the next frame as the server does is a run of protocol steps: same bytes sent, same buffer left, connection kept or closed alike |
| ServerInProtocol.ReadIsSteps | agent/src/local_ipc_server.cpp:379-440 | One turn of the receive loop, from any reachable state, is a run of protocol steps |
| ServerInProtocol.SessionIsSteps | agent/src/local_ipc_server.cpp:376-441 | A whole session, with any steps of the client before each read and snapshots published between requests, is carried out by turns of protocol steps: they leave what the session leaves and close exactly if it does; what the client took and what is on the reply pipe are together what the session put out while the client was there |
| ServerInProtocol.ConnectionIsSteps | agent/src/local_ipc_server.cpp:376-441 | So is what the receive loop records of a connection, from a connection just made |
| ServerInProtocol.AllReaches | agent/src/local_ipc_server.cpp:432-439 | While the client is there, all that a session puts out reaches the reply pipe |
| ServerInProtocol.EveryGoodRequestIsAnswered | agent/src/local_ipc_server.cpp:376-441 | On a healthy pipe with a sendable store, every request that arrives, in any cut, is answered: the session stays open, its buffer ends empty and all replies have gone out, in order |
| ServerInProtocol.AnyClientUnderstands | desktop/src/local_agent_client.cpp:164-190 | The bytes of any server session, in any cut and cut off anywhere, leave a client open and tell it, in order, what the store held for its requests |
| Composition.EventMatches | desktop/src/local_agent_client.cpp:74-263 | Each event of the client's own handlers is a run of protocol steps: same bytes written, same buffer, same snapshots signalled, connection up on both sides or neither |
| Composition.EveryTellingIsTrue | desktop/src/local_agent_client.cpp:192-227 | End to end, in every run of the client's handlers, the window, both streams, the server and the store: each snapshot signalled is what the store held at some version, and versions never go back |
| Composition.NoBadReplyIsReported | desktop/src/local_agent_client.cpp:164-190 | In such a run the client reports no error but a failed write of its own |
| Composition.NoStuckRefresh | desktop/src/system_metrics_view_model.cpp:39-191 | In such a run a refresh is shown only while a connection is being made, the connection has a request written and not answered, the socket is closing, or its loss is still to be told |
| Composition.EveryFigureIsCollected | agent/src/telemetry_runner.cpp:59-76 | With a store filled by the telemetry cycle, every snapshot told has the time of one cycle; its CPU usage is there exactly if that cycle could measure it and is within relative error 5 * 2^-53 of the exact usage between its two readings; its memory figures are those that cycle read; all are valid |
| Composition.EveryRefreshCanEnd | desktop/src/system_metrics_view_model.cpp:92-104 | From every point of every such run with a live connection and a sendable store value, reading, handling and writing alone answer every request and end the refresh |
| Composition.AnySnapshotIsTold | desktop/src/local_agent_client.cpp:192-227 | For every snapshot whose reply can be sent there is a run in which the window is told it |
| Composition.SomeFigureIsTold | agent/src/telemetry_runner.cpp:98 | A concrete run: what a cycle publishes that could not read the system times reaches the window, over a wire that meets the hypotheses |
| Composition.SomeRefreshEnds | desktop/src/local_agent_client.cpp:74-142 | A concrete run: a start that connects at once shows a refresh on a live connection, and it ends |
| SnapshotStore.LatestSnapshotStore.Update | agent/src/latest_snapshot_store.cpp:7-10 | An update adds to what was published and becomes the current snapshot |
| SnapshotStore.LatestSnapshotStore.Get | agent/src/latest_snapshot_store.cpp:12-16 | A read finds the snapshot published last, or none |
| SnapshotStore.EveryHistoryIsAtomic | agent/src/latest_snapshot_store.cpp:7-16 | For any threads and any interleaving of member-by-member copies under the mutex, the calls are those of an atomic register, each taking effect once, between its invocation and its return; an update stores its own argument, a get reads |
| SnapshotStore.RealTimeOrder | agent/src/latest_snapshot_store.cpp:7-16 | A call that returned before another began took effect first |
| SnapshotStore.ReadsAreWhole | agent/src/latest_snapshot_store.cpp:12-16 | A read returns none, or exactly one stored snapshot, the newest at a point inside the call; never a mixture |
| Telemetry.ToProto | proto/src/telemetry_conversion.cpp:26-44 | A message exists exactly for a valid event and converts back to it |
| Telemetry.ConversionsAreInverse | proto/src/telemetry_conversion.cpp:26-86 | A message is read as an event if and only if the event is valid and the message is the one made of it |
| Telemetry.SubmitTelemetry | server/src/telemetry_service.cpp:7-34 | The service accepts exactly the messages that are events and echoes their id; otherwise the response is untouched |
| Telemetry.ResultOf | agent/src/telemetry_client.cpp:26-37 | A submission is accepted exactly on an OK status with an id, and exactly then without an error text; the message of a failed call is passed on |
| Telemetry.SubmitToService | agent/src/telemetry_client.cpp:11-38 | Client and service, with a response object between them, do what the submission function says of a faithful channel |
| Telemetry.FaithfulSubmission | server/src/telemetry_service.cpp:19-33 | Over a faithful channel exactly the valid events are accepted, under their own id |
| Rounding.RoundBounds | agent/src/windows/system_metrics_collector.cpp:66-68 | Rounding to nearest, ties to even, on 53 bits has relative error at most 2^-53 and does not cross 1 |
| Rounding.RoundMonotone | agent/src/windows/system_metrics_collector.cpp:66-68 | It is monotone |
| Rounding.ScalingIsExact | desktop/src/system_metrics_view_model.cpp:132-134 | Dividing a double by 2^30 is exact |
| CpuUsage.FileTime | agent/src/windows/system_metrics_collector.cpp:19-22 | The two halves of a FILETIME are the high and the low word of the counter |
| CpuUsage.NoWrapAround | agent/src/windows/system_metrics_collector.cpp:51-65 | Behind the guards no unsigned subtraction or addition wraps around |
| CpuUsage.CpuMetricIsExact | agent/src/windows/system_metrics_collector.cpp:42-76 | A metric exists if and only if the counters have not gone back, their total is positive and fits 64 bits and idle time is part of it; it is then valid and within relative error 5 * 2^-53 of the exact percentage |
| CpuUsage.UsageInRange | agent/src/windows/system_metrics_collector.cpp:70-73 | The rounded percentage lies in [0, 100], so the last guard never rejects |
| CpuUsage.UsageIsAccurate | agent/src/windows/system_metrics_collector.cpp:66-68 | Two conversions, a division and a multiplication cost less than 5 * 2^-53 |
| CpuUsage.ExtremesAreExact | agent/src/windows/system_metrics_collector.cpp:66-68 | No busy time shows as exactly 0, all busy time as exactly 100 |
| CpuUsage.UsageIsMonotone | agent/src/windows/system_metrics_collector.cpp:66-68 | More busy time of the same total never shows as less |
| CpuUsage.CollectCpuMetric | agent/src/windows/system_metrics_collector.cpp:78-97 | A metric is collected exactly from a positive interval and two readings that are measurable; it is valid and within relative error 5 * 2^-53 of the exact usage between them |
| CpuUsage.CollectMemoryMetric | agent/src/windows/system_metrics_collector.cpp:99-118 | A metric is collected exactly from a readable status with a positive total not below what is available; it is that status, and valid |
| CpuUsage.IntervalsAddUp | agent/src/windows/system_metrics_collector.cpp:51-61 | Over adjacent measurable samples totals and busy times add up; the whole span is measurable if and only if the sum fits 64 bits |
| CpuUsage.SpanLiesBetween | agent/src/windows/system_metrics_collector.cpp:51-68 | The exact usage of a span, the weighted mean of its intervals, lies between the least and the greatest of them |
| TelemetryRunner.TelemetryRunner.Run | agent/src/telemetry_runner.cpp:155-184 | A run ends only with the flag seen set, and no check is idle: they are numbered through as those before the cycles, after them, and of the slices. It publishes two snapshots and sends the messages of each cycle and nothing else; every completed turn slept exactly the interval; once the flag is set nothing is begun and at most two checks are made |
| TelemetryRunner.TelemetryRunner.Create | agent/src/telemetry_runner.cpp:14-44 | A runner is made exactly when intervals and timeout are positive, sampling fits into collecting and there is a device id; otherwise the text is that of the first failing check |
| TelemetryRunner.TelemetryRunner.SubmitOne | agent/src/telemetry_runner.cpp:112-122 | One failed submission adds its text to both error texts, an accepted one to neither |
| TelemetryRunner.TelemetryRunner.Collect | agent/src/telemetry_runner.cpp:59-96 | After collecting, the snapshot and the result carry the joined collection errors |
| TelemetryRunner.TelemetryRunner.RunOnce | agent/src/telemetry_runner.cpp:46-153 | A cycle publishes exactly two snapshots, before and after the submissions, returns the result built by appending, and sends one message for each metric it collected, the CPU metric first |
| TelemetryRunner.CpuEventSends | agent/src/telemetry_runner.cpp:101-110 | What is sent for a CPU metric has the time of the cycle in its id and timestamp, the device id, no process id and the usage collected; the event is valid |
| TelemetryRunner.MemoryEventSends | agent/src/telemetry_runner.cpp:126-135 | Likewise for a memory metric, with the total and the available bytes collected |
| TelemetryRunner.CycleReports | agent/src/telemetry_runner.cpp:78-148 | A metric counts as submitted exactly if it was collected and the service accepted that message; each failed submission is told with the service answer and each missing metric under its own name |
| TelemetryRunner.TelemetryRunner.Sleep | agent/src/telemetry_runner.cpp:176-182 | The sliced sleep lasts exactly the interval unless the flag is set |
| TelemetryRunner.ErrorsFactor | agent/src/telemetry_runner.cpp:49-57 | The cycle's error text is the last snapshot's collection and submission errors, joined when both are there |
| TelemetryRunner.SuccessMeansRunning | agent/src/local_ipc_server.cpp:92-121 | It is empty if and only if both events were submitted, if and only if the Agent will report RUNNING |
| TelemetryRunner.EventsAreValid | agent/src/telemetry_runner.cpp:100-138 | Every event a cycle builds is valid, so submitting never fails locally |
| TelemetryRunner.FaithfulCycle | agent/src/telemetry_runner.cpp:100-150 | Over a faithful channel all that was collected is submitted, and only collection can fail |
| TelemetryRunner.MemoryIsIndependent | agent/src/telemetry_runner.cpp:125-148 | What becomes of the CPU metric has no bearing on the memory metric |
| TelemetryRunner.PublishTrace | agent/src/telemetry_runner.cpp:70-152 | Both snapshots of every cycle of a run carry its time, metrics and collection error; the first has no submission error, the second the cycle's |
| TelemetryRunner.EventIds | agent/src/telemetry_runner.cpp:101-127 | Two events share an id exactly when they are of one kind and one millisecond |
| TelemetryRunner.DecimalRoundTrip | agent/src/telemetry_runner.cpp:67-68 | The text of a timestamp reads as that number, with a sign exactly if it is negative |
| TelemetryRunner.SlicesAreBounded | agent/src/telemetry_runner.cpp:176-182 | No sleep is longer than 100 ms, and all but the last of a turn take exactly that |

## Left out

- Protobuf wire format: a codec parameter with the hypotheses above; unknown fields are not modelled.
- gRPC channels, deadlines and status codes: an outcome per call stands for them; of a status only "OK" and its message are kept.
- Win32 calls, the security descriptor and Qt signal delivery: steps of the environment.
- Clients other than the Desktop on the pipe: `IpcServer` and `ReplyStream` hold for any bytes a client sends, `Protocol` for this client.
- Unconditional termination of `IpcServer::stop`: the wake-up can come between the worker's check and its blocking call, so only the work after the flag is bounded.
- Wall-clock order of snapshots: the clock may go back; freshness is stated in store versions.
- Logging, QML, command lines and `main` functions; wording and time formatting of the window.
- Composition.NoBadReplyIsReported: rests, like all end-to-end results, on parsing undoing serializing for every status text that is sent. Protobuf refuses to parse a string that is not UTF-8, and the message of a failed call is passed on unchecked (agent/src/telemetry_client.cpp:26-31, agent/src/local_ipc_server.cpp:115-119): a service answering with such bytes would make the client report an unreadable reply and abort. Texts are strings of characters here, so this case is outside the hypotheses.
- Header bytes are computed with division and remainder where the code shifts and masks; the values are the same.
- Rounding.RoundBounds: double exponents are unbounded and signed zeros are one value: no number met in the CPU and memory figures overflows or underflows.
- Planned features of docs/tasks without code: device identity, ledger, analysis, queue.
- ViewModel.SystemMetricsViewModel.OnSnapshot: the status text and the time shown are not modelled.
- The length of the poll interval: a poll timer that is on may fire at any moment.
- IpcServer.PipeServer.Run: the flag, once set, stays set and is set at some load, so the worker ends, provided blocking calls return; loads that only choose a log line (agent/src/local_ipc_server.cpp:183-184 and 391-392) are not counted; the start and stop calls around the worker are not modelled.
- TelemetryRunner.TelemetryRunner.Run: the flag, once set, stays set and is set at some check, so the run ends.
- TelemetryRunner.TelemetryRunner.Create: an exception is modelled as an absent object and its text.
- Reconnect.EveryRunIsSafe: assumes that the socket tells of a connection only while it is still up, of a disconnection only while it is unconnected, and of data only on a connection told to be up.
- Composition.EventMatches: assumes that a connection comes up only when the pipe's one instance is free and that bytes read are bytes sent; connections count from the socket's coming up.
