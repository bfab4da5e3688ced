# ReactorNet: a verified model

ReactorNet is a single-threaded-per-loop network library with an RPC layer on
top: an event loop, timers, buffered TCP connections and a connector below, and
framing, a binary envelope, JSON, a service registry, a server and a client
above. This project models that core in Dafny and proves what it is for.

How it is built:

- Each component has a model on values: functions and a state machine whose
  events are what the network, the kernel, the clock, other threads and user
  callbacks can do. The theorems are about every run of these machines.
- Each component that the source writes as an object with fields has a class.
  Its methods follow the source step by step, loops included, and each is proved
  to turn the object's abstract state into what the machine says.

The main results:

- **End to end** (`Session.EndToEnd`): a client and a server joined by two byte
  streams cut into any pieces, any calls in flight, any timeouts: a call answered
  from the wire gets what its own request is due from the methods registered: its
  handler's result, or which name is unknown (`Registry.DispatchIsDue`). When both
  streams have been delivered to the end, every call that was sent is completed
  (`SessionProgress.DeliveredMeansDone`), and late responses never hurt the
  connection (`SessionProgress.LateResponsesAreHarmless`).
- **JSON** (`JsonSound.ParserIsGrammar`, `JsonRoundTrip.RoundTrip`,
  `JsonRoundTrip.ParsedIsPrintable`): the parser accepts exactly a declarative
  grammar, reads back whatever the writer writes, and only yields printable values.
- **RPC client** (`ClientProofs.EveryCallInOnePlace`, `ClientProofs.IdsStayApart`):
  each call is completed exactly once through re-entrant completions, timeouts,
  faults and disconnects; request ids never collide; deadline timers are set
  exactly for pending calls that have one (`ClientDeadlines.DeadlinesFollowCalls`);
  a call the client ends itself learns the true reason (`ClientRules.CallersAreTold`).
- **RPC server** (`ServerStream.ServerIsStreamFunction`,
  `ServerStream.ChunkingIndependentIffRoomy`): the responses are a function of the
  input bytes alone, exactly for the input limits that leave room for a frame; which
  frames are refused, how, and when the connection closes follows from the header
  bytes (`ServerRules.ResponsesFollowRules`, `ServerRules.OpenIff`).
- **Timers** (`TimerTheorems.TimersAreOwned`, `TimerTheorems.NoMissedDeadline`,
  `TimerTheorems.CancelIsFinal`, `TimerRequests.TimersAsAsked`): ownership,
  deadlines, cancellation and going off when asked to, over every run, with a real
  binary heap underneath.
- **Transport** (`Connections.SendPathIsStream`, `Buffers.Run`), **event loop**
  (`LoopProtocol.NoLostTask`, `LoopProtocol.EnterIsSafeIff`) and **connector**
  (`Connecting.AttemptsConserved`).

Properties that turned out false of the code, with the exact condition:

- The server's answers depend on how reads are cut when the configured input
  limit is smaller than the largest frame: `ServerStream.ChunkingIndependentIffRoomy`.
- Which handlers run depends on how reads are cut when a request stands behind a
  frame that stops the loop, and only then:
  `ServerHandlers.HandlersIndependentIff`, `ServerHandlers.LateRequestRuns`.
- After 1025 timeouts the response to the first of those calls fails the whole
  connection; up to 1024 none does: `SessionEviction.EvictedIdIsFatal`,
  `SessionProgress.LateResponsesAreHarmless`.
- `shutdown()` can lose messages other threads have queued but the loop has not
  yet handled. On the loop thread, when the kernel and the peer do nothing wrong,
  it loses none exactly when no non-empty one is queued at the call; over all runs,
  hang-ups and kernel errors included, exactly when the output buffer is empty too
  (`Connections.ShutdownIsOrderlyIff`, `Connections.PostedMessageLost`). From
  another thread it loses none exactly when none is queued, or one is and nothing
  is being written (`Connections.PostedShutdownIsOrderlyIff`,
  `Connections.OwnMessageLost`).
- The end of input lets the buffer drain first, but loses messages that are still
  queued, and bytes a forced close overtakes: nothing is lost exactly when neither
  waits (`ConnectionLife.EofIsOrderlyIff`).
- SHUT_WR can overtake buffered bytes, exactly after a close:
  `Connections.ShutsUnwrittenIffClosed`, `Connections.ClosedThenShut`.
- A task queued on the loop thread before `loop()` is entered wakes nobody, so the
  first poll may sleep its whole timeout: `LoopProtocol.EnterIsSafeIff`,
  `LoopProtocol.PostBeforeLoopSleeps`.
- A `quit()` made before `loop()` is entered is forgotten; it ends the loop at the
  next test of the flag exactly when `loop()` is running at the call:
  `LoopProtocol.QuitLeavesIff`, `LoopProtocol.QuitBeforeLoopForgotten`.
- A connect deadline already taken into the timer batch survives `stop()` and fails
  the next attempt; `start()` is safe exactly when none is still to run:
  `Connecting.StartIsSafeIff`, `Connecting.StaleDeadlineFailsRetry`.
- Two different service/method pairs share a registry key when a service name
  contains a dot: `Registry.KeysCollide`, `Registry.DottedNamesAlias`.

Where the code and its documentation disagree, the model follows the code:

- A response with another serializer id fails the pending calls with
  CONNECTION_CLOSED (`rpc/src/rpc_client.cpp:360-384`); the comment in
  `rpc/include/rpc/rpc_client.h:103-107` says INTERNAL_ERROR.
- `rejectAndClose` answers with serializer id 0, not the request's
  (`rpc/src/rpc_server.cpp:142-149`).
- The server serves request id 0, which `docs/rfc/0001-rpc-protocol.md:85` makes
  illegal, and its loop goes on reading after a malformed envelope although the
  comment at `rpc/src/rpc_server.cpp:161-163` says the stream cannot continue.

Conventions: a `byte` is an integer below 256, and masks and shifts are written
as division and remainder. Doubles are a type parameter with a printing and a
reading function; `DoubleFormat.Lawful` is the assumption that reading inverts
printing. Handlers are deterministic functions that may fail. The iteration order
of a hash table is an arbitrary function. A completion, a posted functor or a
connect callback is the finite list of calls it makes. Time, the kernel's
answers and the network are inputs.

## Model

| member | source | states |
|---|---|---|
| Utf8.IsValidUtf8 | rpc/src/json_utf8.h:13-67 | The loop accepts exactly the byte strings made of the UTF8-char forms in section 4 of RFC 3629 |
| Utf8.OctetsAreEncodedScalars | rpc/src/json_utf8.h:13-67 | A byte string is valid exactly when it is the encoding of some sequence of Unicode scalar values |
| Utf8.RangeTests | rpc/src/json_utf8.h:24-63 | The length, overlong, surrogate and range tests on the gathered code point accept exactly the characters of RFC 3629 |
| Utf8.DecodeEncode | rpc/src/json_parser.cpp:31-47 | Every scalar value is encoded as one valid character that decodes back to it |
| Utf8.EncodeDecode | rpc/src/json_parser.cpp:31-47 | Every valid character decodes to a scalar value that encodes back to it |
| Utf8.SelfSynchronising | rpc/src/json_parser.cpp:279-309 | A whole character between two byte strings neither repairs nor breaks either of them |
| JsonGrammar.PairsAreSupplementaryScalars | rpc/src/json_parser.cpp:216-241 | Each scalar in U+10000..U+10FFFF is named by exactly one surrogate pair: its high ten bits, then its low ten |
| JsonGrammar.HexDigitsOfEitherCase | rpc/src/json_parser.cpp:199-214 | A byte has a hex value exactly when it is that digit in lower or upper case |
| JsonGrammar.EscapesOfJson | rpc/src/json_parser.cpp:243-277 | The short escapes are exactly the eight of RFC 8259, each with its byte |
| JsonGrammar.DeferredCheck | rpc/src/json_parser.cpp:279-309 | Validating the decoded string once accepts exactly when each raw run between escapes is valid by itself |
| JsonComplete.StringAcceptedIffRunsValid | rpc/src/json_parser.cpp:279-309 | A well-formed string literal is accepted, with its meaning and stopping right after it, exactly when every raw run is valid UTF-8 |
| JsonComplete.ReadNumberOf | rpc/src/json_parser.cpp:129-197 | A number token is read whole whatever legal text follows |
| JsonComplete.ParseValueOf | rpc/src/json_parser.cpp:89-127 | parseValue on the text of any well-formed tree within the depth bound yields its meaning and stops exactly at its end |
| JsonComplete.GrammarAccepted | rpc/src/json_parser.cpp:56-68 | Every text that spells a value within the bound is accepted with that value |
| JsonSound.ParseStringSound | rpc/src/json_parser.cpp:279-309 | What parseString accepts is a string literal of the grammar with that value |
| JsonSound.ReadNumberSound | rpc/src/json_parser.cpp:129-197 | What the number scan consumes is a number of the grammar |
| JsonSound.ParseValueSound | rpc/src/json_parser.cpp:89-127 | What parseValue consumes is the text of a well-formed tree within the depth bound with that meaning |
| JsonSound.ParserIsGrammar | rpc/src/json_parser.cpp:56-68 | The parser accepts a text with a value exactly when the text spells that value within the depth bound |
| JsonReader.Reader.SkipWhitespace | rpc/src/json_parser.cpp:71-79 | The cursor moves past the four whitespace bytes and no further, within bounds |
| JsonReader.Reader.Consume | rpc/src/json_parser.cpp:81-87 | Consumes the literal exactly when it is next |
| JsonReader.Reader.ParseNumber | rpc/src/json_parser.cpp:129-197 | Accepts what the grammar's number scan accepts, with the integer/double split and int64 overflow falling back to double |
| JsonReader.Reader.ReadHex4 | rpc/src/json_parser.cpp:199-214 | Reads exactly four hex digits of either case or fails |
| JsonReader.Reader.ParseUnicodeEscape | rpc/src/json_parser.cpp:216-241 | Appends the UTF-8 of the escape, pairing surrogates, and rejects lone ones |
| JsonReader.Reader.ParseEscape | rpc/src/json_parser.cpp:243-277 | Appends the decoded escape or fails on any other letter |
| JsonReader.Reader.ParseString | rpc/src/json_parser.cpp:279-309 | Refines the string scan: rejects raw control bytes and invalid UTF-8, leaves the cursor after the closing quote |
| JsonReader.Reader.ParseValue | rpc/src/json_parser.cpp:89-127 | Refines the recursive-descent specification from the cursor, always in bounds and consuming at least a byte on success |
| JsonReader.Reader.ParseArray | rpc/src/json_parser.cpp:311-348 | Elements in order, depth bound on entry, no trailing comma |
| JsonReader.Reader.ParseObject | rpc/src/json_parser.cpp:350-398 | Members in order with duplicates kept, depth bound on entry, no trailing comma |
| JsonReader.ParseText | rpc/src/json_parser.cpp:407-418 | Returns a value exactly when the whole text spells one, and then that value; None exactly when it spells none |
| JsonWriter.WriteString | rpc/src/json_writer.cpp:13-59 | Succeeds exactly on valid UTF-8, appending the canonical literal; writes nothing otherwise |
| JsonWriter.WriteNumber | rpc/src/json_writer.cpp:61-95 | Writes integers in decimal and finite doubles so that they read back as doubles; refuses the rest |
| JsonWriter.WriteValue | rpc/src/json_writer.cpp:97-153 | Succeeds exactly on printable values within the depth bound and appends the text of their canonical tree |
| JsonWriter.Write | rpc/src/json_writer.cpp:157-169 | On failure the caller's output is untouched; on success it is the written text |
| JsonWriting.CanonGood | rpc/src/json_writer.cpp:97-153 | The canonical tree of a printable value is well formed and means that value |
| JsonRoundTrip.RoundTrip | rpc/src/json_writer.cpp:97-169 | Whatever the writer accepts at a bound, the parser at that bound reads back as the same value: key order, duplicate keys and the integer/double split |
| JsonRoundTrip.LawfulFormatExists | rpc/src/json_writer.cpp:61-95 | The assumption on how doubles are printed and read can be met |
| JsonRoundTrip.WrittenInjective | rpc/include/rpc/json_value.h:154-176 | Two values with the same text are equal |
| JsonRoundTrip.ParsedIsPrintable | rpc/src/json_parser.cpp:56-398 | Every parsed value is within the bound, printable, and survives writing and parsing again |
| Protocol.HeaderRoundTrip | rpc/src/protocol.cpp:70-105 | An encoded header decodes to itself, whatever follows, exactly when its magic is right |
| Protocol.HeaderReencodes | rpc/src/protocol.cpp:70-105 | A decoded header encodes back to the same sixteen bytes but for the reserved byte |
| Protocol.EncodedLayout | rpc/src/protocol.cpp:44-81 | An encoded header is 0x52 0x4E, its single bytes in place, the reserved byte zero, and id and length in base 256, least significant byte first |
| Protocol.DecodedLayout | rpc/src/protocol.cpp:83-105 | Bytes decode to a header exactly when its fields stand in those places |
| Protocol.EnvelopeBijection | rpc/src/raw_codec.cpp:28-83 | A request encodes to a body exactly when that body decodes to that request |
| Protocol.EncodedEnvelope | rpc/src/raw_codec.cpp:28-83 | A body is the encoding of a request exactly when it is two-byte length, service, two-byte length, method and payload, names of 1 to 65535 bytes, within 16 MiB |
| Framing.FrameRoundTrip | rpc/src/frame_reader.cpp:15-56 | A sendable frame is read back whole, leaving exactly what followed |
| Framing.VerdictFromBytes | rpc/src/frame_reader.cpp:15-56 | The verdict told from the bytes: fewer than 16 need more; a wrong magic or a length beyond 16 MiB or the limit is an error; else the whole body is needed |
| Framing.CompleteIsSendable | rpc/src/frame_reader.cpp:15-56 | A frame is only reported if its encoding, but for the reserved byte, stood at the front and within the limits |
| Framing.VerdictStable | rpc/src/frame_reader.cpp:15-56 | A frame or a protocol error stays the verdict when more bytes arrive |
| Framing.NeedMoreIsShort | rpc/src/frame_reader.cpp:15-56 | While more is needed, what is buffered is below the frame limit |
| Framing.ChunkingIrrelevant | rpc/src/frame_reader.cpp:15-56 | Draining after every chunk gives the same frames, rest and error as draining the whole stream |
| Framing.FramesSurviveChunking | rpc/src/frame_reader.cpp:15-56 | Any sendable frames cut into any chunks come out as those frames with nothing left |
| RpcServers.FrameReader.SetMaxFrameSize | rpc/src/frame_reader.cpp:11-13 | The limit is never below the header size |
| RpcServers.FrameReader.Parse | rpc/src/frame_reader.cpp:15-56 | On the buffer: more or error consume nothing; a frame is returned with exactly its bytes consumed |
| Buffers.Buffer.constructor | src/Buffer.cpp:11-13 | An empty queue |
| Buffers.Buffer.Retrieve | src/Buffer.cpp:15-26 | Drops the front of the queue, all of it if asked for more |
| Buffers.Buffer.RetrieveAsString | src/Buffer.cpp:28-34 | Returns the front of the queue and keeps the rest |
| Buffers.Buffer.MakeSpace | src/Buffer.cpp:124-137 | Compacts or grows without changing the queue, and leaves the requested room |
| Buffers.Buffer.EnsureWritableBytes | src/Buffer.cpp:51-55 | Leaves the requested room without changing the queue |
| Buffers.Buffer.Append | src/Buffer.cpp:40-45 | Adds to the back of the queue |
| Buffers.Buffer.ReadCore | src/Buffer.cpp:60-88 | A scattered read with spill adds the bytes in order to the back of the queue |
| Buffers.Buffer.WriteCore | src/Buffer.cpp:91-100 | The bytes the kernel took, followed by the rest, are the old queue |
| Buffers.Buffer.FindCRLF | src/Buffer.cpp:118-122 | The first CRLF in the queue, or none |
| Buffers.Run | src/Buffer.cpp:15-137 | Any sequence of operations leaves what a plain byte queue would hold; a read delivers a prefix of what the socket has |
| Buffers.Do | src/Buffer.cpp:60-88 | One operation on the queue; a read takes as much as the writable region and the stack buffer hold |
| Registry.KeysCollide | rpc/src/service_registry.cpp:7-15 | Two pairs share a key exactly when they are equal or a dot shifts between service and method |
| Registry.UndottedServicesDoNotAlias | rpc/src/service_registry.cpp:7-15 | Keys are unique when service names contain no dot |
| Registry.DottedNamesAlias | rpc/src/service_registry.cpp:34-51 | A dotted service name lets another pair reach its handler |
| Registry.DispatchIsDue | rpc/src/service_registry.cpp:17-51 | After any registrations with undotted services a request gets 0x00 and what its own first handler returned, 0x09 and nothing if it threw, 0x08 if only its service is known, and 0x07 otherwise |
| Registry.RegistrationsHold | rpc/src/service_registry.cpp:17-32 | After any registrations with undotted services the tables hold exactly the first complete one of each pair |
| Registry.ServiceRegistry.RegisterMethod | rpc/src/service_registry.cpp:17-32 | Adds the method and service exactly when not frozen, names non-empty, a handler given and the key new; otherwise changes nothing |
| Registry.ServiceRegistry.Lookup | rpc/src/service_registry.cpp:34-51 | The answer of dispatch on the current tables, which Registry.DispatchIsDue states from the registrations |
| ServerStream.ServerIsStreamFunction | rpc/src/rpc_server.cpp:60-140 | The responses accepted and whether the connection stays open are a function of the concatenated input |
| ServerStream.AlwaysServedSoFar | rpc/src/rpc_server.cpp:60-140 | With any input limit what has been sent is a beginning of what the stream calls for, and all of it while the connection is open |
| ServerStream.ChunkingIndependentIffRoomy | rpc/src/rpc_server.cpp:69-84 | That holds exactly when the input limit leaves room for the largest frame |
| ServerStream.TightInputDependsOnChunking | rpc/src/rpc_server.cpp:69-84 | With a tighter limit the largest frame gets one response when it comes in one read, and none when it is cut before its last byte |
| ServerStream.DefaultInputIsRoomy | rpc/src/rpc_server.cpp:35-40 | The default input limit always leaves room |
| ServerStream.ResponsesAnswerRequests | rpc/src/rpc_server.cpp:60-218 | In every run, with any input limit and however the input is cut: one response per request in order, with its id; all but a closing one carry its serializer id; an oversized frame is answered last, with 0x05 |
| ServerStream.ClosedStaysClosed | rpc/src/rpc_server.cpp:142-149 | After closing, nothing more is sent whatever arrives |
| ServerRules.ResponsesFollowRules | rpc/src/rpc_server.cpp:105-218 | In every run the i-th response has status 0x01 exactly when the i-th frame's version is not 1, else 0x02 when its type is not 1, else 0x03 when it has flags, else 0x0D when its serializer differs, else 0x06 when no request encodes to its body; the first three and 0x06 come last, without payload, and leave the connection closed; a served request gets what the registrations make due |
| ServerRules.OpenIff | rpc/src/rpc_server.cpp:60-149 | With a roomy limit the connection is open after the input exactly when every frame is plain and answerable and none is unreadable; an unreadable part is answered exactly when it begins with the magic |
| ServerRules.OpenAfterRead | rpc/src/rpc_server.cpp:69-84 | With any limit the next read leaves the connection open exactly when moreover what is left over is within the configured limit |
| ServerRules.HandlersFollowRules | rpc/src/rpc_server.cpp:105-187 | In every run handlers are called exactly for the plain frames of the right serializer with a well-formed body among those read so far, in order |
| ServerRules.OneReadRuns | rpc/src/rpc_server.cpp:105-138 | In one read handlers are called for those before the first frame that is not plain |
| ServerHandlers.HandlersIndependentIff | rpc/src/rpc_server.cpp:60-187 | The handlers that run are the same for every way of cutting a stream exactly when no request that would be dispatched stands behind the first frame that stops the loop |
| ServerHandlers.LateRequestRuns | rpc/src/rpc_server.cpp:105-138 | A request behind such a frame: no handler runs when both come in one read, its handler runs when they come in two |
| RpcServers.RpcServer.SendResponse | rpc/src/rpc_server.cpp:189-218 | Sends the frame while connected, and closes instead when the payload is too large |
| RpcServers.RpcServer.RejectAndClose | rpc/src/rpc_server.cpp:142-149 | One terminal response with serializer 0, then closed |
| RpcServers.RpcServer.HandleRequest | rpc/src/rpc_server.cpp:156-187 | The reply of the stream function for this request |
| RpcServers.RpcServer.HandleFrame | rpc/src/rpc_server.cpp:105-138 | Sends, closes and stops the loop as the machine does with this frame, whose tests ServerRules.ResponsesFollowRules states from the header |
| RpcServers.RpcServer.OnMessage | rpc/src/rpc_server.cpp:60-140 | Consumes the buffer, sends and closes exactly as the stream function says, and calls handlers for exactly the requests of the handler log, in order |
| ClientSession.AllocateFindsFreeId | rpc/src/rpc_client.cpp:311-325 | Across 32-bit wrap-around, an id is found exactly when one is free |
| ClientProofs.StepConserves | rpc/src/rpc_client.cpp:156-384 | Every event keeps each started call in exactly one place |
| ClientProofs.EveryCallInOnePlace | rpc/src/rpc_client.cpp:156-384 | In every run, with completions that start calls or disconnect, each call is pending once or completed once, never both, never lost |
| ClientProofs.CompletedOnce | rpc/src/rpc_client.cpp:248-257 | No call completes twice, and a completed call is not pending |
| ClientProofs.IdsStayApart | rpc/src/rpc_client.cpp:311-358 | Id 0, pending ids and remembered timed-out ids stay disjoint; the deque has no duplicates, equals the set and never exceeds 1024 |
| ClientProofs.DownLeavesNothingPending | rpc/src/rpc_client.cpp:156-182 | After the connection goes down no call is left pending |
| ClientRules.CallersAreTold | rpc/src/rpc_client.cpp:17-23 | In every run a call the client ended itself has no payload and status 0x0A exactly when its deadline expired while it was pending, 0x0C exactly when it was started on a live connection and cannot be encoded, and 0x0B otherwise |
| ClientRules.AnswersComeFromFrames | rpc/src/rpc_client.cpp:198-257 | In every run a call ended from the wire got status, body and serializer of a response frame read in that step under the id it was pending under |
| ClientRules.AlienInputEndsConnection | rpc/src/rpc_client.cpp:198-234 | In every run unreadable input, or a frame of another version, type or serializer, stops all sending and leaves no earlier call pending |
| ClientRules.CallGoesOut | rpc/src/rpc_client.cpp:259-309 | A call on a live connection sends its own request under a free id, under which it is then pending |
| ClientRules.StartedCallsAreKept | rpc/src/rpc_client.cpp:259-325 | In every run a call started takes the next number with its request, and is completed at once without a connection or if it cannot be encoded, else pending if an id is free, else the client hangs over it |
| ClientRules.NothingSentWhenClosed | rpc/src/rpc_client.cpp:156-182 | After disconnect() or connection-down nothing is sent in any run until a connection comes up |
| ClientRules.CompletionsComeLast | rpc/src/rpc_client.cpp:248-342 | What a completion starts, after a timeout or a response, has the effect it would have as the next events: its call is out of the table first |
| ClientRules.RefusalsComeLast | rpc/src/rpc_client.cpp:264-281 | So has what the completion of a refused call starts |
| ClientDeadlines.DeadlinesFollowCalls | rpc/src/rpc_client.cpp:248-376 | In every run that has not used an id twice, a call has one deadline timer while it is pending and asked for one, and none otherwise: no completion leaves a timer behind |
| ClientSession.LawfulOrderExists | rpc/src/rpc_client.cpp:365-367 | The assumption on the hash table's iteration order can be met |
| RpcClients.RpcClient.AllocateRequestId | rpc/src/rpc_client.cpp:311-325 | Returns the first free id from the counter on and advances it |
| RpcClients.RpcClient.StartCallInLoop | rpc/src/rpc_client.cpp:259-309 | Fails at once when not connected or not encodable; else records the call, sets its deadline timer if it has one, and sends |
| RpcClients.RpcClient.RememberTimedOut | rpc/src/rpc_client.cpp:344-353 | Remembers the id, evicting the oldest at 1024 |
| RpcClients.RpcClient.OnTimeout | rpc/src/rpc_client.cpp:327-342 | Completes a pending call once with the timeout response, which ClientRules.CallersAreTold states to be status 0x0A, and remembers its id |
| RpcClients.RpcClient.FailAllPending | rpc/src/rpc_client.cpp:360-376 | Moves the table out, then completes each entry, while completions may add calls |
| RpcClients.RpcClient.FailConnection | rpc/src/rpc_client.cpp:378-384 | Fails every pending call, then closes |
| RpcClients.RpcClient.OnMessage | rpc/src/rpc_client.cpp:198-257 | Matches responses to pending calls, ignores late ones, fails the connection on anything else |
| RpcClients.RpcClient.OnConnection | rpc/src/rpc_client.cpp:156-182 | Up: usable; down: every pending call fails |
| Session.ExpectedIsIdeal | rpc/src/rpc_server.cpp:156-218 | The server's reply to an issued request frame is the response that request deserves, under its id |
| Session.AlwaysInStep | rpc/src/rpc_client.cpp:198-309 | In every run both ends stand at frame boundaries of the streams and every response answers the request of its id |
| Session.EndToEnd | rpc/src/rpc_client.cpp:198-309 | A call completed from the wire got the server's answer to its own request: 0x05 if too large for the server, 0x0D if the serializers differ, else what the registrations make due for it |
| SessionProgress.LateResponsesAreHarmless | rpc/src/rpc_client.cpp:236-246 | In a session with at most 1024 timeouts, matching serializers, bodies within the limits and no disconnect, the client goes on after every frame it reads, late responses included; it stays connected and fails no call |
| SessionProgress.DeliveredMeansDone | rpc/src/rpc_client.cpp:198-309 | In such a session, once both streams are delivered to the end, the server has answered every request sent, and every call sent is completed and no longer pending |
| SessionEviction.EvictedIdIsFatal | rpc/src/rpc_client.cpp:344-353 | After 1025 timeouts the connection is up; delivering the first request and its response then fails it, because the id was evicted |
| Heap.FrontIsLeast | src/TimerQueue.cpp:158-172 | The front of the heap has the least expiration |
| Heap.PushHeap | src/TimerQueue.cpp:207-208 | Pushing keeps a heap of the same elements |
| Heap.PopHeap | src/TimerQueue.cpp:166-168 | Popping removes the front and keeps a heap of the rest |
| Heap.MakeHeap | src/TimerQueue.cpp:108-113 | Any vector becomes a heap of the same elements |
| Timers.TimespecIsDelay | src/TimerQueue.cpp:30-41 | The timespec is the delay, at least 100 microseconds, with nanoseconds below a second |
| TimerProofs.StepPlaced | src/TimerQueue.cpp:84-216 | Every event keeps each timer in one place and the active set equal to the heap's handles |
| TimerTheorems.TimersAreOwned | src/TimerQueue.cpp:84-216 | In every run each timer ever created is in one of pending insert, heap, batch or freed once, and live exactly until freed; outside a batch its sets are empty |
| TimerTheorems.NoMissedDeadline | src/TimerQueue.cpp:136-216 | Outside a batch, with a timer in the heap, the kernel timer is armed or has fired, no later than that timer's expiration or 100 microseconds after arming |
| TimerTheorems.CancelTakesEffect | src/TimerQueue.cpp:98-134 | A cancel takes effect at once, or its one retry is queued behind the insert it overtook |
| TimerTheorems.RetryTakesEffect | src/TimerQueue.cpp:126-134 | The retry always finds its timer inserted or dead, and is not posted again |
| TimerTheorems.CancelSparesOthers | src/TimerQueue.cpp:102-116 | A handle never frees or moves another timer, even one at its address |
| TimerTheorems.CancelIsFinal | src/TimerQueue.cpp:98-189 | After a cancel took effect the timer never returns to the heap and runs at most once more, only if still to run in the current batch |
| TimerTheorems.BatchRunsTheDue | src/TimerQueue.cpp:136-156 | Over a whole batch, whatever is added, cancelled or posted meanwhile, the count of runs grows by one for each timer due at its beginning and by none for any other |
| TimerTheorems.ResetOutcome | src/TimerQueue.cpp:174-189 | Each timer of the batch is restarted one interval after the batch time if repeating and not cancelled, and freed otherwise, whatever the others do |
| TimerRequests.TimersAsAsked | src/TimerQueue.cpp:84-90 | In every run handles are those of the addTimer calls; a live timer repeats as asked and expires at the time asked for until its first callback, then one interval after its last batch; its callbacks are as many as its batches, the first of which did not begin early |
| TimerRequests.DueTimersAreTaken | src/TimerQueue.cpp:136-172 | A batch begun with a timer in the heap takes it exactly when it is due as asked, and the kernel timer goes off by then or 100 microseconds after it was set |
| TimerRequests.AddArms | src/TimerQueue.cpp:199-216 | Adding sets the kernel timer for the new timer exactly when it is earlier than all others, never for less than 100 microseconds ahead |
| TimerRequests.EndArms | src/TimerQueue.cpp:174-197 | The end of a batch sets it for the earliest timer in the heap |
| TimerRequests.PostedTimersArrive | src/TimerQueue.cpp:84-96 | In every run a timer added from another thread is in the heap, the batch or freed once the loop has run the tasks up to its insert |
| TimerRequests.FiresOncePerSetting | src/TimerQueue.cpp:136-216 | In every run the kernel timer goes off once each time it is set, whatever batches begin in between |
| TimerRequests.TickIsConsumed | src/TimerQueue.cpp:136-148 | Beginning a batch leaves nothing to read of a tick, and a tick still to come alone |
| TimerQueues.TimerQueue.Insert | src/TimerQueue.cpp:199-216 | Inserts into heap and active set, and re-arms exactly when it is the earliest |
| TimerQueues.TimerQueue.CancelInLoop | src/TimerQueue.cpp:102-134 | Frees an active timer, marks one in the batch, or queues one retry |
| TimerQueues.TimerQueue.GetExpired | src/TimerQueue.cpp:158-172 | Takes out exactly the timers due, earliest first, and keeps a heap of the rest |
| TimerQueues.TimerQueue.Reset | src/TimerQueue.cpp:174-197 | Restarts or frees the batch and re-arms for the new front |
| TimerQueues.TimerQueue.AddTimer | src/TimerQueue.cpp:84-90 | On the loop thread: a fresh handle, inserted as the machine does, for which TimerRequests.TimersAsAsked states the expiration asked for; every invariant kept |
| TimerQueues.TimerQueue.PostTimer | src/TimerQueue.cpp:84-90 | From another thread: a fresh handle with its insert queued as the machine does, for which TimerRequests.TimersAsAsked states the expiration asked for; every invariant kept |
| TimerQueues.TimerQueue.Cancel | src/TimerQueue.cpp:98-100 | On the loop thread: the cancel takes place, every invariant kept |
| TimerQueues.TimerQueue.PostCancel | src/TimerQueue.cpp:98-100 | From another thread: the cancel is queued, every invariant kept |
| TimerQueues.TimerQueue.RunPosted | src/TimerQueue.cpp:84-134 | A queued insert or cancel, every invariant kept |
| TimerQueues.TimerQueue.BeginBatch | src/TimerQueue.cpp:136-148 | Drains the kernel timer and takes the due timers as the batch, every invariant kept |
| TimerQueues.TimerQueue.EndBatch | src/TimerQueue.cpp:152-156 | Ends the batch with an armed front, every invariant kept |
| Connections.StepInv | src/TcpConnection.cpp:56-231 | Every event keeps the stream, write interest, shutdown and close-once invariants |
| Connections.SendPathIsStream | src/TcpConnection.cpp:78-216 | In every run the kernel's bytes followed by the buffer are the bytes of the messages handed over by the run's events, in order, without those given up, which `lost` counts; queued messages are the posted ones not yet handled; write interest is on exactly while the buffer is non-empty; SHUT_WR on an open connection comes after every byte |
| Connections.RunHandles | src/TcpConnection.cpp:129-200 | From any state a run adds exactly the surviving bytes of its messages to the stream, and what it gives up plus what survives is all it handled |
| Connections.ShutsUnwrittenIffClosed | src/TcpConnection.cpp:101-114 | At the step of a run that does SHUT_WR, bytes are left unwritten exactly when the connection had been closed with bytes in the buffer |
| Connections.ClosedThenShut | src/TcpConnection.cpp:202-216 | Such a run: a hang-up, then the queued half of a shutdown |
| Connections.NothingAfterShut | src/TcpConnection.cpp:149-216 | After SHUT_WR no byte reaches the kernel in any run |
| Connections.ShutdownIsOrderlyIff | src/TcpConnection.cpp:202-216 | After shutdown() on the loop thread nothing is lost or abandoned, in any run in which nothing else goes wrong, exactly when no non-empty message is queued at the call; and in any run at all exactly when the output buffer is empty as well |
| Connections.PostedShutdownIsOrderlyIff | src/TcpConnection.cpp:202-208 | shutdown() from another thread leads to no loss, in any run in which nothing else goes wrong, exactly when no message is queued at the call, or one is and nothing is being written |
| Connections.PostedMessageLost | src/TcpConnection.cpp:202-216 | A posted message is lost when the loop thread shuts down first |
| Connections.OwnMessageLost | src/TcpConnection.cpp:90-92 | One other thread sends, then shuts down: its own message is lost while an earlier one drains |
| ConnectionLife.EofIsOrderlyIff | src/TcpConnection.cpp:64-71 | After the end of input nothing is lost, in any run in which nothing else goes wrong and with any further ends of input, exactly when no non-empty message is queued and no forced close waits behind unwritten bytes; the closed callback is called at once exactly when no byte is waiting |
| ConnectionLife.EofDrains | src/TcpConnection.cpp:64-99 | From any state of any run with bytes waiting: end of input, then the buffer drains, the write side is shut and the wire holds every surviving byte |
| ConnectionLife.PhaseFollowsEvents | src/TcpConnection.cpp:30-231 | In every run messages are accepted exactly from the establishment to the first shutdown, forced close, end of input or hang-up, and the input is what was read, in order |
| ConnectionLife.ClosedByEvent | src/TcpConnection.cpp:101-114 | The closed callback is called at a hang-up, an end of input with nothing to write or a forced close being run, and at no other event |
| ConnectionLife.ForceCloseCloses | src/TcpConnection.cpp:218-231 | After forceClose() the connection is down once the loop has run what was queued and the close |
| ConnectionLife.WireIsTaken | src/TcpConnection.cpp:78-200 | In every run the wire is exactly what the kernel reported taken, write by write |
| TcpConnections.TcpConnection.SendInLoop | src/TcpConnection.cpp:149-200 | Fast path only when nothing is ahead; the rest is buffered; a fatal error drops the whole message |
| TcpConnections.TcpConnection.HandleWrite | src/TcpConnection.cpp:78-99 | The front of the buffer goes out; when empty, write interest goes off and a waiting shutdown goes ahead |
| TcpConnections.TcpConnection.HandleRead | src/TcpConnection.cpp:56-63 | Read bytes join the input queue |
| TcpConnections.TcpConnection.HandleEof | src/TcpConnection.cpp:64-71 | End of input waits for pending output, else closes, as the machine does; ConnectionLife.EofIsOrderlyIff states what that saves |
| TcpConnections.TcpConnection.HandleClose | src/TcpConnection.cpp:101-114 | Closed, write interest off, callback once |
| TcpConnections.TcpConnection.Send | src/TcpConnection.cpp:129-143 | Ignored unless connected; sent or queued by thread |
| TcpConnections.TcpConnection.Shutdown | src/TcpConnection.cpp:202-216 | Only from connected; SHUT_WR now if nothing is being written, else later |
| TcpConnections.TcpConnection.ForceClose | src/TcpConnection.cpp:218-224 | Stops accepting and queues the close |
| TcpConnections.TcpConnection.RunTask | src/TcpConnection.cpp:137-231 | The queued half of send, shutdown or close |
| LoopProtocol.NoLostTask | src/EventLoop.cpp:84-141 | In every interleaving, executed tasks, then the batch, then the queue are those before it followed by the tasks the run's events push, in order |
| LoopProtocol.EnterIsSafeIff | src/EventLoop.cpp:84-141 | No poll of this loop() can sleep over a queued task with nobody to wake it, exactly when on entry the queue is empty, the eventfd signalled, or a poster about to write it |
| LoopProtocol.QuitIsHeard | src/EventLoop.cpp:110-116 | In every run, whatever is queued, no poll is left to block with the quit flag set, the eventfd silent and no quit() about to write it |
| LoopProtocol.PollReturnsForWork | src/EventLoop.cpp:84-141 | In every interleaving of a safely entered loop(), a poll with a task waiting or quit() asked for returns once every thread has written its wakeup |
| LoopProtocol.QuitLeavesIff | src/EventLoop.cpp:84-116 | quit(), from another thread or the loop thread, ends the loop at the next test of its flag, in every interleaving, exactly when loop() is running at the call |
| LoopProtocol.OnlyQuitEndsLoop | src/EventLoop.cpp:84-108 | In every interleaving without a quit() since it was entered, loop() goes on |
| LoopProtocol.WakeupIsConsumed | src/EventLoop.cpp:212-219 | Once a wakeup is handled, poll reports the eventfd again only after another write |
| LoopProtocol.QuitBeforeLoopForgotten | src/EventLoop.cpp:84-90 | Such a run: quit() from another thread, then loop() is entered and polls on |
| LoopProtocol.PostBeforeLoopSleeps | src/EventLoop.cpp:128-141 | A task queued on the loop thread before loop() wakes nobody |
| LoopProtocol.IterationRunsAll | src/EventLoop.cpp:90-105 | However posters and functors interleave with it, an iteration that has come to its end has executed every task posted before its poll returned |
| LoopProtocol.IterationCanFinish | src/EventLoop.cpp:90-105 | The loop's own steps always lead through the iteration to the next test of the flag, with everything posted executed |
| EventLoops.EventLoop.QueueInLoop | src/EventLoop.cpp:128-141 | Queues; wakes the poll from another thread and from inside a running batch, and not otherwise |
| EventLoops.EventLoop.RequestQuit | src/EventLoop.cpp:110-116 | Sets the flag, and wakes the poll from another thread |
| EventLoops.EventLoop.HandleWakeup | src/EventLoop.cpp:212-219 | Reads the eventfd empty |
| EventLoops.EventLoop.DoPendingFunctors | src/EventLoop.cpp:222-234 | Runs exactly the queue swapped out, in order; what its functors queue stays for the next iteration |
| Connecting.StepInv | src/Connector.cpp:48-224 | Every event keeps attempts counted, descriptors accounted for and resources tied to the attempt in flight |
| Connecting.AttemptsConserved | src/Connector.cpp:48-224 | In every run accepted starts equal successes, errors, silent stops and the one in flight; each descriptor is held, delivered once or closed once |
| Connecting.DeliveredIfGood | src/Connector.cpp:116-189 | In every run the successes are the attempts met by writability without error or self-connect, and the descriptors delivered are theirs, in that order, if there is a callback |
| Connecting.GoodEnds | src/Connector.cpp:173-189 | Such an event connects, counts one success and nothing else, and gives the descriptor to the callback or closes it; what the callback calls changes nothing |
| Connecting.BadEnds | src/Connector.cpp:116-202 | Any other verdict, an error or a deadline counts an error, stop() counts none; both close the descriptor |
| Connecting.OthersEndNothing | src/Connector.cpp:48-171 | No other event ends an attempt, and none of these does anything without one |
| Connecting.CallbackComesLast | src/Connector.cpp:191-202 | What the error callback calls has the effect it would have right after the failure, with everything released; without a callback nothing follows |
| Connecting.StopResets | src/Connector.cpp:58-70 | stop() leaves neither an attempt nor a failure behind, and leaves a connection made alone |
| Connecting.DueUntilRun | src/Connector.cpp:226-231 | A deadline in the running batch stays due until its callback, whatever is started or stopped |
| Connecting.StartIsSafeIff | src/Connector.cpp:165-171 | An attempt in progress cannot be failed by the deadline of another one exactly when no earlier deadline is still to run in the batch at its start() |
| Connecting.StaleDeadlineFailsRetry | src/Connector.cpp:226-231 | Such a run: the deadline expires, stop(), start() again; the first deadline fails the second attempt |
| Connectors.Connector.Fail | src/Connector.cpp:191-202 | Releases everything before the callback, which may start again |
| Connectors.Connector.Connect | src/Connector.cpp:72-114 | No socket, refused at once, or in progress with a channel and a deadline |
| Connectors.Connector.FinishConnect | src/Connector.cpp:173-189 | The descriptor is given away or closed, and forgotten before the callback |
| Connectors.Connector.HandleWrite | src/Connector.cpp:116-145 | Socket error and self-connect fail, otherwise success; ignored when no attempt is in flight; conservation kept |
| Connectors.Connector.HandleError | src/Connector.cpp:147-163 | Fails the attempt in flight; conservation kept |
| Connectors.Connector.TimersBegin | src/Connector.cpp:106-108 | An expired deadline joins the batch of timers about to run, with the attempt it was set for; conservation kept |
| Connectors.Connector.HandleTimeout | src/Connector.cpp:165-171 | An expired deadline fails the attempt in flight, whichever attempt it was set for; conservation kept |
| Connectors.Connector.Start | src/Connector.cpp:48-56 | One attempt at a time; conservation kept |
| Connectors.Connector.Stop | src/Connector.cpp:58-70 | Ends the attempt silently and releases everything; conservation kept |

## Left out

- RpcClients.RpcClient.AllocateRequestId: requires a free id, because the source loops forever when all 2^32 - 1 ids are taken; the machine's `stuck` flag stands for that.
- Session.EndToEnd: covers runs in which fewer than 2^32 ids were issued, because a late response could otherwise meet a reused id.
- ClientDeadlines.DeadlinesFollowCalls: covers runs in which no request id has been used twice, because an expiry carries only an id, and after the 32-bit counter comes round the model cannot tell the timer of an earlier call from the one now under that id.
- SessionProgress.DeliveredMeansDone: covers sessions whose serializers match and whose bodies fit, without a disconnect and with at most 1024 timeouts and fewer than 2^32 ids; `ClientProofs.DownLeavesNothingPending` is about the others.
- Registry.DispatchIsDue: covers service names without a dot, in registrations and request; with dots `Registry.KeysCollide` says exactly which pairs share a key.
- TimerRequests.DueTimersAreTaken: how long a batch begins after the kernel timer went off is up to the scheduler and is not bounded.
- JsonRoundTrip.RoundTrip: doubles are abstract and printing is assumed to be inverted by reading; bit-exact `std::to_chars` and `std::from_chars` are not modelled.
- JsonWriter.WriteNumber: assumes the same law of the double format.
- Connections.SendPathIsStream: a message hit by EPIPE or ECONNRESET, or handled after close, is counted as lost and not as part of the stream.
- TimerQueues.TimerQueue.AddTimer: timestamps are unbounded integers and the global sequence counter is bumped atomically; 64-bit overflow and the unsynchronised counter are not modelled.
- Connections.PostedShutdownIsOrderlyIff: the boundaries of the loop's batches are not recorded, so writability may come between any two queued tasks; a caller cannot see those boundaries either.
- Data races on the atomic connection state: connection calls are atomic steps of the loop thread or of its queue.
- Socket, Acceptor, InetAddress, EPollPoller and Channel: system-call wrappers, represented by the outcomes they report.
- TcpServer, TcpClient, EventLoopThread, `connectDestroyed` and all destructors: object lifetime.
- Blocking `Call()`, futures and promises on the client.
- HttpRequest, HttpResponse, the examples and the benchmark: string handling with file I/O.
- JsonSerializer, RawSerializer, statusToString and logging: thin adapters.
- The write-complete, message and connection callbacks of a connection: what they call is an ordinary event of the machine, after the handler that called them.
