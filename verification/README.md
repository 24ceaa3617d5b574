# A verified model of the gateway's core

The gateway takes a chat request in one provider's dialect, sends it to one of
several deployments in another's, and turns the answer back while it streams. On
the way it routes, limits, records, redacts and bills. This project models the
parts of that work whose correctness spans many steps, and proves what they promise
for every input, every run and every reachable state.

* **Meaning of a stream.** `Aggregate` defines what a stream of events means: the
  response it folds to. Aggregator outputs are exactly the fixed points of expanding
  a response into events and folding it again.
* **Translation.** `Gemini` and `Anthropic` are the two encoders and decoders as
  state machines that write text and read lines; `Sse` is the framing of section 9.2
  of the WHATWG HTML Living Standard. `GeminiRoundTrip` and `AnthropicRoundTrip`
  prove that decoding what an encoder wrote means the dialect's view of the original,
  and exactly when; `AnthropicReading` and `GeminiReading`, over `Reading`, what a real
  upstream's lines mean, in terms of their JSON; `WireExamples` one turn in full; `AnthropicFraming` that the frames are well formed, and exactly when.
* **Driving a stream.** `StreamDriver` and `Relay` reassemble lines across arbitrary
  cuts and record each turn exactly once, however it ends. `EndOfAnswer` and `Surfaces`
  say exactly when bytes are taken for the end of an answer, and `Translation` follows
  whole turns from an upstream's text to what the client aggregates. `Dispatch` tries
  candidates in order under the guard that records a turn nobody answered;
  `DispatchOutcomes` says in status numbers who is sent to and what comes of it.
* **Request log.** `RequestLog` is the worker as a machine over its steps, crashes
  included: what it holds, what it exports, what it forgets; `LogContents` says it in files, times
  and ids.
* **Routing and names.** `Access`, `Router`, `Fairness`, `Balance`, `NameRegistry`; in
  terms of the tables `RoutingOutcomes` and `NameOutcomes`.
* **Limits and spend.** `RateLimit`, `Calendar`, `Spend`; in numbers and days
  `LimitNumbers` and `CalendarDays`.
* **Redaction and forms.** `CardRedaction`, `CardNumbers`, `Utf8`, `Search`,
  `Multipart`, `FormNames`.

Foreign code comes in as a parameter: JSON printing and parsing is a `Codec` of which
only `Lawful` is used and, for what a text quotes, `Plain` (a word of small letters is
printed as it stands, and nothing else spells it); `JsonWitness` gives one that has both.
The phone pattern is what it finds, lossy decoding of header bytes and the response writers are functions, and
clocks, upstream replies, directory listings and the moments where a crash, an error
or a hang-up strikes are inputs.

Where the code does not do what its documentation says, the model follows the code. Each
time there is a failing input, and the exact condition under which the promise holds:

* An Anthropic client's stream is taken to have ended when the bytes contain
  `message_stop` anywhere, so an answer that quotes it is cut, recorded as complete
  (`Surfaces.ATurnCutShort`; `EndOfAnswer.EndsIff`, `Translation.SentWholeIff`).
* Tool input that comes after text or thinking loses its tool: the Anthropic encoder
  opens a nameless call for it (`AnthropicRoundTrip.ATurnWithAnOrphan`;
  `AnthropicRoundTrip.AnthropicKeepsMeaningIff`).
* Log ids start over when the table is empty at a start, so turns of two process
  lives can share an id; export then keeps one of two turns that also share time and
  request (`RequestLog.IdsRepeatAcrossLives`; `RequestLog.ExportCompleteIff`).
* Forgetting answers success after a directory it could not list, and passes over the
  partial file that a crash before a shard's rename leaves, until a rotation removes it
  (`RequestLog.AForgetThatMisses`, `RequestLog.AForgetThatPassesOver`;
  `RequestLog.ForgetLeavesNoneIff`, `RequestLog.ForgetThenRotateLeavesNone`). It gives a
  rewritten shard a new pruning time when the old one cannot be read
  (`RequestLog.AForgetThatRejuvenates`; `RequestLog.ForgetKeepsTheRest`).
* An export looks for shards before its query, on another thread than the worker's; one
  that looks before the first rotation and reads after it carries nothing
  (`RequestLog.AnExportThatMisses`; `RequestLog.LateExportCompleteIff`).
* Two rotations in one microsecond give their shards one name, and the second replaces the
  first (`RequestLog.ARotationThatOverwrites`; `RequestLog.RotateLosesIff`).
* Two allow-lists that share nothing merge to an empty one, which reads as no
  ceiling (`Access.AClash`; `Access.MergedPermits`).
* A model among its own fallbacks moves its round-robin counter twice a resolve, so with
  two survivors only one is ever first (`Balance.AModelThatFallsBackOnItself`;
  `Balance.RoundRobinIsFair` and `Balance.RoundRobinIsUnfair` on either side of the
  condition).
* The comment on cards speaks of several groups of 3 to 6 digits; of those the code takes
  4-6-4, 4-6-5, 4-4-4-3, 4-4-4-4 and 4-4-4-4-3 only (`CardRedaction.ACardThatIsNotTaken`;
  `CardRedaction.DocumentedTakenIff`).
* A refill credits whole milliseconds and forgets the rest, so a key polled more than once
  a millisecond never refills (`RateLimit.ImpatientStarves`; `RateLimit.RefillOnTheWay`,
  `RateLimit.RefusalsCostNothingIff`, `RateLimit.RetryAfterIsExact`).
* For the same reason a refused caller that comes back after the wait it was told can be
  refused again, as at seven calls a minute: whole milliseconds must make up the wait
  (`RateLimit.ACallerBackTooSoon`; `RateLimit.BackAfterTheWait`). A rate below 1e-9 a second
  makes the wait itself too short (`RateLimit.ATooShortWait`;
  `RateLimit.RetryAfterIsExact`).
* A clock that steps back pays the same second twice
  (`RateLimit.ClockStepBackOverAdmits`; the bound that holds for every clock is
  `RateLimit.AdmissionBound`).
* A form value that holds the delimiter does not read back
  (`Multipart.AValueThatIsCut`; `Multipart.ReadsBackIff`).

## Model

| member | source | states |
|---|---|---|
| `Aggregate.Aggregator.Push` | crates/yb-wire/src/aggregate.rs:44-66 | one event updates the aggregate as the fold does; tool input goes to the last call and is dropped when there is none |
| `Aggregate.Aggregator.PushAll` | crates/yb-wire/src/aggregate.rs:69-73 | pushing a list is folding it |
| `Aggregate.Aggregator.IntoResponse` | crates/yb-wire/src/aggregate.rs:76-118 | the response is the fold's meaning: thinking, text, then calls with parsed input |
| `Aggregate.EventsFromResponse` | crates/yb-wire/src/aggregate.rs:125-157 | the loop yields exactly the events that a response expands to |
| `Aggregate.FoldIsCanonical` | crates/yb-wire/src/aggregate.rs:76-118 | every aggregate is canonical: at most one thinking and one text block, then calls, with the stop reason that fits |
| `Aggregate.FixedPointIffCanonical` | crates/yb-wire/src/aggregate.rs:44-157 | expanding a response and folding it gives it back if and only if it is canonical |
| `Aggregate.MeaningIsStable` | crates/yb-wire/src/aggregate.rs:44-157 | for every stream, expanding its meaning and folding again changes nothing |
| `Sse.LinesAcrossCut` | crates/yb-gateway/src/service.rs:1285-1295 | for every cut of a text, the lines of the first part and then of its remainder with the second are the lines of the whole |
| `Sse.DataOfShown` | crates/yb-wire/src/anthropic.rs:750-757 | the data line of a printed value yields the printed value |
| `Reading.DataLine` | crates/yb-wire/src/anthropic.rs:750-757 | a data line yields its payload with or without the space after the colon, without the space at its end |
| `Reading.CarriageDropped` | crates/yb-gateway/src/service.rs:1290-1294 | a carriage return before the line feed changes nothing that is decoded |
| `Reading.SpaceIs` | crates/yb-wire/src/anthropic.rs:750-757 | the space that trimming takes is Unicode's White_Space, code point by code point |
| `Reading.BlankIff` | crates/yb-wire/src/aggregate.rs:76-118 | a call's input counts as empty if and only if nothing is left of it once trimmed |
| `Sse.DecodeRendered` | crates/yb-wire/src/anthropic.rs:740-757 | decoding rendered frames line by line gives what decoding their payloads gives |
| `Gemini.EmitState.FlushTool` | crates/yb-wire/src/gemini.rs:473-485 | the held call goes out whole, once, and is no longer held |
| `Gemini.EmitState.WriteEnd` | crates/yb-wire/src/gemini.rs:518-535 | the held call, then the finish chunk with the merged usage |
| `Gemini.EmitState.EncodeEvent` | crates/yb-wire/src/gemini.rs:489-539 | one event moves the encoder and writes as the machine does |
| `Gemini.EmitState.EncodeSse` | crates/yb-wire/src/gemini.rs:489-539 | a batch of events writes the rendering of the frames the machine emits for them |
| `Gemini.SseState.DecodeParts` | crates/yb-wire/src/gemini.rs:422-444 | the parts of a candidate become their events and mark an open tool |
| `Gemini.SseState.DecodeSse` | crates/yb-wire/src/gemini.rs:401-457 | one line moves the decoder and yields events as the machine does, whose readings of a real upstream the `GeminiReading` rows state in its JSON |
| `GeminiReading.CountsRead` | crates/yb-wire/src/gemini.rs:276-286 | for all numbers, a usage object with those prompt, candidate and cached counts is read as input, output and cache-read tokens, and as nothing else |
| `GeminiReading.PartRead` | crates/yb-wire/src/gemini.rs:422-444 | a text part is its text; another with a call under either key starts a call named and numbered by its name, with its arguments or the empty object; any other part is nothing |
| `GeminiReading.StopRead` | crates/yb-wire/src/gemini.rs:370-379 | STOP is a tool-use stop if a call was read and a plain end if not, MAX_TOKENS is its own, and any other reason is kept in lower case |
| `GeminiReading.ChunkLine` | crates/yb-wire/src/gemini.rs:401-457 | a line whose first candidate has these parts gives the model if it is the first line, each part in turn, and, with a finish reason, the counts and the stop |
| `GeminiReading.BareLine` | crates/yb-wire/src/gemini.rs:401-457 | a line without a candidate gives the model if it is the first, and nothing else |
| `GeminiReading.StreamUsage` | crates/yb-wire/src/gemini.rs:401-457 | the usage of a whole upstream text is, count by count, the largest that its finished chunks report |
| `GeminiRoundTrip.TrackPrefix` | crates/yb-wire/src/gemini.rs:401-539 | after any prefix of any turn encoder and decoder are in step: what the reader folded plus the held call is what was sent |
| `GeminiRoundTrip.GeminiKeepsMeaning` | crates/yb-wire/src/gemini.rs:401-539 | for every turn, what a reader of the encoding aggregates is the original's model, text, tool names, parsed inputs and token totals, thinking dropped and ids turned into names |
| `GeminiRoundTrip.GeminiStopAgrees` | crates/yb-wire/src/gemini.rs:370-387 | the stop reason survives if and only if it is MaxTokens, EndTurn, or ToolUse with a tool called |
| `WireExamples.AGeminiTurn` | crates/yb-wire/src/gemini.rs:489-539 | a turn of a thought, text, a call in two pieces and counts, as the frames a client gets, JSON in full, the wrapped total included |
| `Anthropic.WriteEvent` | crates/yb-wire/src/anthropic.rs:740-747 | appends exactly one rendered frame |
| `Anthropic.EmitState.EnsureStarted` | crates/yb-wire/src/anthropic.rs:684-706 | message_start is written once, before anything else |
| `Anthropic.EmitState.CloseOpen` | crates/yb-wire/src/anthropic.rs:729-738 | an open block is stopped under its own index and the index advances |
| `Anthropic.EmitState.OpenBlock` | crates/yb-wire/src/anthropic.rs:641-651 | a new block is opened at the next index after any open one is closed |
| `Anthropic.EmitState.EnsureBlock` | crates/yb-wire/src/anthropic.rs:710-727 | a block of the wanted kind is open afterwards; one already open is kept |
| `Anthropic.EmitState.WriteDelta` | crates/yb-wire/src/anthropic.rs:623-660 | a delta goes to an open block of its own kind |
| `Anthropic.EmitState.WriteEnd` | crates/yb-wire/src/anthropic.rs:667-678 | blocks are closed, then message_delta with the stop reason and output tokens, then message_stop |
| `Anthropic.EmitState.EncodeEvent` | crates/yb-wire/src/anthropic.rs:615-682 | one event moves the encoder and writes as the machine does |
| `Anthropic.EmitState.EncodeSse` | crates/yb-wire/src/anthropic.rs:615-682 | a batch of events writes the rendering of the messages the machine emits for them |
| `Anthropic.SseState.DecodeSse` | crates/yb-wire/src/anthropic.rs:531-595 | one line moves the decoder and yields events as the machine does, whose readings of a real upstream the `AnthropicReading` rows state in its JSON |
| `AnthropicReading.UsageRead` | crates/yb-wire/src/anthropic.rs:257-268 | for all numbers, a usage object with those input, output, cache-read and cache-creation tokens is read as those four and nothing else |
| `AnthropicReading.StartLine` | crates/yb-wire/src/anthropic.rs:539-550 | a message_start gives its model and exactly the four counts of its usage object |
| `AnthropicReading.StartLineWithoutUsage` | crates/yb-wire/src/anthropic.rs:539-550 | one whose usage is absent or null gives its model alone |
| `AnthropicReading.DeltaLine` | crates/yb-wire/src/anthropic.rs:579-589 | a message_delta keeps its stop reason for the end and gives exactly the four counts of its usage object, if there is one |
| `AnthropicReading.StopLine` | crates/yb-wire/src/anthropic.rs:590-592 | a message_stop gives the stop reason kept, or a plain end |
| `AnthropicReading.CallLine` | crates/yb-wire/src/anthropic.rs:551-561 | a content_block_start gives a call its id and name, and another block nothing |
| `AnthropicReading.PieceLine` | crates/yb-wire/src/anthropic.rs:562-578 | a content_block_delta gives its piece of text, thought or input by the kind it says, and nothing for another kind |
| `AnthropicReading.OtherLine` | crates/yb-wire/src/anthropic.rs:593-593 | any other line gives nothing and keeps the state |
| `AnthropicReading.StreamUsage` | crates/yb-wire/src/anthropic.rs:531-595 | the usage of a whole upstream text is, count by count, the largest that its messages report |
| `AnthropicFraming.PhaseTracksEncoder` | crates/yb-wire/src/anthropic.rs:615-738 | over every event list an independent reader of the framing rules is in the phase the encoder's state tells, or is broken because the list was not disciplined |
| `AnthropicFraming.WellFramedIffDisciplined` | crates/yb-wire/src/anthropic.rs:615-738 | one message_start first, blocks 0, 1, 2 one at a time, deltas of the open block's index and kind, none open at message_stop: if and only if only usage precedes a MessageStart and follows a Done |
| `AnthropicRoundTrip.AdoptedTools` | crates/yb-wire/src/anthropic.rs:652-727 | tool input apart from its call always adds a nameless call, and nothing else does |
| `AnthropicRoundTrip.AnthropicMeaning` | crates/yb-wire/src/anthropic.rs:531-747 | for every turn, what a reader of the encoding aggregates is the dialect's view of the turn with such input given its nameless call |
| `AnthropicRoundTrip.AnthropicKeepsMeaningIff` | crates/yb-wire/src/anthropic.rs:531-747 | model, text, thinking, tool ids, names, inputs and output tokens survive if and only if no text or thinking separates a call from its input |
| `AnthropicRoundTrip.ATurnWithAnOrphan` | crates/yb-wire/src/anthropic.rs:652-727 | a concrete turn with text between a call and its input, whose meaning is not kept |
| `AnthropicRoundTrip.AnthropicStopAgrees` | crates/yb-wire/src/anthropic.rs:495-515 | the stop reason survives if and only if it is not an `Other` that spells one of the four canonical reasons |
| `WireExamples.WithoutAStart` | crates/yb-wire/src/anthropic.rs:702-706 | text before any start is sent with a start made up of a nameless model, and to a Gemini client under an empty model version |
| `WireExamples.AnAnthropicTurn` | crates/yb-wire/src/anthropic.rs:615-738 | the same turn as the frames a client gets, JSON in full, blocks numbered and closed |
| `WireExamples.ATurnMeans` | crates/yb-wire/src/aggregate.rs:44-118 | the response that turn is gathered into, field by field |
| `WireExamples.AResponseExpands` | crates/yb-wire/src/aggregate.rs:125-157 | the events a response of a thought, a text and a call expands to |
| `StreamDriver.StreamState.TakeLine` | crates/yb-gateway/src/service.rs:1290-1301 | a line's events enter the usage and the aggregate |
| `StreamDriver.StreamState.DrainLines` | crates/yb-gateway/src/service.rs:1289-1302 | every complete line is taken and the rest stays buffered |
| `StreamDriver.StreamState.ReadChunk` | crates/yb-gateway/src/service.rs:1286-1324 | a chunk's lines are encoded, counted and, when they end the answer, recorded |
| `StreamDriver.StreamState.ReadEnd` | crates/yb-gateway/src/service.rs:1338-1373 | the trailing line and the encoder's remainder go out and the turn is recorded |
| `StreamDriver.StreamState.Iterate` | crates/yb-gateway/src/service.rs:1267-1376 | one pass of the polling loop is one step of the machine |
| `StreamDriver.StreamState.Drop` | crates/yb-gateway/src/service.rs:1196-1218 | dropping records an abandoned turn unless it was recorded |
| `StreamDriver.RunTracks` | crates/yb-gateway/src/service.rs:1267-1376 | in every run the state and the bytes sent are those that the received text alone determines |
| `StreamDriver.RecordedExactlyOnce` | crates/yb-gateway/src/service.rs:1166-1218 | however the upstream and the client behave, one record: bytes sent, fold and usage of all events decoded, and the outcome that matches how the run ended |
| `StreamDriver.UsageIsMaximum` | crates/yb-wire/src/ir.rs:372-380 | the usage of a run is the field-wise maximum of all usage decoded |
| `StreamDriver.CutsDoNotMatter` | crates/yb-gateway/src/service.rs:1285-1373 | two runs not yet over that received the same text are in the same state and have sent the same bytes, a fresh encoder's output for the complete lines |
| `StreamDriver.ReadTextDecides` | crates/yb-gateway/src/service.rs:1285-1373 | runs that are over have sent and recorded the same when they read the same text and ended alike, wherever it was cut and whatever was still to come |
| `Relay.DrainInto` | crates/yb-gateway/src/service.rs:1113-1120 | draining a buffer folds all its complete lines and leaves the rest |
| `Relay.AggregateStream` | crates/yb-gateway/src/service.rs:1097-1141 | the response depends on the joined text only; a break in the middle records one failed turn |
| `Relay.BufferedTurn` | crates/yb-gateway/src/service.rs:1097-1141 | for every cut of a Gemini or Anthropic upstream's turn the buffered response is the dialect's view of the turn |
| `EndOfAnswer.WrittenHasMarker` | crates/yb-gateway/src/service.rs:1222-1230 | written messages contain the marker if and only if one is message_stop or carries it in a model name, text, thought, call id, call name, input or stop reason |
| `EndOfAnswer.EndsIff` | crates/yb-gateway/src/service.rs:1222-1230 | at any point of a stream, what is written for the next events is taken for the end if and only if one of them is Done or quotes the marker |
| `EndOfAnswer.EndsEarlyIff` | crates/yb-gateway/src/service.rs:1222-1230 | without a Done, bytes are taken for the end if and only if an event quotes the marker |
| `Surfaces.AnthropicStopsIff` | crates/yb-gateway/src/service.rs:1315-1322 | a chunk stops an Anthropic client's stream if and only if a line it completes closes the answer or quotes the marker |
| `Surfaces.GeminiStopsIff` | crates/yb-gateway/src/service.rs:1315-1322 | a chunk stops a Gemini client's stream if and only if a line it completes closes the answer |
| `Surfaces.QuotingChunkEndsTheRun` | crates/yb-gateway/src/service.rs:1267-1324 | a quoting chunk ends the run whatever follows: recorded complete, later items never read, nothing of them sent |
| `Surfaces.TurnCutShort` | crates/yb-gateway/src/service.rs:1267-1324 | for every quoting first text and everything that follows it, the record holds that text alone and the client is sent no closing |
| `Surfaces.ATurnCutShort` | crates/yb-gateway/src/service.rs:1222-1230 | one concrete Gemini turn that an Anthropic client receives cut short |
| `Translation.SentWholeIff` | crates/yb-gateway/src/service.rs:1238-1379 | for every cut, an Anthropic client is sent the whole answer if and only if no chunk completes a quoting line before the answer is closed |
| `Translation.GeminiSentWhole` | crates/yb-gateway/src/service.rs:1238-1379 | for every cut, a Gemini client is sent the whole answer |
| `Translation.GeminiToAnthropic` | crates/yb-gateway/src/service.rs:1238-1379 | every Gemini turn, cut anywhere and streamed to an Anthropic client, means there the Anthropic view of its Gemini view, unless a chunk quotes the marker before the answer is closed |
| `Translation.AnthropicToGemini` | crates/yb-gateway/src/service.rs:1238-1379 | every Anthropic turn, cut anywhere and streamed to a Gemini client, means there the Gemini view of its Anthropic view |
| `Dispatch.Settling` | crates/yb-gateway/src/service.rs:439-513 | the candidate that settles the turn is a chat one, and every chat candidate before it was moved on from |
| `Dispatch.TurnGuard.Fail` | crates/yb-gateway/src/service.rs:100-107 | records the unserved turn with its status and disarms |
| `Dispatch.TurnGuard.Drop` | crates/yb-gateway/src/service.rs:110-128 | records 499 if and only if still armed |
| `Dispatch.ServeStream` | crates/yb-gateway/src/service.rs:1238-1379 | a translated stream that is dropped at last leaves one record, that of its run |
| `Dispatch.EmitFull` | crates/yb-gateway/src/service.rs:1074-1092 | recorded if and only if the response could be written |
| `Dispatch.Commit` | crates/yb-gateway/src/service.rs:524-577 | the four ways a 2xx answer reaches the client, and what each records |
| `Dispatch.Attempt` | crates/yb-gateway/src/service.rs:440-577 | one candidate: moved on from exactly after a transport failure or a retryable or 404 status, and settled otherwise with its one record or the guard still armed |
| `Dispatch.Dispatching` | crates/yb-gateway/src/service.rs:431-593 | the loop ends as the first settling reply says, or with the last candidate's status when all were moved on from |
| `Dispatch.Handle` | crates/yb-gateway/src/service.rs:397-593 | result, records and candidates sent to, for every list of candidates and replies, as the `DispatchOutcomes` rows state them in status numbers |
| `Dispatch.SentInOrder` | crates/yb-providers/src/route.rs:224-233 | chat candidates are sent to in order, at most once, none skipped, and another only after a transport failure or a status of 404, 408, 429 or 500 and above |
| `Dispatch.FiledAtMostOnce` | crates/yb-gateway/src/service.rs:397-593 | at most one record, and none if and only if a 2xx answer is cancelled while buffered, does not parse or cannot be written |
| `Dispatch.ExhaustedStatus` | crates/yb-gateway/src/service.rs:575-586 | when every chat candidate was moved on from, an error is at hand if and only if there was one |
| `DispatchOutcomes.PiecesJoin` | crates/yb-gateway/src/service.rs:1097-1141 | what arrived in pieces is read as the pieces one after the other |
| `DispatchOutcomes.SentIff` | crates/yb-gateway/src/service.rs:431-513 | a candidate is sent the request if and only if it speaks a chat format, the request has a form in its dialect, and every chat candidate before it failed to connect or answered 404, 408, 429 or 500 and above with the client still there |
| `DispatchOutcomes.RefusedAtOnce` | crates/yb-gateway/src/service.rs:485-522 | if the first chat candidate answers any other status outside 200 to 299, it alone is sent to, the client gets that status and one faulted record is left |
| `DispatchOutcomes.SentOn` | crates/yb-providers/src/route.rs:224-233 | if it answers 404, 408, 429 or 500 and above and another chat candidate follows, that one is sent to next |
| `DispatchOutcomes.StoppedAt` | crates/yb-gateway/src/service.rs:446-495 | a request with no form in the dialect fails with 400; a client that leaves while waiting or while an error is read, of less than 64 KiB, leaves a 499 |
| `DispatchOutcomes.WholeAnswer` | crates/yb-gateway/src/service.rs:1044-1092 | a 2xx with a whole body reaches the client as a body or as events with one record of the response sent, the cache fields the upstream left out filled from the request; unparsed or unwritten it fails with 400 and no record |
| `DispatchOutcomes.StreamedAnswer` | crates/yb-gateway/src/service.rs:524-577 | a 2xx stream is translated piece by piece, or read to its end into one body; a break fails the turn, faulted, and a hang-up leaves nothing |
| `DispatchOutcomes.Exhausted` | crates/yb-gateway/src/service.rs:580-592 | when every chat candidate was moved on from, the last one's status is the client's and the record's; 400 when there was none |
| `RequestLog.Worker.Open` | crates/yb-reqlog/src/lib.rs:464-494 | a fresh start keeps table, shards and partial files, loses the buffer and numbers on from the table alone |
| `RequestLog.Worker.Push` | crates/yb-reqlog/src/lib.rs:498-551 | a record joins the buffer |
| `RequestLog.Worker.Flush` | crates/yb-reqlog/src/lib.rs:563-625 | the buffer becomes rows with successive ids, all at once |
| `RequestLog.Worker.Prune` | crates/yb-reqlog/src/lib.rs:838-865 | the partial files and exactly the shards older than the cutoff go, but for those that cannot be removed |
| `RequestLog.Worker.RemovePartials` | crates/yb-reqlog/src/lib.rs:824-836 | every partial file goes but for those that cannot be removed |
| `RequestLog.Worker.Rotate` | crates/yb-reqlog/src/lib.rs:660-701 | copy, rename over any shard of that name, empty, prune, as far as an error or a crash lets it; an error removes the partial file, a crash leaves it |
| `RequestLog.Worker.Forget` | crates/yb-reqlog/src/lib.rs:708-784 | the keyed turns leave the table and every listed shard, as far as an error or a crash lets it, and their number is returned |
| `RequestLog.Worker.Export` | crates/yb-reqlog/src/lib.rs:335-419 | of the table, and of the shards if there were any when it looked: one row, whichever, of each id, time and request among the non-error turns the filter takes, and of those the ones whose tags match |
| `RequestLog.RunIsSound` | crates/yb-reqlog/src/lib.rs:464-784 | in every run all copies of a turn are equal, ids are not reused within a life and nothing buffered is stored |
| `RequestLog.RotateLosesIff` | crates/yb-reqlog/src/lib.rs:660-701 | wherever a rotation stops, a stored turn is lost if and only if its only shard was overwritten by one of the same name, or the rotation went through and every shard that held it had expired and could be removed |
| `RequestLog.ARotationThatOverwrites` | crates/yb-reqlog/src/lib.rs:667-686 | two rotations under one name, after which the first one's turn is gone |
| `RequestLog.ExportCompleteIff` | crates/yb-reqlog/src/lib.rs:335-419 | every export, whichever rows it picks, carries every turn it should exactly once if and only if none of them shares id, time and request with another the filter takes |
| `RequestLog.LateExportCompleteIff` | crates/yb-reqlog/src/lib.rs:335-419 | an export that looked for shards before it reads carries every turn it should exactly once if and only if all of them are in the table or there were shards to see, and none shares id, time and request with another that is read |
| `RequestLog.AtOnceAllIsSeen` | crates/yb-reqlog/src/lib.rs:341-347 | an export that reads as it looks sees all there is |
| `RequestLog.AnExportThatMisses` | crates/yb-reqlog/src/lib.rs:341-354 | a run in which the first rotation comes between looking and reading, and nothing is read |
| `RequestLog.RunExportsOnce` | crates/yb-reqlog/src/lib.rs:335-419 | after every run, crashes between sealing and emptying and restarts included, each turn is exported exactly once when lives differ in time or request, by an export that looked at any earlier point and found a shard, or whose turns are all in the table |
| `RequestLog.IdsRepeatAcrossLives` | crates/yb-reqlog/src/lib.rs:464-494 | a run of five steps after which two turns share id, time and request |
| `RequestLog.ForgetLeavesNoneIff` | crates/yb-reqlog/src/lib.rs:708-784 | no turn of the named keys is left in table and shards if and only if every shard that held one was listed, and none on disk at all if and only if besides no partial file holds one |
| `RequestLog.ForgetThenRotateLeavesNone` | crates/yb-reqlog/src/lib.rs:708-865 | a forget shown every shard, followed by a rotation that goes through and removes the partial files, leaves no keyed turn on disk |
| `RequestLog.AForgetThatPassesOver` | crates/yb-reqlog/src/lib.rs:667-679 | a run with a crash before the rename, after which a forgotten key's turn is on disk in a partial file |
| `RequestLog.ForgetKeepsTheRest` | crates/yb-reqlog/src/lib.rs:708-784 | all other turns stay, in order, and a shard's pruning time changes if and only if it was listed, holds a keyed turn, its time could not be read and is another than now |
| `RequestLog.AForgetThatMisses` | crates/yb-reqlog/src/lib.rs:708-784 | a run after which a forgotten key's turn is still held, in a shard the forget was not shown |
| `RequestLog.AForgetThatRejuvenates` | crates/yb-reqlog/src/lib.rs:708-784 | a run in which forgetting changes a shard's pruning time |
| `LogContents.RetainedIff` | crates/yb-reqlog/src/lib.rs:838-865 | after a rotation with cutoff t a shard is left if and only if it was sealed at t or later or cannot be removed; the new one, when now is t or later, holds the table and the buffer with successive ids; the others are as they were |
| `LogContents.AllRetained` | crates/yb-reqlog/src/lib.rs:660-701 | without a cutoff no shard goes |
| `LogContents.AShardThatExpires` | crates/yb-reqlog/src/lib.rs:838-865 | a run in which a shard sealed before the cutoff is pruned and a younger one kept |
| `LogContents.AShardThatIsKept` | crates/yb-reqlog/src/lib.rs:838-865 | a run in which a shard sealed just at the cutoff is kept |
| `LogContents.StoppedCopying` | crates/yb-reqlog/src/lib.rs:667-679 | a rotation that stops while copying leaves table and shards as they were, and the rows copied in a partial file, unless a failure could remove it |
| `LogContents.StoppedSealed` | crates/yb-reqlog/src/lib.rs:680-701 | one that stops later has the table and the buffer in its shard, and the table emptied unless it stopped before that |
| `LogContents.PartialsLeft` | crates/yb-reqlog/src/lib.rs:824-836 | one that goes through leaves only partial files that cannot be removed |
| `LogContents.ForgottenIs` | crates/yb-reqlog/src/lib.rs:708-784 | the rows of the keys, and only those, leave the table and the listed shards, the rest in order; a rewritten shard takes the forget's time if and only if its own could not be read |
| `LogContents.ForgottenCount` | crates/yb-reqlog/src/lib.rs:708-784 | the number answered is the number of rows taken out |
| `LogContents.StoppedForgetting` | crates/yb-reqlog/src/lib.rs:740-784 | a forget that stops leaves the copy it was writing in a partial file, unless a failure could remove it |
| `LogContents.ForgottenPartials` | crates/yb-reqlog/src/lib.rs:740-784 | of the partial files only those that a rewritten shard replaced go |
| `LogContents.ExportHolds` | crates/yb-reqlog/src/lib.rs:335-419 | exported rows are stored, without an error, and pass the filter and the tags; no two share id, time and request; and of those that do, one was picked and is there if it has its tags |
| `LogContents.StartIs` | crates/yb-reqlog/src/lib.rs:464-494 | a fresh start keeps what is on disk and numbers on from the largest id in the table, from 1 when it is empty |
| `Access.Union` | crates/yb-core/src/model.rs:72-80 | the first list and then what the second adds, and nothing else |
| `Access.Merge` | crates/yb-core/src/model.rs:71-99 | denials are joined and allow-lists intersected, an empty one deferring to the other |
| `Access.MergedPermits` | crates/yb-core/src/model.rs:42-99 | a merged policy permits exactly what both permit, unless both allow-lists are non-empty and share nothing; then it permits whatever neither denies |
| `Access.AClash` | crates/yb-core/src/model.rs:81-99 | two policies that together permit a model neither permits |
| `Router.BuildModels` | crates/yb-gateway/src/router.rs:47-71 | each model's deployments, in order, and only models that have some |
| `Router.Canonical` | crates/yb-gateway/src/router.rs:75-88 | follows aliases at most eight hops |
| `Router.Collect` | crates/yb-gateway/src/router.rs:246-287 | takes exactly the deployments whose key is new, in the strategy's order |
| `Router.NewOnesInOrder` | crates/yb-gateway/src/router.rs:276-286 | what is taken of an order are the first of each unseen key, at growing positions of that order |
| `Router.Resolve` | crates/yb-gateway/src/router.rs:301-329 | for any ordering of each group, the canonical model's in that order and then each fallback's, each key where it first comes; or no eligible provider exactly when no group has a survivor |
| `Router.ResolutionHolds` | crates/yb-gateway/src/router.rs:246-329 | a resolution holds a deployment's key if and only if some group holds it, and no key twice |
| `Router.HeadLeads` | crates/yb-gateway/src/router.rs:301-313 | the first candidate is the head of the first order that is not empty |
| `Router.KeptResolution` | crates/yb-gateway/src/service.rs:657-674 | filtering a resolution by what a key decides gives, in order, the resolution of the filtered orders |
| `Router.CandidatesAreThePermitted` | crates/yb-gateway/src/service.rs:625-674 | after the access filter the candidates are, in the strategies' order, exactly the permitted, unexcluded deployments of the model and then its fallbacks, one for each key |
| `Router.ListedModelsResolve` | crates/yb-server/src/lib.rs:259-277 | every model that discovery lists under a policy has a candidate under it |
| `RoutingOutcomes.TriedIs` | crates/yb-gateway/src/router.rs:75-88 | a name is tried as the end of its chain of at most eight aliases, with that model's own fallbacks after it |
| `RoutingOutcomes.RoutedIff` | crates/yb-gateway/src/service.rs:625-652 | routing leaves out what the caller's context excludes or its lists deny, and where providers are listed all others |
| `RoutingOutcomes.CandidatesAre` | crates/yb-gateway/src/service.rs:657-674 | the candidates are deployments of the names tried that no list or context of the caller's leaves out, each provider, upstream model and model once, and none of those is missing |
| `Fairness.RoundRobin` | crates/yb-gateway/src/router.rs:225-232 | the order is the rotation that the counter names |
| `Fairness.RotationLeads` | crates/yb-gateway/src/router.rs:225-232 | the counter's residue names who is first, and the others follow in cyclic order |
| `Fairness.ByLoadSorts` | crates/yb-gateway/src/router.rs:233-241 | the least-busy order is by load |
| `Fairness.ByLoadPermutes` | crates/yb-gateway/src/router.rs:233-241 | and holds every survivor as often as it was given |
| `Fairness.ByLoadIsStable` | crates/yb-gateway/src/router.rs:233-241 | equally loaded survivors keep their order in the table |
| `Fairness.CounterIsFair` | crates/yb-gateway/src/router.rs:225-232 | moved by k each time, any m counter values point at each of n survivors floor(m/n) or ceil(m/n) times when k is coprime to n |
| `Fairness.CounterIsUnfair` | crates/yb-gateway/src/router.rs:225-232 | when k is not coprime to n, the first survivor leads twice within one round, more than its share |
| `Fairness.CoprimeIff` | crates/yb-gateway/src/router.rs:225-232 | the condition of both is that k and n have no divisor above 1 in common |
| `Fairness.HeadIsLeast` | crates/yb-gateway/src/router.rs:233-241 | the head of the least-busy order is a survivor no other has less load than |
| `Balance.Balancer.Order` | crates/yb-gateway/src/router.rs:200-243 | one ordering takes the survivors in the strategy's order and moves that model's counters only |
| `Balance.Balancer.Resolve` | crates/yb-gateway/src/router.rs:301-329 | a resolve returns the resolution of the strategy's orders, with the counters of every model tried moved in turn |
| `Balance.LeaderHeads` | crates/yb-gateway/src/router.rs:200-329 | the first candidate a resolve returns is the head of the canonical model's order |
| `Balance.RoundRobinIsFair` | crates/yb-gateway/src/router.rs:225-232 | over any resolves that leave a model alone or lead with it and the same survivors, each survivor is returned first floor or ceil of its share of the leading ones, when a resolve tries the model a number of times coprime to theirs |
| `Balance.RoundRobinIsFairOnce` | crates/yb-gateway/src/router.rs:225-232 | the same without condition for a model that each resolve tries once |
| `Balance.RoundRobinIsUnfair` | crates/yb-gateway/src/router.rs:225-232 | for every call that tries the model another number of times, repeating it for a round breaks the share |
| `Balance.AModelThatFallsBackOnItself` | crates/yb-gateway/src/router.rs:301-313 | a concrete model of two deployments, tried twice in each resolve, that returns the same one first every time |
| `Balance.LeastBusyStaysLevel` | crates/yb-gateway/src/router.rs:233-241 | from level loads, over any resolves of any names that never leave part of the survivors out, their loads stay within one of each other forever |
| `Balance.LeastBusyHeadsLeast` | crates/yb-gateway/src/router.rs:233-241 | a resolve returns first a survivor with the least load, and counts it there |
| `NameRegistry.Store.EnsureModel` | crates/yb-store/src/sqlite.rs:1092-1130 | the tables and the answer are those of one step, whose effect `NameOutcomes.EnsureDoes` states |
| `NameRegistry.Store.RenameModel` | crates/yb-store/src/sqlite.rs:1132-1210 | the tables and the answer are those of one step, whose effect `NameOutcomes.RenameDoes` states; names stay unique |
| `NameRegistry.Store.CreateAlias` | crates/yb-server/src/admin.rs:1531-1576 | the tables and the answer are those of one step, whose effect `NameOutcomes.CreateAliasDoes` states |
| `NameRegistry.Store.DeleteAlias` | crates/yb-server/src/admin.rs:1579-1594 | only that alias goes |
| `NameRegistry.Store.Reload` | crates/yb-gateway/src/router.rs:171-179 | the snapshot serves each name what the tables say |
| `NameRegistry.StepKeepsClean` | crates/yb-store/src/sqlite.rs:1092-1210 | every operation keeps names unique, no alias equal to a model name and every alias on a model |
| `NameRegistry.NameStaysIff` | crates/yb-store/src/sqlite.rs:1092-1210 | a name stays its model's across an operation if and only if the operation does not delete or repoint it |
| `NameRegistry.NamesOutliveRenames` | crates/yb-store/src/sqlite.rs:1092-1210 | over every sequence of operations, every name a model ever had stays its own until its alias is deleted or repointed |
| `NameRegistry.NamesServeTheirModel` | crates/yb-gateway/src/router.rs:75-88 | after a reload any name settles in one hop and is served by its model's own deployments; a name of no model is served by none |
| `NameOutcomes.RenameDoes` | crates/yb-store/src/sqlite.rs:1132-1210 | a rename is Ok if and only if the model exists and the new name is no other's, as a name or an alias; then the model has the new name, the old one is its alias, and no other model or alias moved; otherwise nothing changed |
| `NameOutcomes.EnsureDoes` | crates/yb-store/src/sqlite.rs:1092-1130 | a name is ensured if and only if it is no alias; then a model has it, a new one only if none had, and nothing else moved |
| `NameOutcomes.PublicNameIff` | crates/yb-server/src/admin.rs:1273-1292 | a name is what remains of a text without the space around it, if that is 1 to 200 characters and none an ASCII control character |
| `NameOutcomes.CreateAliasDoes` | crates/yb-server/src/admin.rs:1531-1576 | exactly when creating an alias is a bad request, finds no target, conflicts or is Ok; when Ok the alias is the target's model's and nothing else moved, otherwise nothing changed |
| `NameOutcomes.DeleteAliasDoes` | crates/yb-server/src/admin.rs:1579-1594 | the alias is nobody's afterwards, and nothing else moved |
| `RateLimit.TakeSlot` | crates/yb-core/src/ratelimit.rs:122-151 | concurrency before rate, and a slot taken exactly when allowed |
| `RateLimit.Limiter.Check` | crates/yb-core/src/ratelimit.rs:110-157 | only the named scope changes; calls in flight stay the live guards of each scope |
| `RateLimit.Limiter.Release` | crates/yb-core/src/ratelimit.rs:217-227 | dropping a guard gives back its own slot, and the floor at zero is never met |
| `RateLimit.Limiter.ChargeTokens` | crates/yb-core/src/ratelimit.rs:161-178 | a charge is always taken, into debt if need be |
| `RateLimit.Limiter.TpmExhausted` | crates/yb-core/src/ratelimit.rs:180-199 | refused exactly when less than one token is held, with a wait of the time for one token and at least a second |
| `RateLimit.RefillOnTheWay` | crates/yb-core/src/ratelimit.rs:65-69 | refilling on the way never adds, and costs nothing if and only if the odd parts of the two spans make up no millisecond or the bucket is full without it |
| `RateLimit.RunIsSound` | crates/yb-core/src/ratelimit.rs:110-199 | in every run, whatever the clock does, request tokens never go below zero and calls in flight never above the limit |
| `RateLimit.AdmissionBound` | crates/yb-core/src/ratelimit.rs:54-157 | in every run and for every clock, the calls let in during a stretch number at most rpm plus what the rate brings in the clock's moves forward |
| `RateLimit.AdmissionInWindow` | crates/yb-core/src/ratelimit.rs:54-157 | for a clock that never goes back, at most rpm plus rate times the window's length |
| `RateLimit.ClockStepBackOverAdmits` | crates/yb-core/src/ratelimit.rs:65-69 | with a clock that steps back, three calls in a window whose bound is two |
| `RateLimit.RetryAfterIsExact` | crates/yb-core/src/ratelimit.rs:71-81 | with nobody let in since, a refused caller is refused again if and only if the whole milliseconds between the refusals since then add up to less than the refill; the wait told is that time if and only if the rate is at least 1e-9 |
| `RateLimit.BackAfterTheWait` | crates/yb-core/src/ratelimit.rs:65-81 | a refused caller that is the next to come back is let in if and only if the whole milliseconds since are its told wait or more, so a millisecond more is always enough; at rates of at least 1e-9 |
| `RateLimit.ACallerBackTooSoon` | crates/yb-core/src/ratelimit.rs:65-81 | at seven calls a minute, a caller back after the wait it was told that is refused again |
| `RateLimit.RefusalsCostNothingIff` | crates/yb-core/src/ratelimit.rs:65-69 | all the time is credited or odd, so refusals on the way cost nothing if and only if the odd parts make up less than a millisecond |
| `RateLimit.ImpatientStarves` | crates/yb-core/src/ratelimit.rs:65-81 | a key polled every 0.9 milliseconds is refused for ever |
| `RateLimit.ATooShortWait` | crates/yb-core/src/ratelimit.rs:71-81 | a caller that returns after the wait it was told and is refused again |
| `RateLimit.TokenBound` | crates/yb-core/src/ratelimit.rs:161-199 | whenever a request is let through, for every clock, the tokens charged in any stretch up to then are at most tpm - 1 plus what the rate brings in the clock's moves forward, however large single charges were |
| `RateLimit.TokensInWindow` | crates/yb-core/src/ratelimit.rs:161-199 | for a clock that never goes back, at most tpm - 1 plus rate times the window's length |
| `LimitNumbers.RateFills` | crates/yb-core/src/ratelimit.rs:54-63 | the rate fills an empty bucket in one window; a window below a millisecond counts as one |
| `LimitNumbers.CheckDoes` | crates/yb-core/src/ratelimit.rs:110-157 | busy if and only if a limit of calls is met; let in if and only if, besides, a token is there or requests are not limited, and then it is taken; otherwise told the exact wait |
| `LimitNumbers.ChargeDoes` | crates/yb-core/src/ratelimit.rs:161-178 | a charge takes exactly its tokens from what is there |
| `LimitNumbers.ExhaustedIff` | crates/yb-core/src/ratelimit.rs:180-199 | the tokens are found exhausted if and only if less than one is there |
| `LimitNumbers.TokenWait` | crates/yb-core/src/ratelimit.rs:180-199 | the wait told is the time one token takes, at least a second |
| `LimitNumbers.RunHolds` | crates/yb-core/src/ratelimit.rs:110-227 | in every run calls in flight are never negative nor above their limit, request tokens never negative, and a dropped guard gives back one |
| `LimitNumbers.Burst` | crates/yb-core/src/ratelimit.rs:110-157 | from nothing exactly rpm calls are let in at one instant, and the next is refused |
| `Calendar.OneDate` | crates/yb-core/src/spend.rs:64-85 | counting days is reversible: a day has one date |
| `CalendarDays.DatesFollow` | crates/yb-core/src/spend.rs:64-85 | day 0 is 1970-01-01 and each day is the one after the last, months and leap years as in the Gregorian calendar |
| `Calendar.DateTextOrder` | crates/yb-store/src/sqlite.rs:36-38 | the text order of UTC midnights in the years 0 to 9999 is the order of dates |
| `CalendarDays.TextIs` | crates/yb-store/src/sqlite.rs:36-38 | a midnight is written as four digits of the year, two of the month, two of the day, and T00:00:00+00:00 |
| `Spend.BucketLaws` | crates/yb-core/src/spend.rs:64-85 | every bucket starts at a UTC midnight at or before its times; bucketing is monotone and idempotent |
| `Spend.BucketsAreWhatTheySay` | crates/yb-core/src/spend.rs:64-85 | a week starts on the Monday at most six days back, a month on the first of the same month |
| `CalendarDays.PeriodsBegin` | crates/yb-core/src/spend.rs:64-85 | a day's bucket is its midnight, a week's that of the Monday at most six days back, 1970-01-05 being one, a month's that of its first, and the total's the beginning of 1970 |
| `Spend.MidnightsSplitDays` | crates/yb-core/src/spend.rs:64-85 | a day's bucket is at or after a midnight if and only if its times are |
| `Spend.Ledger.UpsertRollup` | crates/yb-store/src/sqlite.rs:801-826 | for every subject and start the sums grow by the delta's share; keys stay unique |
| `Spend.Ledger.FinishTurn` | crates/yb-gateway/src/service.rs:958-988 | after any turn, at any midnight, the rows of every subject sum to what its turns came to |
| `Spend.Ledger.PeriodSpend` | crates/yb-store/src/sqlite.rs:830-848 | the spend reported is the sum of the costs of the subject's turns at or after the period's start |
| `Spend.Ledger.EnforceBudgets` | crates/yb-server/src/lib.rs:705-742 | blocked if and only if some blocking budget's own turns since its period began came to its limit |
| `Spend.PeriodAgrees` | crates/yb-store/src/sqlite.rs:828-848 | the same for all four totals, however often the start is bucketed |
| `Spend.HistoryOfOne` | crates/yb-gateway/src/service.rs:958-988 | a turn counts for its key, its user and its team, from its time on |
| `Spend.HistoryAdds` | crates/yb-store/src/sqlite.rs:801-826 | turns add up, cost, requests, input and output each by itself |
| `Spend.TotalIsLifetime` | crates/yb-core/src/spend.rs:66-66 | turns from 1970 on all count towards the total |
| `Spend.TextOrderIsTimeOrder` | crates/yb-store/src/sqlite.rs:801-848 | comparing and matching starts as text is comparing and matching times in the years 0 to 9999 |
| `CardRedaction.SumOfChanged` | crates/yb-redact/src/lib.rs:183-206 | changing one digit changes the Luhn sum by the change of that digit's part |
| `CardRedaction.OneWrongDigitFails` | crates/yb-redact/src/lib.rs:183-206 | no two numbers that differ in one digit both pass the check |
| `CardNumbers.LuhnIff` | crates/yb-redact/src/lib.rs:183-206 | a text passes if and only if it has 13 to 19 digits and ten divides the sum over places from the right, the digit in even places and its double, less nine when over nine, in odd ones |
| `CardNumbers.CheckDigit` | crates/yb-redact/src/lib.rs:183-206 | of the texts that complete a payload, exactly the one with check digit (10 - S mod 10) mod 10 passes |
| `CardNumbers.OneWrongDigit` | crates/yb-redact/src/lib.rs:183-206 | no two texts that differ in one digit both pass |
| `CardRedaction.DocumentedTakenIff` | crates/yb-redact/src/lib.rs:99-147 | of the windows of several groups of 3 to 6 digits, exactly those of five shapes that pass the check are taken |
| `CardRedaction.ACardThatIsNotTaken` | crates/yb-redact/src/lib.rs:99-147 | a window of groups of 3, 5 and 5 digits that passes the check and is not taken |
| `CardNumbers.TakenIff` | crates/yb-redact/src/lib.rs:99-147 | a window is taken if and only if it passes and is one group of 13 to 19 digits, 4-6-4, 4-6-5, or three groups of four and one of 1 to 4, or four and one of 1 to 3 |
| `CardNumbers.ACardThatIsTaken` | crates/yb-redact/src/lib.rs:122-149 | 4111 1111 1111 1111 is a card |
| `CardNumbers.SameGroups` | crates/yb-redact/src/lib.rs:107-121 | a text has one list of digit groups |
| `CardRedaction.DigitGroups` | crates/yb-redact/src/lib.rs:107-121 | the groups are the maximal digit runs, in order |
| `CardRedaction.Join` | crates/yb-redact/src/lib.rs:142-147 | a window is joined or appended: all is still covered, apart, and nothing else taken |
| `CardRedaction.FindFrom` | crates/yb-redact/src/lib.rs:124-148 | every card window that starts at the group is covered; stopping past 19 digits misses none |
| `CardRedaction.FindCards` | crates/yb-redact/src/lib.rs:122-149 | the spans cover every window of whole groups that is a card, and only positions of such windows |
| `CardRedaction.StretchEnd` | crates/yb-redact/src/lib.rs:150-163 | one ascending pass is enough: the end is the least that no phone number starting at a group inside sticks out of |
| `CardRedaction.StretchStart` | crates/yb-redact/src/lib.rs:164-169 | the start is that of the phone number the span cuts, or its own when it cuts none |
| `CardRedaction.Dedup` | crates/yb-redact/src/lib.rs:171-178 | sorted spans that touch are joined: strictly apart, all covered, nothing added |
| `CardRedaction.Card` | crates/yb-redact/src/lib.rs:106-180 | spans in range, sorted, strictly apart, and exactly the positions of the joined card windows, each stretched to the least end no phone number sticks out of and back over one it cuts; no span begins inside a phone number |
| `CardRedaction.Splice` | crates/yb-redact/src/lib.rs:217-229 | exactly the text outside the spans, in order, with one marker for each span |
| `CardRedaction.RedactRun` | crates/yb-redact/src/lib.rs:208-234 | no position of a card window keeps its character, and each outside cards and phone numbers does |
| `CardNumbers.RedactACard` | crates/yb-redact/src/lib.rs:208-234 | whatever the phone pattern finds, 4111 1111 1111 1111 is replaced by one marker and none of it is left |
| `Utf8.DecodeEncoded` | crates/yb-wire/src/media.rs:150-155 | the bytes of a text read back as it |
| `FormNames.BytesIff` | crates/yb-wire/src/media.rs:157-168 | a character's bytes are those of the shortest form that stands for its number |
| `Multipart.Find` | crates/yb-wire/src/media.rs:112-118 | the first place the needle stands at or after a position, or none when there is none |
| `Multipart.MultipartSpan` | crates/yb-wire/src/media.rs:121-148 | the walk ends, at the first part that names the field |
| `Multipart.ReplaceField` | crates/yb-wire/src/media.rs:157-168 | only the value's bytes change, and nothing when the field is not found |
| `Multipart.ReadsBackIff` | crates/yb-wire/src/media.rs:112-168 | for a value closed by its own line break, a trimmed text put in its place reads back as itself if and only if it does not hold the delimiter |
| `Multipart.OtherFieldsKept` | crates/yb-wire/src/media.rs:112-168 | every field that the changed part does not name reads as before |
| `Multipart.OnePartFound` | crates/yb-wire/src/media.rs:121-155 | in every one-part form whose header and value do not hold the delimiter, the walk finds the part, closed, and its value is the one put in |
| `FormNames.QuotedNames` | crates/yb-wire/src/media.rs:130-137 | a part whose one header line holds the name in quotes names that field and no other, but for the one whose name has quotes of its own |
| `FormNames.AFormField` | crates/yb-wire/src/media.rs:130-137 | in particular one that says Content-Disposition: form-data |
| `Multipart.AValueThatIsCut` | crates/yb-wire/src/media.rs:112-168 | a concrete form and a value holding the delimiter that does not read back |

## Left out

- The OpenAI Chat and Responses translators, request and whole-response parsing and writing: many mappings, each shallow; writing a response is a function that may fail.
- Bytes of streams: streams and JSON are text; bytes that are not UTF-8 are replaced before a line is decoded, and a character cut between two chunks is whole again once its line is.
- serde_json's float rounding and recursion limit: floats are kept as their literals.
- Token counts: they are 32-bit as decoded, and their totals in a Gemini finish chunk may wrap, which no reader of the model uses.
- Thinking signatures and blocks other than text, thinking and tool calls: the aggregator does not produce them.
- Cancellation inside the awaits of `finish` and `fail`, failed store writes, and idle timeouts as time: recording is one step that succeeds, and a stall is a failed read.
- Redaction policy, truncation and the bounded queue in front of the log worker: a record is what reaches the worker.
- Ordering of exported turns by time, and the roll hook: an export is a list of rows, each once.
- RequestLog.Worker.Flush: a failed transaction is a step of its own that loses the buffered records and the ids drawn.
- RequestLog.Worker.Prune: it is told the directory's shards, all of them; files that cannot be listed count as ones that cannot be removed.
- RequestLog.Worker.Export: its query reads table and shards at one instant, after it looked for shards; the second attempt after a failed query is not modelled.
- Interleavings of concurrent admin calls: each store operation is one atomic step, though creating an alias checks and writes in two.
- Import's unchecked alias seeding, and the fallback table's names, which renames do not follow.
- Router.Resolve: the weighted shuffle is any ordering of a group; its random keys are not modelled.
- Balance.RoundRobinIsFair: does not model the wrap-around of the 64-bit counter, nor resolves of other models that fall back on this one in between.
- Embedding and media dispatch, headers, URLs and credentials: one request, no failover of another kind.
- Dispatch.Handle: request parsing comes before the turn begins and leaves no record; the error's text is left out, its status kept.
- f64 rounding in buckets, waits and prices: amounts are reals.
- Spend.Ledger.FinishTurn: the cost of a turn is given, and i64 overflow of sums is not modelled.
- Spend.TextOrderIsTimeOrder: a year above 9999 is written with a sign and sorts first.
- The regular expressions, the other redaction rules, and the walk over JSON bodies: the phone pattern is whatever it finds, within the run.
- The Postgres store: the same operations on the same tables.
