# A model of cpp2sky, in Dafny

cpp2sky traces requests and reports the traces to SkyWalking. This project models the four parts its data goes
through, and proves what they keep.

- **The reporter** (`ReporterProtocol`, `ReporterInvariant`, `ReporterSafety`, `ReporterProgress`, `ReporterAlone`,
  `ReporterLimits`, `ReporterRest`, `ReporterWedge`, `ReporterClient`, `ValueBuffer`). Any number of producer threads
  call `sendMessage`, one thread runs the callbacks of the completion queue, and one calls `resetClient`.
  `ReporterProtocol` is the transition system with one step for every access to a shared variable; an assertion of the
  source that failed, or a null stream that was used, would set `faulted`. Atomic operations are sequentially
  consistent, as the source leaves them. The completion queue gives back what was posted, in any order and with any
  outcome. `ReporterInvariant` is one inductive invariant: the right to operate on the stream is a single token.
  `ReporterSafety` draws the results for every reachable state, `ReporterProgress` composes undisturbed calls and
  callbacks out of steps, `ReporterAlone` shows that every run without calls is such a composition, `ReporterLimits`
  treats the two promises that interleaving bends, `ReporterRest` bounds every run and says where it rests,
  `ReporterWedge` says which stranded messages are lost. `ReporterClient` has the objects of the source, each method
  proved to do what that composition does.
- **The codec** (`Bytes`, `Base64`). The streaming encoder and decoder are proved equal to the block specification of
  section 4 of RFC 4648, with the zero pad bits of section 3.5, and inverse to each other.
- **The header** (`Decimal`, `Propagation`). The sw8 header, its parser and the round trip.
- **Contexts and spans** (`Segment`, `ContextModel`, `SpanHistory`, `TracingContext`, `RandomGenerator`, `Tracer`,
  `Hops`, `Chain`). `ContextModel` says on values what each call does and what every sequence of calls keeps,
  `SpanHistory` reads every record off the calls alone; `TracingContext` has the objects, with handles and records
  shared as in the source; `RandomGenerator` the buffered UUIDs; `Tracer` the gate to the reporter; `Hops` a trace
  through a chain of processes, and `Chain` the same on objects.

Bytes are the integers 0 to 255, shifts and masks are quotients and remainders, and `Bytes.Or` is the bitwise operator.
The two Base64 tables are written by their ranges. An exception is a `Failure`. Random bytes, timestamps and the
outcomes of stream operations are arguments; a thread's UUID buffer is an object.

Three results differ from what one may expect of the code. A message that is pushed between the empty pop and the
release of the flag in `sendMessageOnce` can be left waiting while the event loop is idle: `WorkConservation` and
`StrandingSchedule` say exactly by which schedules, and `StrandedIsReachable` gives the run. If at most 1024 messages
are left so, the next call that is not disturbed writes the oldest (`StrandedIsRecovered`). If more are left, and no
producer is between its size check and its push, the state is permanent until a reset: every later call finds the
buffer too full, drops its message and returns before it tries the flag, and nothing is written again
(`WedgedIsReachable`, `WedgedForever`, with the exact condition in `StrandedCanWrite`). And the limit of 1024 waiting
messages is checked before the push and with `>`: with n producers the buffer reaches 1024 + n messages, and no more.
The comment above `event_loop_idle_` is confirmed as it stands.

## Model

| member | source | states |
|---|---|---|
| ReporterSafety.SingleToken | source/grpc_async_client_impl.cc:108-188 | In every reachable state before a reset exactly one holds: the flag is true and nothing is outstanding; one operation is outstanding and no thread owns the stream; one thread owns it, and is the only one. |
| ReporterSafety.AtMostOneToken | source/grpc_async_client_impl.h:115-121 | With a reset under way or done, still no two threads own the stream, and an owner excludes the flag and outstanding operations. |
| ReporterSafety.OperationsNeverOverlap | source/grpc_async_client_impl.h:152-158 | Operations on streams are done one by one: at most one is outstanding, and one is posted only when none is. |
| ReporterSafety.AssertionsHold | source/grpc_async_client_impl.cc:128-158 | The assertions on the flag and on the stream never fail, on any interleaving, and no null stream is used. |
| ReporterSafety.NoStreamRace | source/grpc_async_client_impl.cc:155-193 | Two threads are never both about to read or write the pointer `active_stream_`, the resetting thread included. |
| ReporterSafety.RestsOnlyIdle | source/grpc_async_client_impl.cc:108-207 | Before a reset, if no step of the reporter is possible, then it is idle with nothing outstanding and every thread is outside: the token is never lost. |
| ReporterSafety.StreamDiscipline | source/grpc_async_client_impl.cc:108-188 | Over whole runs: a Write follows an ok StartCall of its stream, every posted operation returns before the next, streams are used in order, and a stream on which anything failed is never used again. |
| ReporterSafety.FifoDelivery | source/grpc_async_client_impl.cc:155-207 | Messages written, then the popped one, then those waiting, then those cleared by a reset are the messages pushed, in push order, across any number of stream restarts. |
| ReporterSafety.WrittenInOrder | source/grpc_async_client_impl.cc:155-207 | The i-th message written is the i-th message pushed: none twice, none out of order. |
| ReporterSafety.RefinesQueue | source/grpc_async_client_impl.cc:155-207 | Each interleaved step is a push, a take into an empty slot, a serve, a clear, or nothing, of a queue with a one-slot server. |
| ReporterSafety.CounterConservation | source/grpc_async_client_impl.cc:134-207 | At every point, the total is dropped + sent + waiting + popped + outstanding Writes + returned and uncounted + producers before push or drop + cleared. |
| ReporterSafety.EachCounterCounts | source/grpc_async_client_impl.cc:134-207 | At every point, sent is the number of Writes that came back ok, and dropped the number of Writes that failed plus the messages a full buffer turned away; each short by one exactly while that Write is being counted. |
| ReporterSafety.ShutdownAccounting | source/grpc_async_client_impl.h:115-121 | After `resetClient`, every message counted was dropped, sent or cleared, those pushed were written or cleared, and no step is possible any more. |
| ReporterSafety.SizeBound | source/grpc_async_client_impl.cc:195-204 | With n producers, waiting messages and producers committed to push are at most 1024 + n. |
| ReporterLimits.SizeBoundIsReached | source/grpc_async_client_impl.cc:195-204 | For every n > 0 a run with n producers reaches 1024 + n waiting messages. |
| ReporterLimits.BufferSincePop | source/grpc_async_client_impl.cc:155-169 | From a thread's empty pop to its release of the flag, the buffer is exactly what was pushed since that pop. |
| ReporterLimits.StrandingSchedule | source/grpc_async_client_impl.cc:155-169 | For every run in which a thread pops nothing, others step, and the thread releases: the release strands messages if and only if one of those steps was a push and every arrival at the compare-and-swap in the run was followed by that thread's compare-and-swap. |
| ReporterLimits.WorkConservation | source/grpc_async_client_impl.cc:155-169 | Along every run, waiting messages are looked after at every point if and only if the schedule has no late release: one before a reset, after a push since the releasing thread's pop, and with no thread between its arrival at the compare-and-swap and the compare-and-swap. The condition is on the sequence of steps alone. |
| ReporterLimits.OneStepConservesWork | source/grpc_async_client_impl.cc:160-165 | If the empty pop and the release are never separated, waiting messages are always looked after. |
| ReporterLimits.StrandedIsReachable | source/grpc_async_client_impl.cc:155-169 | One producer and the event loop reach a state with a message waiting, the flag true and every thread outside. |
| ReporterLimits.StrandedIsStuck | source/grpc_async_client_impl.cc:155-207 | From such a state only a new call from outside is possible. |
| ReporterLimits.StrandedIsRecovered | source/grpc_async_client_impl.cc:195-207 | The next undisturbed `sendMessage` hands the oldest message to Write and queues its own last if it finds at most 1024 messages, and otherwise only drops its own. |
| ReporterWedge.StrandedCanWrite | source/grpc_async_client_impl.cc:155-207 | From any reachable state with stranded messages, some run without a reset writes a message if and only if at most 1024 wait or some producer has passed the size check and not yet pushed. |
| ReporterWedge.WedgedForever | source/grpc_async_client_impl.cc:195-204 | Otherwise every run without a reset consists of calls that are counted and turned away: the total grows by the calls, dropped by one for each call that returns, and nothing else changes, neither the flag nor the stream, the buffer or any event. |
| ReporterWedge.WedgedIsCleared | source/grpc_async_client_impl.h:115-121 | From there no run at all, with or without a reset, writes a message, and a reset clears exactly what waited. |
| ReporterWedge.WedgedIsReachable | source/grpc_async_client_impl.cc:155-207 | For every number n > 0 of producers such a state is reached, with 1025 messages waiting and every thread outside. |
| ReporterWedge.WedgingStep | source/grpc_async_client_impl.cc:155-169 | The only step into such a state is a late release over more than 1024 messages while no producer is between its size check and its push. |
| ReporterWedge.WedgingSchedule | source/grpc_async_client_impl.cc:155-169 | On every run, such a step is a late release of the schedule that comes after more than 1024 pushes since the releasing thread's pop. |
| ReporterProgress.SendIsRun | source/grpc_async_client_impl.cc:155-207 | An undisturbed `sendMessage`, whatever the other threads are in the middle of, is a run of steps with the stated effect. |
| ReporterProgress.SendsClosedForm | source/grpc_async_client_impl.cc:195-207 | Of undisturbed calls in a row, the first 1025 - b are pushed when b messages wait, one more if the flag was true, none if b is above 1024; the others are counted and dropped. |
| ReporterProgress.EventIsRun | source/grpc_async_client_impl.cc:108-188 | An undisturbed callback, for both kinds of operation and both outcomes, is a run of steps with the stated effect. |
| ReporterProgress.ResetIsRun | source/grpc_async_client_impl.h:115-121 | `resetClient` with the callback it waits for is a run of steps with the stated effect. |
| ReporterProgress.ScriptClosedForm | source/grpc_async_client_impl.cc:108-145 | What the callbacks, one after the other, make of a finite script of outcomes with k successes and n messages waiting: the first min(n, k) leave the buffer, and the event loop is idle exactly if k = n + 1. |
| ReporterProgress.ScriptCounters | source/grpc_async_client_impl.cc:134-145 | Over the same scripts, sent grows by the Writes answered ok and dropped by the Writes answered with failure; a failed StartCall costs nothing. |
| ReporterProgress.ScriptWritesInOrder | source/grpc_async_client_impl.cc:155-188 | Over the same scripts, the messages written are those min(n, k), in order, across stream restarts. |
| ReporterProgress.Drain | source/grpc_async_client_impl.cc:108-169 | With n + 1 successes everything that waits is written and the event loop is idle. |
| ReporterProgress.PlayIsReachable | source/grpc_async_client_impl.cc:42-63 | What the event loop makes of a script is a state the interleaved protocol reaches. |
| ReporterAlone.AloneStep | source/grpc_async_client_impl.cc:108-188 | With only the event loop at work, every step inside a callback keeps what the callback comes to, and taking the next operation comes to the whole callback. |
| ReporterAlone.EveryRunIsPlay | source/grpc_async_client_impl.cc:42-63 | Every run without calls, from a state with nobody in the middle of anything, is the play of the outcomes it returned, exactly so whenever the event loop waits, and up to the rest of its callback otherwise. |
| ReporterAlone.RunClosedForm | source/grpc_async_client_impl.cc:108-188 | For every run without calls, from a state with an operation outstanding and nobody in the middle of anything, that ends with the event loop waiting: with k successes and n messages waiting at first, the first min(n, k) were written in order, the others wait, the event loop is idle exactly if k = n + 1, and sent and dropped grew by the Writes answered ok and with failure. |
| ReporterRest.RunIsBounded | source/grpc_async_client_impl.cc:108-207 | Every run from any state is at most as long as the work that was due, plus 13 steps for a call and 6 for a failed operation: with finitely many of these it ends. |
| ReporterRest.TotalIsCalls | source/grpc_async_client_impl.cc:195-197 | On every run the total is the number of calls made. |
| ReporterRest.RestsEmptyOrLate | source/grpc_async_client_impl.cc:108-207 | Before a reset, a run after which only new calls are possible ends idle with nothing outstanding; if no message waits then, every message pushed was written, and if one does, its schedule has a late release. |
| ReporterWedge.RestIsOneOfThree | source/grpc_async_client_impl.cc:108-207 | Where such a run can end: with everything written; or after a late release with at most 1024 messages, and then some later call gets one written; or with more than 1024, and then none ever does. |
| ReporterRest.ResetFinishes | source/grpc_async_client_impl.h:115-121 | Once `resetClient` has set its flag, every run is at most 12 steps long, whatever the outcomes, and no step is possible exactly when the reset is through. |
| ReporterClient.TraceAsyncClient.constructor | source/grpc_async_client_impl.cc:101-153 | The client starts in the initial state: one StartCall outstanding, the flag false, all counters zero. |
| ReporterClient.TraceAsyncClient.SendMessage | source/grpc_async_client_impl.cc:195-207 | The new state is the one that `SendIsRun` proves of the protocol: with at most 1024 messages waiting the message is pushed, and the oldest written if the flag was true; with 1025 or more it is counted as dropped, and the buffer, the queue and the flag stay. |
| ReporterClient.TraceAsyncClient.SendMessageOnce | source/grpc_async_client_impl.cc:155-169 | Nothing if the flag is taken or nothing waits; otherwise the oldest message is the outstanding Write. |
| ReporterClient.TraceAsyncClient.StartStream | source/grpc_async_client_impl.cc:171-188 | A new stream replaces the active one and its StartCall is outstanding. |
| ReporterClient.TraceAsyncClient.OnBasicEvent | source/grpc_async_client_impl.cc:108-132 | The callback after a reset, after a success and after a failure, given the assertion on the flag. |
| ReporterClient.TraceAsyncClient.OnWriteEvent | source/grpc_async_client_impl.cc:134-145 | A Write is counted as sent or dropped, also after a reset, before the common callback. |
| ReporterClient.TraceAsyncClient.Gogo | source/grpc_async_client_impl.cc:42-63 | The event loop over a script of outcomes ends in the state that the closed form is about. |
| ReporterClient.TraceAsyncClient.ResetClient | source/grpc_async_client_impl.h:115-121 | The object's new state is the one that `ResetIsRun` proves of the protocol. |
| ReporterClient.TraceAsyncStream.SendMessage | source/grpc_async_client_impl.cc:82-84 | A Write of this stream is posted. |
| ValueBuffer.ValueBuffer.PopFront | source/utils/buffer.h:29-37 | The oldest value leaves, or nothing if there is none. |
| ValueBuffer.ValueBuffer.PushBack | source/utils/buffer.h:42-45 | The value joins at the end. |
| ValueBuffer.ValueBuffer.Clear | source/utils/buffer.h:66-69 | Nothing remains. |
| Base64.SextetsAreDigits | source/utils/base64.h:108-125 | The four 6-bit groups are the base-64 digits of the 24-bit number of the three bytes. |
| Base64.OctetsAreDigits | source/utils/base64.h:57-82 | The three bytes are the base-256 digits of the 24-bit number of the four 6-bit groups. |
| Base64.TablesAreInverse | source/utils/base64.h:40-54 | The two tables are inverse to each other, and neither `=` nor `-` is in the alphabet. |
| Base64.TableIsAlphabet | source/utils/base64.h:40-41 | The table is the alphabet of RFC 4648, written out, symbol by symbol. |
| Base64.EmittedSnoc | source/utils/base64.h:108-125 | At every prefix, the output and the carried bits of the encoder agree with three-byte grouping, and each case of `encodeBase` extends both. |
| Base64.EmittedThenCarry | source/utils/base64.h:127-146 | Closing the carried bits gives the block specification, with and without padding. |
| Base64.EncodeBase | source/utils/base64.h:108-125 | One byte more: output and carry of the longer prefix. |
| Base64.EncodeLast | source/utils/base64.h:127-146 | From the state of the whole input to its encoding. |
| Base64.Encode | source/utils/base64.h:148-164 | The streaming encoder returns the block encoding. |
| Base64.EncodedShape | source/utils/base64.h:108-164 | An encoding is alphabet symbols and at most two `=`, contains no `-`, and is (n + 2) / 3 * 4 long when padded. |
| Base64.OpenedSnoc | source/utils/base64.h:57-106 | At every prefix, the decoder's bytes agree with four-symbol grouping, each case of `decodeBase` extends them, and `decodeLast` accepts exactly the canonical endings. |
| Base64.DecodeBase | source/utils/base64.h:57-82 | One symbol more, or refusal of a byte outside the alphabet. |
| Base64.DecodeLast | source/utils/base64.h:84-106 | Accepts exactly if the whole is a canonical encoding, and then holds its value. |
| Base64.DecodeWithoutPadding | source/utils/base64.h:166-204 | The streaming decoder returns the block decoding, also for `=` and `==` where the last index wraps, and its size assertion holds. |
| Base64.DecodedLength | source/utils/base64.h:181-202 | The value of a canonical encoding has the length computed beforehand. |
| Base64.RoundTrip | source/utils/base64.h:148-204 | Decoding an encoding gives the bytes back, for every byte string and both padding modes. |
| Base64.CanonicalAcceptance | source/utils/base64.h:166-204 | For every input and every non-empty value: the decoder returns it if and only if the input is its unpadded encoding with no, one or two bytes 0x3D behind it. |
| Base64.EncodedDigits | source/utils/base64.h:108-164 | Every symbol of an encoding, by its place: symbol j of group g is the alphabet's symbol for the jth base-64 digit of the group's 24-bit number, zero-filled. |
| Base64.EncodedPadding | source/utils/base64.h:127-146 | n bytes have (4n + 2) / 3 symbols, and behind them two bytes 0x3D if n mod 3 is 1, one if it is 2, none otherwise. |
| Base64.TestVectors | source/utils/base64.h:148-204 | The test vectors of section 10 of RFC 4648, as bytes. |
| Decimal.AtoiOfToString | source/propagation_impl.cc:73-76 | Printing and parsing an int32 gives it back. |
| Decimal.PrintedForm | source/tracing_context_impl.cc:200 | A number prints as its decimal digits in order, after 0x2D if it is negative. |
| Decimal.AtoiExactly | source/propagation_impl.cc:73-76 | Blanks, an optional sign, digits and blanks are accepted exactly if the number is an int32, and give that number. |
| Decimal.AtoiAccepts | source/propagation_impl.cc:73-76 | Nothing else is accepted. |
| Decimal.UnsignedAtoi | source/propagation_impl.cc:73-76 | Without a minus sign the parsed number is not negative. |
| Propagation.JoinSplit | source/propagation_impl.cc:42-55 | Joining the fields restores the header. |
| Propagation.PiecesAreDashFree | source/propagation_impl.cc:42-55 | No field contains a separator. |
| Propagation.SplitJoin | source/propagation_impl.cc:42-55 | Splitting what was joined from separator-free fields gives the fields. |
| Propagation.SplitFields | source/propagation_impl.cc:37-60 | On every header: the loop stores past its array exactly if the last byte is the (count)th separator; otherwise it returns the split if that has the expected number of fields, and throws if not. |
| Propagation.PastFieldsExactly | source/propagation_impl.cc:42-55 | The loop ends past the field array exactly for a header whose last byte is its (count)th separator. |
| Propagation.PastFieldsShape | source/propagation_impl.cc:42-55 | Those are the headers made of the right number of fields and one separator more at the end. |
| Propagation.PastFieldsWitnesses | source/propagation_impl.cc:85-105 | The header `-` is one for the extension, and any printed header followed by `-` is one for the span context. |
| Propagation.ParseSpanContext | source/propagation_impl.cc:37-83 | On every header, the constructor yields the fields decoded one by one, or the error of the first check that fails, or the store past the array. |
| Propagation.ParseSpanContextExtension | source/propagation_impl.cc:85-119 | The header `0` is default mode, `1` is skip mode, anything else is an error or the store past the array. |
| Propagation.ParserAcceptance | source/propagation_impl.cc:37-76 | A header is accepted if and only if it has seven bytes 0x2D, starts with `0-` or `1-`, and has an int32 as its fourth field. |
| Propagation.ParserErrors | source/propagation_impl.cc:37-76 | Which error every other header gives, by the first check that fails, or the store past the array. |
| Propagation.AcceptedFields | source/propagation_impl.cc:57-82 | An accepted header yields, field by field, the value each text is a canonical encoding of, or none, the fourth as a number, and the flag set whichever of `0` and `1` it starts with. |
| Propagation.AcceptedSpanId | source/propagation_impl.cc:57-76 | An accepted header is the join of its fields and carries a span id from 0 to 2^31 - 1. |
| Propagation.PrintedHeader | source/tracing_context_impl.cc:195-215 | A printed header starts with 0x31 0x2D, has seven separators, and the eight fields in the order of the source. |
| Propagation.HeaderRoundTrip | source/tracing_context_impl.cc:195-215 | For all contents of the fields, empty ones and ones with separators included, and every span id from 0 to 2^31 - 1, parsing what was printed succeeds with exactly those values. |
| Propagation.HeaderRoundTripExactly | source/tracing_context_impl.cc:195-215 | Over all int32 span ids the round trip succeeds if and only if the id is not negative. |
| ContextModel.NewContextShape | source/tracing_context_impl.cc:135-147 | A new context has its parent's trace id or the drawn one, the drawn segment id, no span, and is marked for skipping exactly if the extension says so. |
| ContextModel.EntrySpanShape | source/tracing_context_impl.cc:170-184 | Every field of a new entry span: parent -1, type Entry, layer Http, component 9000, the reference to the parent context, the mark of the context. |
| ContextModel.ExitSpanShape | source/tracing_context_impl.cc:162-168 | Every field of a new exit span: the given parent, type Exit, layer Http, component 9000, no reference, the mark of the context. |
| ContextModel.Int32Wraps | source/tracing_context_impl.cc:218 | The id of span n is congruent to n modulo 2^32 and within the int32. |
| ContextModel.TreeOverRuns | source/tracing_context_impl.cc:162-228 | After any sequence of calls that sets no parent by hand, span i has id i, span 0 has parent -1, and every other parent comes before its child, as long as there are at most 2^31 spans, which is what int32 ids can number. |
| ContextModel.PathReachesRoot | source/tracing_context_impl.cc:162-184 | Every chain of parents descends without repetition and ends at span 0. |
| ContextModel.ContextOverRuns | source/tracing_context_impl.cc:170-286 | After any sequence of calls the identity is unchanged, the first span refers to the parent context, spans are numbered in order of creation, and in skip mode every span is marked. |
| ContextModel.FinishedOverRuns | source/tracing_context_impl.cc:37-118 | Over any sequence of calls a finished span stays finished, with its end time, tags, logs, peer, component, parent and id as they were. |
| ContextModel.ReportedIsComplete | source/tracer_impl.cc:54-67 | After any calls, also ones that set parents by hand, a segment that is ready has every span, in creation order, and each span that finished earlier has the data it had then; for at most 2^31 spans. |
| ContextModel.HeaderSentExactly | source/tracing_context_impl.cc:186-193 | A header is sent if and only if the last span is an exit span, finished or not. |
| ContextModel.HeaderAfterExitSpan | source/tracing_context_impl.cc:162-193 | After an exit span was created, and whatever calls follow that set no type, a header is sent. |
| SpanHistory.RecordsAreTold | source/tracing_context_impl.cc:30-228 | After any calls every record is what the calls say: start and end time, name, peer, type, layer, component and parent are the last ones set, or those of creation; tags, logs and references the ones added, in order, with their keys, values and times; error and skip marks set if a call set them; finished exactly if ended. |
| SpanHistory.EndTimeIsArgument | source/tracing_context_impl.cc:88-92 | Whatever else is called, a span whose end was called is finished with the argument of that call as its end time. |
| SpanHistory.MarkedByExtension | source/tracing_context_impl.cc:217-286 | Unless the context is set to skip later, a span is marked exactly if the factory was given the skip extension or the span was marked by hand. |
| SpanHistory.FinishedTakes | source/tracing_context_impl.cc:37-133 | A finished span takes exactly the calls that the source does not check. |
| TracingContext.TracingSpan.StartSpan | source/tracing_context_impl.cc:68-72 | Stores name and start time, and nothing else. |
| TracingContext.TracingSpan.EndSpan | source/tracing_context_impl.cc:88-92 | Stores the given end time and finishes, and changes nothing else; a finished span is excluded, as the source asserts. |
| TracingContext.TracingSpan.SetParentSpanId | source/tracing_context_impl.h:54-57 | Stores the parent id of a span that is not finished, and nothing else. |
| TracingContext.TracingSpan.SetPeer | source/tracing_context_impl.h:66-69 | Stores the peer of a span that is not finished, and nothing else. |
| TracingContext.TracingSpan.SetSpanType | source/tracing_context_impl.h:70-72 | Stores the type, and nothing else. |
| TracingContext.TracingSpan.SetSpanLayer | source/tracing_context_impl.h:73-75 | Stores the layer, and nothing else. |
| TracingContext.TracingSpan.SetErrorStatus | source/tracing_context_impl.h:76 | Sets the error flag, and nothing else. |
| TracingContext.TracingSpan.SetSkipAnalysis | source/tracing_context_impl.h:77 | Sets the skip mark, and nothing else. |
| TracingContext.TracingSpan.SetComponentId | source/tracing_context_impl.cc:106-113 | Stores the component id, and nothing else. |
| TracingContext.TracingSpan.SetOperationName | source/tracing_context_impl.cc:115-118 | Stores the name, and nothing else. |
| TracingContext.TracingSpan.AddLog | source/tracing_context_impl.cc:37-46 | Adds one log entry to a span that is not finished. |
| TracingContext.TracingSpan.AddTag | source/tracing_context_impl.cc:61-66 | Adds one tag to a span that is not finished. |
| TracingContext.TracingSpan.AddSegmentRef | source/tracing_context_impl.cc:120-133 | Adds a cross-process reference to the given context. |
| TracingContext.TracingContext.constructor | source/tracing_context_impl.cc:135-147 | The trace id is the parent's or a new UUID, the segment id always a new one, drawn in that order. |
| TracingContext.TracingContext.CreateSpan | source/tracing_context_impl.cc:217-228 | A new handle on a new record; the handles and records before it are the same objects. |
| TracingContext.TracingContext.CreateExitSpan | source/tracing_context_impl.cc:162-168 | Appends an exit span below the given one. |
| TracingContext.TracingContext.CreateEntrySpan | source/tracing_context_impl.cc:170-184 | Creates the first span, with the reference to the parent, or nothing if there is one already. |
| TracingContext.TracingContext.ReadyToSend | source/tracing_context_impl.cc:235-242 | True exactly if every span is finished. |
| TracingContext.TracingContext.CreateSegmentObject | source/tracing_context_impl.cc:230-233 | Hands over the records in creation order and keeps none. |
| TracingContext.TracingContext.CreateSW8HeaderValue | source/tracing_context_impl.cc:186-193 | A header exactly if the last span's type is Exit, finished or not, and then the eight fields of the context, starting with 0x31 0x2D. |
| TracingContext.TracingContext.EncodeSpan | source/tracing_context_impl.cc:195-215 | The text built piece by piece is the eight fields joined. |
| TracingContext.CallOnHandle | source/tracing_context_impl.h:97-99 | Any call on the i-th handle changes the i-th record of the segment as the model says, and no other record. |
| TracingContext.CallAll | source/tracing_context_impl.cc:37-228 | Any sequence of calls on a context and its handles takes the objects to the state that the same sequence has in the model, which carries over the tree, the references and the frozen data. |
| TracingContext.TracingContextFactory.Create | source/tracing_context_impl.cc:265-286 | A fresh context without spans, with its ids and names, marked for skipping exactly if the extension says so. |
| Hops.SendsExactly | source/tracing_context_impl.cc:186-193 | Process k of a chain sends a header if and only if it runs and its last span is an exit span. |
| Hops.NextRuns | source/tracing_context_impl.cc:186-228 | When it does, the next process starts from exactly what this one is. |
| Hops.SentIsParsed | source/tracing_context_impl.cc:186-215 | In a chain of processes, a header that is sent is parsed by the next process to exactly what the sender is. |
| Hops.OneTraceId | source/tracing_context_impl.cc:135-147 | All processes of a chain of any length have the trace id of the first. |
| Hops.EntryRefersToCaller | source/tracing_context_impl.cc:120-184 | The first span of each process names its caller's trace, segment, exit span, service, instance, first operation and target address. |
| Chain.TraceHop | source/tracing_context_impl.cc:135-286 | One process on objects: the context its factory creates for the parsed header, after its calls, and the header it sends are those of the chain of values, with the ids its generator draws. |
| Chain.PlayChain | source/tracing_context_impl.cc:135-286 | A chain of any length on objects, header by header through the parser, ends with each context in the state the chain of values gives it. |
| Chain.ChainOfObjects | source/tracing_context_impl.cc:120-215 | Those contexts have one trace id, and the first span of each refers to the context before it with all its values, as long as none has more than 2^31 spans. |
| RandomGenerator.FormatRoundTrip | source/utils/random_generator.cc:43-86 | Without its dashes, the text of a UUID is the hexadecimal form of its 16 bytes. |
| RandomGenerator.HexDigitsListed | source/utils/random_generator.cc:45 | The sixteen digits, written out. |
| RandomGenerator.StampBits | source/utils/random_generator.cc:40-41 | Version and variant bits are those of section 4.4 of RFC 4122, and the other 122 bits are kept. |
| RandomGenerator.RandomGeneratorImpl.FormatWindow | source/utils/random_generator.cc:43-86 | The text is the five dashed groups of digits, and the digit loops and the dashes store to each of its 36 positions exactly once and to no other. |
| RandomGenerator.DrawsTakeDisjointWindows | source/utils/random_generator.cc:22-36 | Draw i of a thread is made of bytes 16 (i mod 128) and up of refill i / 128, for any number of draws. |
| RandomGenerator.RandomGeneratorImpl.Uuid | source/utils/random_generator.cc:22-87 | One call returns the text and leaves the buffer and index that the draw sequence is defined by; the index stays a multiple of 16 up to 2048. |
| RandomGenerator.RandomGeneratorImpl.Uuids | source/utils/random_generator.cc:22-87 | Any number of calls in a row end with the texts, buffer, index and number of refills that the draw sequence defines. |
| RandomGenerator.RandomGeneratorImpl.RandomBuffer | source/utils/random_generator.cc:89-95 | The whole buffer is overwritten with the random bytes. |
| Tracer.Tracer.Report | source/tracer_impl.cc:54-67 | Reports exactly a context whose spans are all finished and whose first record's name is not p + s for any p and any ignored suffix s; then its segment goes through `sendMessage` and the context keeps no span; otherwise nothing changes. |
| Tracer.Tracer.ReportAll | source/tracer_impl.cc:54-67 | Any number of reports in a row push the first of the reported segments, in order, as many as there is room for, drop the others, and leave the contexts that are not reported as they were. |
| Tracer.Tracer.ReportedAreComplete | source/tracer_impl.cc:54-67 | Each reported segment is that of its own context, with every span in creation order and finished; they come in the order of the contexts, and no reportable context is left out. |
| Tracer.SuffixMatcher.Match | source/matchers/suffix_matcher.cc:21-29 | True exactly if the name is p + s for some p and some suffix s. |

## Left out

- ReporterClient.TraceAsyncClient.SendMessage: the methods of the objects are undisturbed calls; interleaving is in the protocol, which the `IsRun` lemmas tie to them.
- Overlap of `sendMessage` with `resetClient`: a reset starts when all producers are outside, and no call follows it.
- ReporterSafety.ShutdownAccounting: takes the completion queue to give back, with some outcome, what was posted before or after its shutdown; what gRPC does with a Write after `Shutdown` is not part of this model.
- ReporterSafety.NoStreamRace: posting a Write and returning from the stream is one step, so a writer that is still inside the stream's `sendMessage` while the completion of its Write makes the event loop reset the stream is not modelled.
- The race of the constructor with the event-loop thread that is already running: construction is one initial step.
- The width of the three counters: they are unbounded here, and wrap at 2^64 in the source.
- gRPC channels, stubs, credentials, metadata and the token; of the completion queue only posted operations and outcomes remain.
- ReporterClient.TraceAsyncClient.Gogo: the environment's outcomes are a finite script, and blocking in `Next` is not modelled.
- Protobuf messages are records of values; a span message in a segment is an object whose address does not change.
- TracingContext.TracingContext.CreateSegmentObject: the message handed over is a value, so writes through a handle that was kept after the report are not modelled; the context is used once, as cpp2sky/tracing_context.h:240-241 asks.
- Propagation.SplitFields: the store past the field array is an outcome of its own; what the source does after it is not modelled.
- `createSW8HeaderValue` on a context without spans, which the source does not check.
- Fields without a finished check (operation name and start time through `startSpan`, type, layer, error, skip, references) are not claimed to be frozen.
- The random device: its bytes are arguments; uniqueness of UUIDs is not claimed.
- `absl::SimpleAtoi` and `std::to_string` are specified, not modelled from their source.
- Clocks, `logMessage`, log formats, `Timer`, configuration accessors and the dynamic configuration that the README of cpp2sky describes and its sources do not implement.
