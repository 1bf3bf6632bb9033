# BorderPatrol: buffers, parsers, log pipeline and join

BorderPatrol wraps the C library's I/O calls, parses the protocols it sees go by, ships a binary log
of events to a daemon, and replays the merged log to decide which request each event belongs to.
This project models those four parts and proves what holds of each, and of their composition.

**Virtual descriptors.** `Protocols` gives every protocol processor as a step function: shown the
bytes at the front of a buffer, it asks for more, uses some, or stops the process. `Processors` has
the same processors as records updated in place, each proved to do exactly its step.
`ProtocolTheorems`, `Framing`, `HttpFraming` and `OtherFraming` say what the parsers do on byte
streams. `ReadBooks` is the read
half of a descriptor as a value (one buffer, five indices, the streams on both sides);
`VirtualRead.ReadSide` is the buffer of the source, its fields kept in step with those books.
`VirtualWrite.WriteSide` is the write half, `Select.SelectCache` the readiness cache it shares hints
with (`Hints` is the two together), `Endpoints` the agreement between the two ends of a connection, `HttpsWrite` the one processor
that does not always keep the processors' contract.

**Log pipeline.** `Records` is the record layout with its codecs, `LogBuffer.ThreadContext` the
per-thread buffer that LOGBIN fills and flushes. `RelayBooks` is the daemon's relay as a value, on
any bytes whatever, and then on a client's records; `Logd.Relay` keeps the daemon's tables in step
with it, `Daemons.Daemon` is the loop over connections, and `Reuse` says what a used descriptor does
to the next connection, `SharedSocket` what several threads and forked children do to one
connection. `LogReader.Reader` is the buffered reader, and `Pipeline` the composition.

**Join.** `Tables` models OCaml's hash tables, hidden bindings included. `Join` is the replay as
functions, `JoinMachine.JoinState` the same with tables and counters updated in place and keys listed
in any order. `JoinTheorems`, `Attribution`, `Transfer`, `Renames`, `Renaming`, `RenamedSteps` and
`Commute` prove what holds over whole logs, `EventEffects` what each event changes as seen through
the lookups; `Delivery` puts the tracer's two ends and the join
together.

System calls are objects whose outcome is chosen freely among those the calls may have: any chunking,
short writes, errors, end of file.

## How the parts fit

- A processor's state never depends on the buffer code and the other way round: the buffers are proved
  against function values (`References.Reference`) that `Means` ties to the real step functions.
- A method proved against a specification function is tied to it in its `ensures`; what the source
  promises is then proved about the functions, over all inputs, runs or logs.
- `Valid()` of `ReadSide`, `WriteSide`, `Relay`, `Daemon`, `Reader` and `ThreadContext` is the
  invariant every method keeps; the lemmas about reachable states start from it.

## Where the code departs from its intent

- A PostgreSQL message with an empty body leaves the parser waiting for ever. Framing is right if and
  only if no message but the last has an empty body (`Framing.PsqlFraming`); a Sync hides the query
  after it (`Framing.SyncHidesQuery`).
- MySQL length bytes of 128 or more are sign-extended. Framing is right if and only if no length byte
  is (`Framing.MysqlFraming`), and a misread packet hides everything behind it
  (`Framing.MysqlMisreadLength`).
- Bytes held back in front of a processor that 65536 bytes do not satisfy fill the buffer, and the
  operating system is then asked for 0 bytes: exactly when, in terms of the bytes that have arrived,
  is `ReadBooks.ZeroLengthRead`; a message without a body and 65536 bytes more get there
  (`ReadBooks.ZeroLengthReadHappens`).
- After a real select the entry handed back comes from the cache, not from what was asked: exactly when
  that is one the system reported is `Select.AnswersTheQuestion`, a counterexample is
  `Select.StaleEntryAnswersFirst`, and the entry is not cleared (`Select.AnsweredTwice`).
- A response header with a negative Content-Length makes the HTTP processor hand back a negative count
  (`HttpsWrite.ContractIffBounded`, `HttpsWrite.NegativeLengthAccepted`).
- The hint a read leaves is good for one select: after it the system is asked, and may time out,
  although bytes are still buffered (`Hints.HintIsUsedUp`).
- A write is given to the system before the writer's processor sees it, so the other end can log a
  message as received before it is logged as sent. Every message received has been logged as sent if
  and only if the reader has received none from bytes the writer's processor has not seen
  (`Endpoints.ReceivedIsSent`); the race is `Endpoints.ReceivedBeforeSent`. The pause in the source
  (src/trace/protocol.c:378-379) makes it less likely.
- Threads and forked children share a log connection. Whole flushes mix without harm
  (`SharedSocket.EveryContextIsRelayed`); a short write lets another flush into the middle of a record
  (`SharedSocket.TornRecord`).
- The daemon does not reset `b_end` or `timediff` when a descriptor is used again. The records of a new
  client that logs any, and whose first one has a thread id other than 0, come out if and only if
  nothing was left over (`Reuse.FaithfulIffNothingLeft`); a client that
  stops in the middle of a record spoils the next one (`Reuse.PartialRecordSpoilsTheNext`). And its
  first record gets the daemon's own time if and only if no difference was left
  (`Reuse.DaemonsTimeIffUnset`); otherwise all its records are shifted by the last client's difference
  (`Reuse.OldDifference`).
- A time difference of zero counts as none: it is taken again for the next record. The difference is
  constant from the first one that is not zero (`RelayBooks.DistancesKept`, `Pipeline.TimesInTheFile`).
- Renaming a connection turns stacks of hidden bindings upside down, so a hidden binding can come back.
  A message keeps its request if and only if its oldest and newest bindings agree
  (`Transfer.RenameKeepsMessages`). In every log the first connect of a socket keeps every message
  (`Renames.FirstConnectKeepsMessages`); a second connect need not (`Renames.SecondConnectBringsBackHidden`).
- A message's id is only looked up together with its connection, in both directions at once. A message
  is received for the request of the last one sent with its id on its connection, so for its own if
  and only if that one's is the same (`Delivery.ArrivesIffLastIsForTheSame`). Ids of one PostgreSQL
  direction never repeat (`Delivery.PsqlMessageArrives`), but an answer takes the slot of the query
  with its number when it is sent before that query is received, as pipelined queries allow
  (`Delivery.AnswerTakesQuerysSlot`). MySQL's packet numbers start again with every command
  (`Delivery.MysqlIdsRepeat`, `Delivery.RepeatedIdIsMisattributed`).

## Model

| member | source | states |
|---|---|---|
| Protocols.PPStep | src/trace/protocol.c:212-262 | PP contract, for every bound processor (psql, mysql, http server reading, X, FastCGI) in every reachable state: given a byte it asks for more, stops, or uses between 1 and all of the bytes, and stays in a reachable state |
| ProtocolTheorems.FindExact | src/trace/protocol.c:224-225 | the header search finds the first occurrence of the terminator, and fails only when there is none |
| Protocols.Drain | src/trace/vfd.c:436-453 | what a run of a processor over a buffer leaves is nothing, or something it answers with "more" |
| ProtocolTheorems.MoreMeansMore | src/trace/vfd.c:963-964 | a processor that asked for more on some bytes uses more than those when it accepts a longer buffer in the same state: the fact behind the assertion in the read path |
| ProtocolTheorems.FindGrows | src/trace/protocol.c:224-225 | a terminator not in a buffer ends past the old end in any longer buffer |
| ProtocolTheorems.MoreOnPrefix | src/trace/protocol.c:374-459 | a streaming processor that asks for more also asks for more on any non-empty part of the bytes |
| ProtocolTheorems.StepExact | src/trace/protocol.c:374-459 | what a streaming processor uses is all it looked at |
| ProtocolTheorems.StepExtends | src/trace/protocol.c:374-459 | bytes behind a unit that was accepted whole do not change how it is accepted |
| ProtocolTheorems.BodySplits | src/trace/protocol.c:380-400 | a body used in two pieces comes to the same as in one |
| ProtocolTheorems.ChunkInvariance | src/trace/vfd.c:426-465 | feeding A and then B leaves the state, leftover and events of feeding A+B, for psql, mysql and X, malformed and wedged streams included |
| ProtocolTheorems.ChunkingDoesNotMatter | src/trace/vfd.c:426-465 | any two ways of cutting the same bytes agree |
| ProtocolTheorems.EventsMonotone | src/trace/protocol.c:374-459 | events on a prefix are a prefix of the events |
| ProtocolTheorems.DrainOneStep | src/trace/vfd.c:913-931 | one call from where a run has got to takes the reference run exactly that much further |
| ProtocolTheorems.HeldBytesAreSilent | src/trace/vfd.c:919-924 | bytes held back behind a "more" make no event, however few of them are looked at |
| ProtocolTheorems.NeverDies | src/trace/protocol.c:374-459 | the psql and mysql processors never stop the process, whatever stream they are shown |
| Framing.PsqlFraming | src/trace/protocol.c:402-458 | on whole messages the parser uses every byte and logs exactly the expected events if and only if no message but the last has an empty body |
| Framing.PsqlStreamFraming | src/trace/protocol.c:403-422 | the same behind a startup packet, on the sides that see one |
| Framing.QueryTextIsLogged | src/trace/protocol.c:380-390 | a message with a body logs its header, its message event, and the text only of a query, up to its NUL |
| Framing.WedgedForEver | src/trace/protocol.c:424-458 | after an empty body nothing is ever used or logged |
| Framing.SyncHidesQuery | src/trace/protocol.c:424-458 | concrete stream on which a query is never logged |
| Framing.MysqlSizeCases | src/trace/protocol.c:552-559 | what promotion, shifts and bitwise or of plain chars come to: the lowest byte with its top bit set fills everything above it with ones |
| Framing.MysqlSizeExact | src/trace/protocol.c:552-559 | the decoded size is the encoded one if and only if no length byte has its top bit set; otherwise it is at least 0xFF000000 |
| Framing.MysqlFraming | src/trace/protocol.c:561-613 | on whole packets the log is exactly right if and only if no length byte (of any packet) has its top bit set |
| Framing.MysqlMisreadLength | src/trace/protocol.c:552-559 | any packet with such a length byte hides the whole stream behind it, up to almost 4 GB: nothing but its own header is logged |
| Framing.BigEndianRoundTrip | src/trace/protocol.c:365-371 | network byte order decodes what it encodes |
| HttpFraming.RequestRead | src/trace/protocol.c:212-262 | a request whose header has arrived is logged with its number, method, URL and version, and exactly its header is used; 1.0 ends the parsing, 1.1 expects another |
| HttpFraming.ResponseWritten | src/trace/protocol.c:294-329 | a response that announces its length is logged with its version, status and length, exactly its header is used, and exactly that many bytes are passed over next |
| HttpFraming.ResponseCloses | src/trace/protocol.c:318-323 | one that announces a close ends the parsing |
| HttpFraming.DecimalRoundTrip | src/trace/protocol.c:314-317 | the length read is the one written in decimal, whatever it is |
| OtherFraming.XStreamFraming | src/trace/protocol.c:719-745 | on a whole X stream one message is received and every byte is used |
| OtherFraming.FcgiHeaderRead | src/trace/protocol.c:873-993 | what each type of record logs, and how long its body is |
| OtherFraming.FcgiBodyRead | src/trace/protocol.c:873-993 | a body that is all there is used whole, and logged only for params |
| Processors.PsqlSide.constructor | src/trace/protocol.c:463-511 | only the client's write side and the server's read side expect a startup packet |
| Processors.PsqlSide.Speak | src/trace/protocol.c:374-459 | the parser that updates its fields and logs does exactly its step: result, whole new state, events |
| Processors.MysqlSide.Speak | src/trace/protocol.c:561-613 | the same for MySQL |
| Processors.HttpsSide.Read | src/trace/protocol.c:212-262 | the same for the HTTP server's reading |
| Processors.XSide.Read | src/trace/protocol.c:719-745 | the same for X |
| Processors.FcgiSide.Speak | src/trace/protocol.c:873-993 | the same for FastCGI |
| Processors.Call | src/trace/vfd.c:917-918 | the indirect call does the step of whichever processor is bound, and touches no other object |
| HttpsWrite.HttpsOut.Write | src/trace/protocol.c:274-329 | the response parser does exactly its step: result, new state, events |
| HttpsWrite.HttpsOut.ScanLines | src/trace/protocol.c:311-323 | the line loop stops at the first line that announces a length or a close |
| HttpsWrite.ContractIffBounded | src/trace/protocol.c:284-292 | the contract is kept in a state if and only if no negative length is pending |
| HttpsWrite.BoundedUnlessAnnounced | src/trace/protocol.c:294-326 | a negative length is left pending exactly by a header that announces one |
| HttpsWrite.NegativeLengthAccepted | src/trace/protocol.c:314-317 | concrete response header that leaves a negative length pending |
| HttpsWrite.WaitMeansMore | src/trace/protocol.c:295-297 | shown more after waiting, the parser uses more than it had seen |
| HttpsWrite.BodyPassedOver | src/trace/protocol.c:287-293 | however a body is cut up, exactly the announced number of bytes is passed over before the next header |
| ReadBooks.ShiftSound | src/trace/vfd.c:881-891 | dropping what both sides are done with keeps all read invariants and makes exactly the room the next read asks for |
| ReadBooks.PresentSound | src/trace/vfd.c:913-931 | showing the processor what is pending keeps all invariants and always leaves something to send |
| ReadBooks.DeliverSound | src/trace/vfd.c:894-911 | a delivery keeps all invariants; something stays in the buffer exactly when the next read needs no system call |
| ReadBooks.NoByteOvertakesItsEvent | src/trace/vfd.c:935-966 | every event of the reference parser on the bytes delivered to the application so far has already been logged |
| ReadBooks.MessageIsolation | src/trace/vfd.c:913-931 | unless the processor is asking for more, the application has and may have bytes only up to the end of the processor's last unit; while it asks, up to everything that has arrived |
| ReadBooks.FullBuffer | src/trace/protocol.c:212-459 | which states a given full buffer does not satisfy, exactly, for every processor |
| ReadBooks.ZeroLengthRead | src/trace/vfd.c:950-957 | with nothing buffered for the application, 0 bytes are asked for if and only if all 65536 held bytes are unused, which then do not satisfy the processor; for psql, mysql and X, if and only if a reference run over all bytes that have arrived leaves 65536 of them |
| ReadBooks.ReadAll | src/trace/vfd.c:935-966 | where one read through the system leaves processor and application |
| ReadBooks.ZeroLengthReadHappens | src/trace/vfd.c:950-957 | two reads from a fresh psql client descriptor after which 0 bytes are asked for |
| VirtualRead.ReadSide.BufShift | src/trace/vfd.c:881-891 | the memmove and three subtractions do `Shift` and keep the invariant |
| VirtualRead.ReadSide.PresentPP | src/trace/vfd.c:913-931 | whichever processor is bound, it is called on all the unused bytes: what it uses counts as used, its state and log move on by exactly that step, and if it asks for more they stay and more is wanted; the process stops if and only if the step does; nothing is delivered, something may now be sent |
| VirtualRead.ReadSide.BufRet | src/trace/vfd.c:894-911 | exactly min(len, tosend) bytes are delivered, and the cache bit is set if and only if the next read will be served from the buffer |
| VirtualRead.ReadSide.Fetch | src/trace/vfd.c:952-957 | the system call's bytes go behind what is held; an error or end of file changes nothing |
| VirtualRead.ReadSide.VirtualRead | src/trace/vfd.c:935-966 | read transparency: the result extends what was delivered, no byte is lost, duplicated or reordered; bytes the processor has not been shown are shown to it, and its step on them is taken, for every processor, while a read served from bytes already shown leaves it alone; the process stops if and only if the processor dies on the bytes it has not used, so never for psql and mysql; the system is called exactly when nothing is buffered, once, with exactly the free room; the hint is exact; events go to the log in order |
| VirtualWrite.WriteSide.Exhaust | src/trace/vfd.c:436-453 | the do-while loop runs the processor over the whole buffer: same state, leftover and events as the reference run |
| VirtualWrite.WriteSide.VwriteReq | src/trace/vfd.c:426-465 | what is written joins what was left; the processor ends where the reference run on everything written so far ends, and the leftover is what it has not used |
| VirtualWrite.WriteSide.Writev | src/trace/vfd.c:1172-1184 | the loop over the pieces with a short result r does what one write of the first r bytes does: state, leftover, events, and stopping the process if and only if that write does (never, for psql and mysql) |
| VirtualWrite.WriteSide.WriteCall | src/trace/vfd.c:1140-1160 | the system has the bytes before the processor sees them; when the call returns the processor has seen exactly what the system accepted |
| VirtualWrite.RunTwice | src/trace/vfd.c:426-465 | chunk invariance for the run behind the buffer |
| Endpoints.MirrorDrain | src/trace/protocol.c:374-459 | on the same bytes the reading end receives exactly the ids the writing end sends |
| Endpoints.EndpointAgreement | src/trace/vfd.c:1147-1149 | for psql and mysql in both directions, whatever the chunking at either end and whether or not the bytes are well formed, and whichever end has logged more: the ids sent so far and the ids received so far are both prefixes of the ids of the bytes the system has accepted, so one is a prefix of the other |
| Endpoints.ReceivedIsSent | src/trace/vfd.c:1147-1149 | the ids received are a prefix of the ids sent if and only if the reader has received none from bytes the writer's processor has not seen; so always when no write is between its system call and its processor |
| Endpoints.ReceivedBeforeSent | src/trace/vfd.c:1147-1149 | a first read of a psql client after which one id has been received and none sent |
| Endpoints.PsqlEndsMirror | src/trace/protocol.c:463-511 | the first states of the two ends of a stream mirror each other |
| Endpoints.PsqlIdsCount | src/trace/protocol.c:437-452 | message ids count up from the first |
| Select.SelectCache.SetReadable | src/trace/vfd.c:855-862 | adds exactly one entry to the cache |
| Select.SelectCache.ClearReadable | src/trace/vfd.c:847-854 | removes exactly one entry from the cache |
| Select.SelectCache.SpeakSelect | src/trace/vfd.c:1322-1440 | a cache hit hands back the lowest requested cached entry and clears it; otherwise the answer joins the cache and its first entry is handed back; errors and timeouts change nothing |
| Select.SelectConserves | src/trace/vfd.c:1346-1428 | a positive answer sets exactly one bit; nothing cached or reported is dropped except possibly what is handed back |
| Select.AnswersTheQuestion | src/trace/vfd.c:1415-1422 | after a real select the entry handed back is one the system reported if and only if no older cached entry comes first |
| Select.StaleEntryAnswersFirst | src/trace/vfd.c:1415-1422 | concrete call answered with an entry nobody asked about |
| Select.AnsweredTwice | src/trace/vfd.c:1415-1422 | what a real select reported is handed out again by the next call for it, without asking the system |
| Hints.SelectAfterRead | src/trace/vfd.c:894-911 | right after a read, a select about that descriptor is answered without the system exactly when the next read needs none |
| Hints.BufferedIsAnswered | src/trace/vfd.c:1346-1383 | while bytes are buffered, a select that also asks about that descriptor is answered without the system, with one thing it asked for |
| Hints.HintIsUsedUp | src/trace/vfd.c:1346-1383 | a second select before a read asks the system and passes its timeout on although the bytes are still buffered |
| Kernels.Kernel.Read | src/trace/vfd.c:952-957 | any outcome a read may have: an error, the end, or any number of the bytes that have arrived |
| Records.HeaderRoundTrip | src/logd/fmt.c:43-47 | the 32-byte header decodes to what was encoded, all field widths and signs included |
| Records.HeaderLayout | src/logd/fmt.h:9-22 | where the 64-bit thread id, the process, both times, program, argument count and padding are in the 32 bytes |
| Records.ShortFields | src/logd/fmt.h:9-22 | where the three 16-bit fields are, low byte first, in two's complement |
| Records.ArgAt | src/logd/fmt.c:28-31 | the i-th argument is the i-th group of four bytes |
| Records.ArgsRoundTrip | src/logd/fmt.c:49-75 | arguments decode to what was encoded |
| Records.EncodeInjective | src/logd/fmt.c:11-39 | no record's encoding is a prefix of another's |
| Records.UniqueParse | src/logd/fmt.c:11-75 | a stream that starts with the encoding of one list of records and is part of the encoding of another has the second's records first, and what is left belongs to the rest |
| Records.Freeze | src/logd/fmt.c:22-39 | the cursor loop writes exactly the record's encoding |
| Records.Thaw2 | src/logd/fmt.c:49-75 | the cursor loops read the arguments, zeros for missing ones, and the string |
| Records.ThawBytes | src/logd/fmt.c:49-75 | thawing what follows the header of an encoded record gives back that record |
| Records.FrozenThawed | src/logd/fmt.c:22-75 | freezing a thawed record gives the same bytes |
| LogBuffer.ThreadContext.LbFlush | src/logd/binlog.c:153-196 | over any short writes everything buffered is sent once, in order; it fails if and only if a write fails, having sent a prefix |
| LogBuffer.ThreadContext.LbAllocBytes | src/logd/binlog.c:200-218 | room for a record, behind exactly what was logged before, flushing when it would not fit; refused only for a record larger than the buffer or a failed write |
| LogBuffer.ThreadContext.PutHeader | src/logd/binlog.c:259-300 | the fields land at their offsets, the padding keeps what the buffer held |
| LogBuffer.ThreadContext.SetArgs | src/logd/binlog.c:224-227 | stores the arguments, touching nothing around them |
| LogBuffer.ThreadContext.SetStr | src/logd/binlog.c:229-236 | stores the string in place, byte for byte, with an underscore for every newline and nothing else changed |
| LogBuffer.ThreadContext.LogbinGen | src/logd/binlog.c:307-320 | one call logs exactly one record behind all earlier ones: event number and return value modulo 65536, arguments, names and times as given, every byte of the text that is no newline as given; refused if it cannot fit the buffer, and otherwise only when a write fails |
| LogBuffer.LoggedUnchanged | src/logd/binlog.c:229-300 | so numbers that fit 16 bits and a text without newlines are in the record as they were |
| RelayBooks.MoveAllFollows | src/logd/logd.c:59-120 | on a client's records the transfer loop moves them in order until the first is not all here, never breaks on lengths, and gives each the difference it should have |
| RelayBooks.FeedFollows | src/logd/logd.c:128-156 | so does a read of any size; only a final header-sized record can be held back whole |
| RelayBooks.StampKeeps | src/logd/logd.c:87-95 | a stamped record has the thread, process, event number, return value, program, lengths, padding, arguments and string it came with |
| RelayBooks.ClockArithmetic | src/logd/logd.c:44-54 | differences and sums of times are exact in microseconds, and normal times stay normal |
| RelayBooks.HeaderAloneWaits | src/logd/logd.c:151-153 | with no more than 32 bytes held nothing is moved and the clock is not read |
| RelayBooks.DaemonsOwnTime | src/logd/logd.c:44-54 | until there is a difference every record gets the time the daemon's clock showed when its header was looked at |
| RelayBooks.DistancesKept | src/logd/logd.c:90-95 | from the first difference on the file keeps the distances between the client's records |
| SharedSocket.WholeFlushesMix | src/logd/binlog.c:153-196 | flushes of several threads and processes on one connection, each in one write, make one stream of whole records in which every thread's are its own, in its order |
| SharedSocket.EveryContextIsRelayed | src/trace/vfd.c:336-346 | so of every one of them the file has the first records it flushed, in order, each with its difference, and all once all is delivered and moved |
| SharedSocket.TornRecord | src/logd/binlog.c:153-196 | another flush behind the header of a record sent in two writes: the record relayed is the one logged if and only if the other's first bytes are the same as its body |
| Reuse.FaithfulIffNothingLeft | src/logd/logd.c:285-301 | over any chunking and clock, a delivered stream of at least one record, the first with a thread id other than 0, comes out as the client's records if and only if the last connection on the descriptor left no bytes |
| Reuse.LeftOverGarbles | src/logd/logd.c:59-120 | with bytes left over it does not, however much of it is delivered |
| Reuse.PartialRecordSpoilsTheNext | src/logd/logd.c:309-321 | a client that stops inside a record leaves those bytes, and the next client's records do not come out |
| Reuse.DaemonsTimeIffUnset | src/logd/logd.c:80-81 | a client's first record gets the daemon's own time, whatever the clock shows, if and only if no difference was left on the descriptor |
| Reuse.OldDifference | src/logd/logd.c:80-95 | a difference left on the descriptor is given to every record of the next client |
| Logd.Relay.Accept | src/logd/logd.c:285-301 | the new connection gets a cleared buffer, but the end of data and the difference the last one left |
| Logd.Relay.RecordTimediff | src/logd/logd.c:44-54 | the difference between one reading of the clock and the record's time |
| Logd.Relay.Restamp | src/logd/logd.c:87-98 | thaw, add, freeze gives exactly the encoding of the stamped record, which differs from the one that came in its two times at most (`RelayBooks.StampKeeps`) |
| Logd.Relay.ShiftLeft | src/logd/logd.c:100-112 | the shift loop removes the first bytes and keeps the rest in order |
| Logd.Relay.MoveOne | src/logd/logd.c:62-118 | one turn of the loop, on any bytes: the relay function's step, with the file grown by exactly the record moved |
| Logd.Relay.TransferOut | src/logd/logd.c:59-120 | on any bytes, the in-place loop does what the relay function says; the other connections' parts of the file are untouched |
| Logd.Relay.TransferIn | src/logd/logd.c:128-156 | one read of anything, and what the relay function makes of it |
| Logd.Relay.Receive | src/logd/logd.c:128-156 | one read, of exactly as many of the bytes that had arrived as it says, and then all that can be moved is; the relay never fills: for a client's records the room asked for is always positive and less than one maximal record stays |
| Logd.Relay.Finish | src/logd/logd.c:309-321 | the transfer at a disconnect moves everything that is whole |
| Daemons.Daemon.Accept | src/logd/logd.c:285-301 | a new connection joins, all others and the file unchanged |
| Daemons.Daemon.Service | src/logd/logd.c:303-321 | one read on the connection, of exactly as many of the bytes that had arrived as it says, after which all that can be moved has been; a connection that ends is drained and dropped, any other stays watched; over any interleaving the file stays whole records and its projection on each connection that connection's records in order |
| Daemons.ClosedIsComplete | src/logd/logd.c:309-321 | a connection read to its end has all its records in the file, a held-back last one included |
| LogReader.Reader.Refill | src/logd/common.c:21-42 | a refill changes nothing of what is left to read, and fails only at the end |
| LogReader.Reader.Fill | src/logd/common.c:44-67 | the next bytes over any number of reads, or the end of the file |
| LogReader.Reader.GetLe | src/logd/common.c:73-94 | the next record, or the end when no header is left; the assertion fails exactly when a header is left without its body |
| LogReader.Reader.ReadAll | src/logd/expand.c:49-70 | from a file of whole records every record is read, in order, and the byte count is the file's size |
| Pipeline.NothingInventedOrReordered | src/logd/logd.c:59-156 | at every moment, whatever the flush points, short writes, chunking and interleaving, the file holds the first records the client logged, in order, each with its event number, return value, program, thread, arguments and string as logged, and its time shifted by a difference between the daemon's clock and a record's time, the same for all from the first that is not zero |
| Pipeline.TimesInTheFile | src/logd/logd.c:44-120 | the client's first record is in the file at the daemon's own time, unless a difference was left over; from the first difference on, records are as far apart in the file as for the client |
| Pipeline.NothingLost | src/logd/logd.c:303-321 | flushed, delivered and closed, all records are in the file |
| Pipeline.EndToEnd | src/logd/common.c:73-94 | from LOGBIN call to decoded entry: the i-th entry of a client has the event number, return value, program, thread, process, arguments (zeros for missing ones) and string of the i-th record logged, and its time shifted by a difference taken from the daemon's clock; all of them are there once flushed, delivered and closed |
| JoinMachine.KeyList | src/agg/join.ml:174-176 | every key once for each of its bindings, in no particular order |
| JoinMachine.JoinState.ConnOfFd | src/agg/join.ml:40-49 | the binding, or a fresh connection that is not remembered |
| JoinMachine.JoinState.SetMessage | src/agg/join.ml:65-70 | replaces the newest binding of the message |
| JoinMachine.JoinState.RidOfMsg | src/agg/join.ml:56-63 | the request of the message, or -1 |
| JoinMachine.JoinState.HandleForking | src/agg/join.ml:178-187 | whatever order the table is folded in, every binding of the parent is added to the child |
| JoinMachine.JoinState.ReplaceAll | src/agg/join.ml:193-209 | whatever order the keys come in, repeated keys included, the in-place loops do the renaming |
| JoinMachine.JoinState.StreamJoin | src/agg/join.ml:217-346 | the in-place join does the step function's work for every event |
| JoinMachine.JoinState.Run | src/agg/join.ml:376-394 | over any log the tables end as the functions say |
| Equivalence.StepAgrees | src/agg/join.ml:217-346 | contexts with the same bindings are the same to every event |
| JoinTheorems.NoInventedRequests | src/agg/join.ml:23-27 | in every reachable context all stored requests are -1 or issued, all generated connections generated |
| JoinTheorems.StepCounts | src/agg/join.ml:17-35 | names and numbers are never taken back |
| Attribution.Source | src/agg/join.ml:217-346 | whatever a thread or slot holds after an event was made by it or came by a legitimate hop from a place that held it |
| Attribution.EveryRequestHasATrail | src/agg/join.ml:217-346 | attribution soundness: from every place that holds a request a chain of hops (same place, fork, exec, write then read, renamed connection), one per event, leads back to the head that made it |
| Attribution.OneHead | src/agg/join.ml:324-331 | a request has one head: no two events of a log make the same id |
| Transfer.DgnGetSet | src/agg/join.ml:130-154 | a thread's request is what was last set, and no other thread notices |
| EventEffects.RequestIsFirst | src/agg/join.ml:130-154 | a thread's request is that of its first entry that has one, and it has none if and only if no entry has |
| EventEffects.ExecKeepsTheProcess | src/agg/join.ml:230-241 | after an exec the thread has the first request of its process, every other thread of the process none, and no other process notices |
| EventEffects.PollTakes | src/agg/join.ml:247-249 | after a wait the thread has the request of the descriptor's connection, or none |
| EventEffects.OpenMakes | src/agg/join.ml:252-263 | the new descriptor is on a connection of its own that works for the caller's request; nothing else changes |
| EventEffects.PipeMakes | src/agg/join.ml:265-275 | two new connections, one for each end, both working for the caller's request; nothing else changes |
| EventEffects.DupShares | src/agg/join.ml:277-280 | the new descriptor is on the old one's connection; nothing else changes |
| EventEffects.ConnectMoves | src/agg/join.ml:289-293 | every descriptor and message of the socket's connection is on the common name from then on, the oldest binding of each message found; nothing else changes |
| EventEffects.InitKeeps | src/agg/join.ml:307-310 | nothing is found differently after it |
| EventEffects.SendBinds | src/agg/join.ml:315-320 | the message's slot has the sender's request; nothing else changes |
| EventEffects.ReceiveBinds | src/agg/join.ml:322-335 | when it is no request head, thread and connection have the message's request, or none; nothing else changes |
| EventEffects.UnknownReceive | src/agg/join.ml:322-335 | on a descriptor never seen, the thread has no request afterwards, and no known slot changes |
| EventEffects.EndClears | src/agg/join.ml:338-340 | the thread has no request; nothing else changes |
| Transfer.HeadMakesRequest | src/agg/join.ml:324-331 | a message received on a connection whose rendezvous ends in the web server's port gives thread and connection the next request number; nothing else changes |
| Transfer.OnlyHeadsMakeRequests | src/agg/events.ml:110-118 | a number is made exactly by a message received on a rendezvous with that ending, whatever comes before it, and by no other event |
| Transfer.SlotKept | src/agg/join.ml:217-346 | an event that neither writes nor renames a slot leaves it alone |
| Transfer.CausalTransfer | src/agg/join.ml:315-335 | a receive of a message gives the receiver the sender's request when nothing disturbed the slot in between |
| Transfer.RequestReachesBackEnd | src/agg/join.ml:285-335 | a whole log on which a back end ends up working for the request its front end accepted |
| Transfer.ReadTakes | src/agg/join.ml:300-304 | a read takes over the connection's request if it has one |
| Transfer.ForkInherits | src/agg/join.ml:178-187 | a child has its parent's request and resolves every inherited descriptor as its parent does; nothing else changes |
| Transfer.RenameMoves | src/agg/join.ml:193-209 | a rename moves exactly the descriptors and messages of the old connection |
| Transfer.RenameToSelf | src/agg/join.ml:307-310 | a rename to itself is the identity |
| Transfer.RenameKeepsMessages | src/agg/join.ml:201-208 | a message resolves as before a rename if and only if its oldest and newest bindings agree |
| Transfer.RenameUncovers | src/agg/join.ml:201-208 | a message not bound on the old connection resolves to what the new one had |
| Transfer.RenamedMessage | src/agg/join.ml:201-208 | a stack of bindings arrives upside down on top of what was there: its oldest binding is found |
| Renames.GeneratedSlotsAreSingle | src/agg/join.ml:217-346 | in every log no binding on a generated connection hides another |
| Renames.FirstConnectKeepsMessages | src/agg/join.ml:289-293 | so the first connect of a socket keeps every message bound on it |
| Renames.ConnectTurnsOver | src/agg/join.ml:289-293 | before a connect the newest binding is found, after it the oldest |
| Renames.SecondConnectBringsBackHidden | src/agg/join.ml:289-293 | a whole log in which a second connect brings a hidden binding back |
| RenamedSteps.StepLike | src/agg/join.ml:217-346 | every event does the same, renamed, in two contexts that look alike to it |
| Commute.FdsFrame | src/agg/join.ml:217-346 | a local event leaves other processes' descriptors alone |
| Commute.DgnFrame | src/agg/join.ml:217-346 | and their threads |
| Commute.IndependentEventsSwap | src/agg/join.ml:217-346 | two events of different processes, neither a fork nor a connect, that do not meet on a connection one of them writes to, lead to the same context in either order, up to exchanging the names and numbers they made |
| Commute.IndependentEventsCommute | src/agg/join.ml:376-394 | exchanging two such neighbours anywhere in a log changes nothing in any later context but those names |
| Commute.AlikeAnswers | src/agg/join.ml:40-63 | contexts alike up to a renaming answer every lookup alike |
| Commute.OrderMattersOnASharedConnection | src/agg/join.ml:315-335 | a whole log with a send and a receive on one connection whose order matters |
| Delivery.ArrivesIffLastIsForTheSame | src/agg/join.ml:315-335 | a message is received for the request of the last one sent with its id on its connection, in either direction; so for the request it was sent for if and only if that is the same |
| Delivery.MessageArrives | src/agg/join.ml:315-335 | both ends of a psql or mysql connection and the join: the n-th message sent and the n-th received have one id, and if it was logged as sent first it is received for the request it was sent for under that exact condition |
| Delivery.PsqlMessageArrives | src/agg/join.ml:315-335 | for psql the last one sent with that id is the message itself, or one of the other direction |
| Delivery.AnswerTakesQuerysSlot | src/agg/join.ml:315-335 | a whole log in which an answer takes the slot of the query with its number |
| Delivery.MysqlIdsRepeat | src/trace/protocol.c:561-613 | two commands, one packet number |
| Delivery.RepeatedIdIsMisattributed | src/agg/join.ml:315-335 | a whole log in which a message is received for another one's request because their ids are the same |

## Left out

- `recv` and `recvfrom`: the same code as `virtual_read` around another system call; MSG_PEEK and dup'd descriptors are not modelled.
- The X, perl-bridge and HTTP client processors that use everything they are shown (`Trivial` stands for them) and the perl client processor, which is never bound.
- HttpFraming.ResponseWritten: for a length (or, in `HttpFraming.ResponseCloses`, a close) announced in the first line behind the status, within the 1024 bytes that are copied, and a reason of one short word.
- OtherFraming.FcgiBodyRead: for a body that is shown whole; `speak_fcgi` does not remember a partly shown one, so there is no theorem about FastCGI streams in any chunking.
- Transfer.OnlyHeadsMakeRequests: the source matches the port with a regular expression on one line, so a rendezvous is taken to have no newline in it.
- Protocols.PPStep: for the HTTP server only its reading side; the writing side is `HttpsWrite`, stands alone and is not bound to `WriteSide`, because it can hand back a negative count.
- String searches and copies that run past the bytes given (`strstr`, the text of a PostgreSQL query without a NUL): bounded by the bytes given.
- HttpsWrite.HttpsOut.Write: a number that does not fit an `int`, and a length read from beyond the end of a short line, which reads as no digits.
- VirtualWrite.WriteSide.VwriteReq: what is left and what is written together must fit the 64 KB buffer, a precondition the source does not check.
- VirtualRead.ReadSide.VirtualRead: `len` below 2^31, since the source narrows it to `int`; after an abort nothing is claimed.
- ReadBooks.NoByteOvertakesItsEvent: for processors whose events depend on the byte stream alone (psql, mysql, X); the HTTP and FastCGI processors log buffer lengths or forget part of a body.
- Debug entries, `show_buffer`, PP_ISO entries, connect events, mutexes, `usleep`, environment handling, symbol lookup, socket setup, and the fork, exec and dup wrappers.
- Message ids and sequence numbers are unbounded integers.
- LogBuffer.ThreadContext.LbFlush: one context has the socket to itself; several on one socket are modelled by their flushes (`SharedSocket`).
- VirtualWrite.WriteSide.WriteCall: no two threads write to one descriptor at the same time, so the processor sees the bytes in the order the system accepted them.
- LogBuffer.ThreadContext.LogbinGen: at most three arguments, each a 32-bit value, as every caller passes; the bookkeeping of disabled logging and of the log descriptor is not modelled.
- Logd.Relay.MoveOne: a write to the output file is complete, because the code's handling of a partial one mixes two lengths.
- Daemons.Daemon.Accept: connections have distinct numbers and a descriptor is only used again when the last connection on it left no bytes behind (`Reuse` says what happens otherwise, connection by connection).
- Logd.Relay.TransferOut: a record with a negative length, or more than three arguments, is taken to stop the daemon; what the copies of the source do with it is not modelled.
- LogReader.Reader.Refill: without waiting at the end of the file (`persist` is 0); a read error, which ends the process, is not distinguished.
- Join's printed output: the graph file, the message list, the "new" flags and the database. Lookups made only to print can use up fresh names; numbers are therefore the model's own.
- The Unknown event, which raises an exception, `paranoid_mode`, and the table that turns log rows into events.
- Commute.IndependentEventsCommute: forks and connects are excluded, since they reach into other processes' entries; events that share a connection commute only when both merely read it.
- Older tracer code, service lookup, packet filters, the kernel module, the PostgreSQL storage, SQL, bindings, scripts and printers.
