# Verified model of the osquery extension SDK

A Dafny model of the parts of the SDK where bytes, threads and state meet, and proofs of what they
promise. `dafny verify dfyconfig.toml` checks all of it.

- **The request server.** `Protocol` is the reading half of the Thrift binary protocol (Apache Thrift
  specification, "Thrift Binary protocol encoding"), `Schema` the one template behind every generated
  reader and writer, `Wire` the structs and messages of the extension interface. `ThriftValues` and
  `TypedWriters` say what is written byte by byte, independently of the template. `Streams` and `Server`
  are the same code in its own shape: a cursor with its end-of-input flag, an output buffer, the
  processor, and the two nested loops of `serve_connection`. `Serving` proves that neither the handler
  nor the peer can tell how a stream was cut into reads, unless the loop stops for size, and when it can;
  `RequestStreams` and `SafeRequests` say what that means for requests, which by `Messages` are any texts
  that read as one, not only what this crate's client writes; `UnknownMethods` and `BadRequests` say it for
  what is no request, `AbsentParts` what may be left out, and `Disconnects` how a connection ends. `Replies`,
  `Client` and `Session` follow what the handler says through the reply and back to the caller, for every
  method.
- **The lifecycle.** `Lifecycle` is a labelled step system: the thread that calls `run`, `shutdown` and
  drop, the ping watcher, any number of senders on the capacity-1 signal channel, requests that hold
  plugin locks, and a millisecond clock. A run is any sequence of enabled labels, so every theorem about
  `Exec(c, Init(), run)` is about every interleaving. `LifecycleSignals` follows every signal,
  `LifecycleWatch` the watcher, the listener and the time a run takes. `ClientLock` is the polling loop as a
  loop.
- **The locks.** `Dispatch` is a second step system: any number of requests, registrations, shutdowns
  and pings on the registry, plugin and client locks.
- **The accept loop.** `AcceptLoop` is the permit accounting.
- **The registry** (`Registry`, `RegistryObject`, `Registration`, `Extension`), **the logger** (`StatusRepair`,
  `StatusParser`, `Logger`) and **the query context** (`QueryContext`).

Where the code meets less than its comments say, the exact condition is proved:

- `status_ok` refuses a missing code, but a reader never returns one: over the wire it accepts or refuses
  what it should exactly for statuses that carry a code (`Client.WireFoldAlike`), and gives the same result
  exactly for those that also carry a uuid if they succeed (`Client.WireFoldFaithful`). For the same reason
  "registration returned no uuid" cannot be reported (`Client.RegistrationUuid`).
- A plugin error that is a status with code 0 arrives as success (`Client.DeliveredFaithful`).
- A request within `MAX_REQUEST_BYTES` can still be refused for size. A connection is to be closed for a
  larger or a never-completing message, but bytes that share a request's last read count against it. Some
  way of cutting a stream of requests is refused exactly when its unfinished end is over the limit, or a
  request is longer than `SAFE_REQUEST_BYTES`, the limit less a read plus one byte, and more than the limit
  is sent from its start on (`RequestStreams.RefusedIff`), as two pipelined requests of any size in between
  show (`RequestStreams.RefusalArises`); some way of cutting it is served in full exactly when nothing in it
  is over the limit (`RequestStreams.ServableIff`).
- The status-log repair is right exactly when no key is empty or ends in an escaped quote
  (`StatusRepair.RepairCorrect`, `StatusParser.QuoteKeySpoils`).
- A request for an unknown method is answered, but its arguments stay in the buffer and are parsed as the
  next request. A pipelined follow-up stays intact exactly when there are none
  (`UnknownMethods.FollowUpIntactIff`). Arguments that start with a field silence the connection: nothing
  after them is ever answered (`UnknownMethods.NothingAfterArguments`). Behind an empty struct, up to eight
  megabytes of further requests wait unanswered (`UnknownMethods.WaitsBehindStop`). Independence from
  chunking holds for such streams as well.
- A ping that *fails* sends its report while it still has the client locked. If another signal fills the
  channel by then, the report waits until `run` returns, and osquery is not told of the shutdown although
  no RPC is stuck. From the moment `run` has its signal, osquery can still be told exactly when this is not
  so (`LifecycleHeld.TellingPossibleIff`), and is certain to be told exactly when the watcher neither has the
  client nor is on its way to it (`LifecycleHeld.TellingCertainIff`).

Assumed throughout: no panics, hence no poisoned locks; text is valid UTF-8, so a byte sequence will do;
plugin callbacks and RPCs return unless a theorem says otherwise.

## Model

| member | source | states |
|---|---|---|
| Streams.InputProtocol.Read | src/server/threaded.rs:215-223 | The reader over the buffer delivers what is there and sets its flag exactly when bytes were wanted and none came |
| Streams.InputProtocol.ReadExact | src/server/threaded.rs:215-223 | Reading a fixed number of bytes in pieces ends after exactly those bytes, or at the end with the flag set |
| Streams.InputProtocol.ReadMessageBegin | src/osquery.rs:812-814 | The header reader, versioned or old form, leaves value, cursor and flag as the specification function says |
| Streams.InputProtocol.Skip | src/osquery.rs:970-985 | Skipping a field of any type, nested to the depth limit, stops where the specification function stops |
| Streams.InputProtocol.ReadFields | src/osquery.rs:945-993 | The field loop of a generated reader: known ids assigned, others skipped, defaults first, up to the stop byte |
| Streams.InputProtocol.ReadValue | src/osquery.rs:378-423 | A generated reader with its nested map and list loops yields the decoded value, its end, and the flag exactly on running out |
| Streams.OutputProtocol.WriteEntries | src/osquery.rs:1955-1986 | Maps are written in ascending key order, each entry once |
| Streams.OutputProtocol.WriteValue | src/osquery.rs:424-448 | A generated writer appends exactly the value's encoding |
| ThriftValues.SkipWhole | src/osquery.rs:970-985 | Skipping any Thrift value, of any of the eleven types and nested at will, consumes exactly its bytes, and fails exactly when it nests deeper than allowed |
| ThriftValues.AnyValueReadable | src/osquery.rs:945-993 | So a field under an unknown id is passed over by a generated reader exactly when its value is at most 64 deep |
| ThriftValues.NoOtherTypePassed | src/osquery.rs:970-985 | A field under a type byte of no value cannot be passed over |
| ThriftValues.WritersEmitValues | src/osquery.rs:424-448 | A generated writer emits exactly the Thrift value of its struct, announced under that value's own type byte at every level |
| ThriftValues.WrittenPassedOver | src/osquery.rs:970-985 | A peer that does not know a written field passes over exactly that field |
| TypedWriters.StatusWritten | src/osquery.rs:336-356 | The bytes of a status: headers 8, 11 and 10 under ids 1 to 3, absent parts left out |
| TypedWriters.ResponseWritten | src/osquery.rs:424-448 | The bytes of a response: the status as a struct, the rows as a list of string maps |
| TypedWriters.CallArgsWritten | src/osquery.rs:994-1014 | The bytes of the arguments of a call |
| TypedWriters.RegisterArgsWritten | src/osquery.rs:1955-1986 | The bytes of a registration, the triple-nested registry in key order at every level |
| TypedWriters.RequestWritten | src/osquery.rs:581-592 | The bytes of every request: version word, name, number and arguments |
| TypedWriters.AnswerWritten | src/osquery.rs:697-771 | Every request runs its own method of the handler and is answered in these bytes: a reply with the result, or an exception with its kind and message |
| TypedWriters.PassedOverUnknown | src/osquery.rs:970-985 | For every struct on the wire: within the depth skipping allows, so passed over whole by a peer that does not know it |
| SchemaProofs.DecLocal | src/server/threaded.rs:225-234 | A decoding that does not run out of bytes is the same wherever the bytes stand and whatever follows them |
| SchemaProofs.DecEnc | src/osquery.rs:297-356 | For every schema: reading what was written yields the value with absent fields filled by the reader's defaults, and consumes exactly the encoding |
| FieldProofs.FilledStruct | src/osquery.rs:297-335 | What a reader gives each field: the written value, else its default, else nothing |
| FieldProofs.FilledIdentity | src/osquery.rs:297-356 | Read after write is the identity on values with nothing left to fill, nested maps and lists included |
| FieldProofs.FilledIdempotent | src/osquery.rs:297-356 | Filling again changes nothing more, for schemas whose defaults are complete |
| WireProofs.SecondRoundTrip | src/osquery.rs:297-356 | For every struct on the wire: writing what was read and reading it again yields the same value |
| FieldProofs.FieldOrderIrrelevant | src/osquery.rs:945-993 | A struct reads the same with its fields in any order |
| FieldProofs.UnknownFieldsIgnored | src/osquery.rs:945-993 | Fields with unknown ids, anywhere, change nothing |
| FieldProofs.ReadingByLast | src/osquery.rs:945-993 | What is read depends only on the last field of each known id: for a repeated id the last wins |
| WireProofs.MessageBeginAt | src/osquery.rs:609-618 | A written message header is read back and consumed exactly |
| WireProofs.ResponseRoundTrip | src/osquery.rs:378-448 | A response arrives with its status and rows, absent parts as the reader's defaults |
| WireProofs.RegisterRoundTrip | src/osquery.rs:1893-1986 | Registration arguments arrive, with the whole triple-nested registry |
| AbsentParts.ResponseArrives | src/osquery.rs:378-448 | Every response whose sizes the format can express arrives, whatever parts of it are absent |
| AbsentParts.RegistrationArrives | src/osquery.rs:1893-1986 | So does every registration |
| AbsentParts.RequestFits | src/osquery.rs:579-668 | Every request of such sizes is one that the theorems about requests speak of |
| AbsentParts.WhatIsRequired | src/osquery.rs:984-992 | All three arguments of a call and both of a registration are required, and nothing else is |
| AbsentParts.MissingResult | src/osquery.rs:881-893 | A reply without a result is reported as that by a call and by a ping |
| AbsentParts.BareException | src/osquery.rs:598-602 | An exception that says nothing is an unknown error to any method |
| AbsentParts.NoStatusRefused | src/client/manager.rs:138-158 | A response without a status is refused, rows or no rows, before and after the wire |
| AbsentParts.RowsWrittenAsOk | src/server/manager.rs:629-634 | Rows go out under a status with code 0 and "OK", in these bytes |
| Processor.ProcessStable | src/server/threaded.rs:225-234 | An attempt that did not run out of bytes is unchanged by more bytes: same handler effect, reply and length |
| Processor.ProcessRequest | src/osquery.rs:812-838 | One attempt on a whole request, whatever follows it, runs the handler on its arguments, produces its reply and consumes exactly it |
| Processor.PrefixIncomplete | src/server/threaded.rs:208-222 | A proper prefix of a request always hits the end, so no handler runs on it |
| Processor.UnknownMethodUnread | src/osquery.rs:825-836 | An unknown method is answered from the header alone; the message is consumed whole exactly when it has no arguments |
| Messages.SentProcessed | src/osquery.rs:812-838 | The same one attempt for any text that reads as a request, however its client wrote it |
| Messages.SentPrefixIncomplete | src/server/threaded.rs:208-222 | A proper prefix of any such text hits the end, so no handler runs on it |
| Messages.AnyFieldsRead | src/osquery.rs:945-993 | Texts with the arguments' fields in any order, repeated with the last one counting, or among unknown ones, read as the request they carry |
| Messages.HeadersRead | src/osquery.rs:812-814 | So do texts under a header with a version word, whatever its third byte, or without one: each is read to its end as the message it begins |
| BadRequests.ArgumentsDecide | src/osquery.rs:984-992 | Readable arguments run the handler exactly if every required field is among them; otherwise the caller is told and no handler runs; either way exactly the message is consumed |
| BadRequests.MissingFieldAnswered | src/server/threaded.rs:225-234 | What is pipelined after such a message is served as if it had been sent alone |
| BadRequests.MissingFieldReadBack | src/osquery.rs:749-771 | Its caller reads that as a remote error of kind 0 with the text of the fault |
| BadRequests.NoHeaderAfterRequests | src/server/threaded.rs:311-316 | Bytes that begin no header end the connection as an error after any requests small enough: those are answered, nothing else is |
| Server.SyncProcessor.Process | src/osquery.rs:812-838 | The processor object, step by step, does what one attempt is specified to do, and its flag tells aborted attempts apart |
| Server.SyncProcessor.WriteException | src/osquery.rs:749-771 | The exception reply for an application error or any other error |
| Server.ServeBuffered | src/server/threaded.rs:276-318 | The inner loop terminates, answers what is buffered in order, and drains exactly what each request consumed |
| Server.ServeConnection | src/server/threaded.rs:235-320 | The outer loop does what `Serve` says on every sequence of reads; no attempt is made on more than the limit, and after any reads the buffer holds at most the limit and a chunk, or the limit while the connection stands |
| Serving.DrainAppend | src/server/threaded.rs:276-318 | Parsing a longer buffer is parsing a prefix of it and then the rest: re-parsing from the start loses and repeats nothing |
| Serving.ChunkingExists | src/server/threaded.rs:249-268 | Every stream can be cut into such reads, so what follows is about every stream |
| Serving.ServeIsDrain | src/server/threaded.rs:225-319 | For every byte stream and every chunking the loop equals one pass over the whole stream, and stops for size exactly when some read overflows |
| Serving.ServeTooLarge | src/server/threaded.rs:268-274 | The loop stops for size at the first read that overflows, with everything before that read served and nothing after |
| Serving.ChunkingIrrelevant | src/server/threaded.rs:225-319 | Two chunkings of one stream that are not stopped for size give the same bytes written, handler state, outcome and leftover; one that is stopped has written a part of what the other has, and if both are stopped one has written a part of what the other has |
| Serving.SizeStopsIff | src/server/threaded.rs:268-274 | For any byte stream: some chunking is stopped for size exactly when at some point what is buffered leaves no room for the next full read |
| Disconnects.ServeOn | src/server/threaded.rs:248-319 | Serving any reads and then more is serving the first and going on from there, and not at all once they ended the connection |
| Disconnects.EndOfReads | src/server/threaded.rs:249-267 | After any reads: the peer closing ends the connection cleanly exactly when nothing is buffered and as mid-request otherwise, a failed or overlong read as such; what was served stays so and nothing later is read |
| Disconnects.CleanIff | src/server/threaded.rs:250-258 | Over all reads whatsoever the end is clean exactly when the peer closes with nothing unanswered |
| Disconnects.RequestsThenClose | src/server/threaded.rs:250-258 | A peer that sends requests and part of another and closes: each whole request was answered, and the end is clean exactly when there was no part |
| RequestStreams.RefusedIff | src/server/threaded.rs:203-206 | For any stream of requests and a part of one more, the exact condition under which some chunking is stopped for size |
| RequestStreams.RefusalArises | src/server/threaded.rs:203-206 | For every size from one byte over the safe one up to the limit: two requests of that size, in a chunking that is stopped for size |
| RequestStreams.SafeNotRefusable | src/server/threaded.rs:268-274 | Requests of at most 33546241 bytes, with an unfinished end of at most 33554432, never meet that condition |
| RequestStreams.ServableIff | src/server/threaded.rs:203-206 | Some chunking has the stream served in full exactly when no request and no part is over the limit |
| RequestStreams.RequestsServed | src/server/threaded.rs:248-319 | A stream of requests and part of another that no chunking can have refused, however their clients write them and in any chunks: each answered in order on the state the last one left, only the part stays buffered |
| RequestStreams.WholeRequestsServed | src/server/threaded.rs:248-319 | The same for a stream that ends with a request, leaving nothing buffered |
| RequestStreams.CallsRunOnce | src/server/threaded.rs:276-309 | The calls the handler runs are exactly the calls received, in order: none lost, repeated or run early |
| RequestStreams.OverlongNeverRuns | src/server/threaded.rs:268-274 | A request over the limit, among any requests and followed by anything, never reaches the handler: the loop stops for size having answered only requests before it |
| SafeRequests.NoOverflow | src/server/threaded.rs:268-274 | No request of at most MAX_REQUEST_BYTES - READ_CHUNK_BYTES + 1 bytes is refused for size, whatever bytes are pipelined after it |
| SafeRequests.SafePrefixServed | src/server/threaded.rs:248-319 | Such requests are answered in order whatever bytes follow: from there on the connection behaves as one that begins with those bytes |
| SafeRequests.SafeRequestsAnswered | src/server/threaded.rs:304-310 | Their replies are written once their bytes have been read, whatever came in with them |
| SafeRequests.OverlongAfterSafe | src/server/threaded.rs:268-274 | A request over the limit after such requests: those are answered, it is not run and nothing more is written |
| UnknownMethods.FollowUpIntactIff | src/server/threaded.rs:225-234 | After a call to an unknown method every follow-up is served as if it had been sent alone exactly when the call has no arguments |
| UnknownMethods.RefusalReadBack | src/osquery.rs:749-771 | Its caller reads the refusal as a remote error of kind 1 with the text for that method |
| UnknownMethods.FieldSilences | src/osquery.rs:825-836 | Once the buffer starts with a field, nothing more is answered and no handler run, whatever is sent in any chunks: the connection waits or stops for size |
| UnknownMethods.NothingAfterArguments | src/osquery.rs:825-836 | So after any requests, and then an unknown method with an argument, all of them and its header within the safe size: their replies and the refusal are all that is ever written |
| UnknownMethods.WaitsBehindStop | src/osquery.rs:825-836 | After an unknown method with empty arguments, whatever follows that begins with a version word and is under 0x80_0103 bytes stays in the buffer, unanswered, in any chunks |
| Client.SyncClient.SendPing | src/osquery.rs:580-592 | Each request is written under the next sequence number |
| Client.SyncClient.SendCall | src/osquery.rs:609-619 | The same for a call with its arguments |
| Client.SyncClient.SendShutdown | src/osquery.rs:637-648 | The same for a shutdown request |
| Client.SyncClient.Receive | src/osquery.rs:593-605 | The receiving half of every method: the checks on a reply, in order, and what each failure is reported as |
| Replies.HeaderChecked | src/osquery.rs:594-602 | A reply is refused for its number exactly when that is not the expected one, then for its method, then for its type; what is taken as a result or an error bears all three |
| Client.MissingCode | src/client/manager.rs:138-151 | A missing code is refused as -1 when folded directly and accepted once read off the wire |
| Client.WireFoldFaithful | src/client/manager.rs:135-151 | The fold gives the same before and after the wire exactly when the status carries a code, and a uuid if the code is 0 |
| Client.WireFoldAlike | src/client/manager.rs:135-151 | It accepts or refuses alike before and after the wire exactly when the status carries a code |
| Client.RegistrationUuid | src/client/manager.rs:386-403 | Every registration reply that is accepted, with code 0 or none, is read with a uuid: its own or 0, never missing |
| Client.WireOutcome | src/server/manager.rs:629-644 | Wire conversion, encoding, decoding and folding together: rows as they were, a non-zero status as it was, any other error as status 1 with its text |
| Client.DeliveredFaithful | src/server/manager.rs:626-628 | A plugin's outcome arrives as it left exactly when it is rows or a status with a non-zero code |
| Client.CallReadBack | src/osquery.rs:620-635 | Every reply to a call reaches the caller as what it was: rows or status, an application error, or any other error as unknown with its text; no byte further is read |
| Client.PingReadBack | src/osquery.rs:593-605 | Every reply to a ping reaches the caller: the status with absent parts filled, or the error it was |
| Client.ShutdownReadBack | src/osquery.rs:656-668 | So does every reply to a shutdown request |
| Replies.ExceptionReadBack | src/osquery.rs:749-771 | A handler's error, written as an exception, is read back by any method with its kind and message, and no byte further |
| Session.SessionDelivered | src/osquery.rs:579-668 | Over any run of pings, calls and shutdowns within the sequence range and any chunking, each is answered with what the handler or plugin said to it, under its own number |
| Session.OnlyItsOwnReply | src/osquery.rs:594-596 | A reply to one request is refused by every other: for its number exactly if that differs, for its method exactly if only that does |
| AcceptLoop.PermitsConserved | src/server/threaded.rs:142-200 | Free permits, the acceptor's and the tasks' always add up to the limit, so at most that many are served at once |
| AcceptLoop.CounterExact | src/server/threaded.rs:186-192 | Until listening ends the counter is the number of connections in service |
| AcceptLoop.AloneWhenCounterLow | src/server/threaded.rs:284-297 | A task that reads a counter of at most one is the only one in service |
| AcceptLoop.ClosingFreesCapacity | src/server/threaded.rs:147-161 | A full server accepts again as soon as a served connection closes |
| AcceptLoop.AcceptsUnlessFull | src/server/threaded.rs:147-171 | A server that is listening and not full takes the next connection at once |
| AcceptLoop.TasksGoOn | src/server/threaded.rs:178-199 | Every task can go on by itself until its permit is back and the counter right again |
| AcceptLoop.StopEndsListening | src/server/threaded.rs:152-171 | Once a stop has been asked for listening can end, whatever the acceptor waits for |
| AcceptLoop.ListeningEndsIff | src/server/threaded.rs:146-174 | Listening ends exactly when an accept fails or an asked-for stop is seen |
| AcceptLoop.NothingAcceptedAfter | src/server/threaded.rs:146-174 | After that no connection is taken any more |
| AcceptLoop.AllPermitsReturn | src/server/threaded.rs:178-199 | When listening has ended and the tasks are gone every permit is back |
| ClientLock.TryLock | src/server/manager.rs:402-417 | The polling loop locks at the first poll that finds the client free, gives up at the first past the deadline, and ends within the deadline and one nap |
| LifecycleTheorems.DeregisteredOnce | src/server/manager.rs:432-447 | Deregistration is attempted at most once, and only with the uuid registration returned |
| LifecycleTheorems.PluginsNotifiedOnce | src/server/manager.rs:458-466 | No shutdown hook is called twice or without a registration; a finished teardown has called all of them |
| LifecycleTheorems.NothingLeftToNotify | src/server/manager.rs:619-624 | A registered server that was dropped, or whose `run` returned its signal, has called every hook |
| LifecycleTheorems.ListenerStopped | src/server/manager.rs:454-456 | A finished teardown has told the listener to stop |
| LifecycleTheorems.ClosedClientUnused | src/server/manager.rs:468-481 | An RPC begins only on a client neither closed nor cleared, by whoever has locked it, and one at a time, in every interleaving with the watcher; a borrowed client is neither closed nor cleared |
| LifecycleTheorems.DeregistrationSkippedOnlyIfHeld | src/server/manager.rs:437-452 | Deregistration is skipped only when the watcher still holds the client a full second after the attempt to lock it began |
| LifecycleTheorems.CloseSkippedOnlyIfHeld | src/server/manager.rs:468-481 | A teardown that leaves has closed and cleared an owned client, unless the watcher still holds it a full second after the attempt to close it began |
| LifecycleTheorems.FirstSignalDecides | src/server/manager.rs:552-573 | Whatever else is sent, and even if it came before `run` started: `run` returns the first signal that entered the channel |
| LifecycleTheorems.ReceiveDoesNotBlock | src/server/manager.rs:73-75 | Once any signal has been enqueued, `run` does not block on receive, and receives the first |
| LifecycleSignals.SignalsArriveOnce | src/server/manager.rs:73-75 | A sender whose send succeeded finds its own signal among those that entered the channel, once; no other finds one |
| LifecycleSignals.SentAsGiven | src/server/manager.rs:706-710 | From the moment it is sent a signal has arrived as it was, or its sender still waits with it, or it was refused: a blocking send only by a channel nobody listens to |
| LifecycleSignals.FailedPingReported | src/server/manager.rs:543-547 | A ping that fails, and nothing else, is reported to the channel, unless nobody is left to receive |
| LifecycleSignals.NobodyLeavesRunWaiting | src/server/manager.rs:552 | While `run` waits to receive, a watcher that has gone, or any sender at all, has left it a signal, and it goes on with the first |
| LifecycleTheorems.SendersReleased | src/server/manager.rs:706-710 | After `run` returns or the server is dropped, every sender still blocked can proceed and is refused; a reporting watcher lets go of the client |
| LifecycleWatch.OneLatePing | src/server/manager.rs:528-557 | Counted over the whole run: after the ping-stop message at most one more ping begins |
| LifecycleWatch.WatcherGoesOn | src/server/manager.rs:527-550 | The watcher can always take a step, unless its ping is in flight, the calling thread has the client, or its report waits for room in the channel |
| LifecycleWatch.StoppedWatcherEnds | src/server/manager.rs:528-550 | Told to stop, a watcher that sleeps ends in two steps of its own, without touching client or channel |
| LifecycleWatch.WaitBounded | src/server/manager.rs:552-567 | Counted tick by tick on any run: one teardown waits at most two seconds and 10 ms for a borrowed client, three seconds and 20 ms for an owned one, and the lateness of its sleeps, besides its own RPC and plugins |
| LifecycleWatch.WatcherAwaited | src/server/manager.rs:558-567 | `run` returns its signal only when the watcher has finished or a second has passed since it began to wait for it |
| LifecycleWatch.RunTellsEverybody | src/server/manager.rs:552-574 | While `run` waits the listener serves; past the ping-stop message the watcher has been told; when it returned a signal the listener was stopped; it never returns without a result, and it failed to start exactly if no listener was made |
| LifecycleWatch.ShutdownTearsDown | src/server/manager.rs:432-484 | Shutting down or dropping a registered server: once that call is over, and for ever after, every hook has been called and the listener stopped |
| LifecycleWatch.PluginsExclusive | src/server/manager.rs:458-466 | No shutdown hook runs in a plugin that a request is in |
| LifecycleTheorems.NeverStuck | src/server/manager.rs:419-430 | While its RPC and the plugins are not at work, teardown can always take a step or its wait runs down |
| LifecycleLiveness.EffortBounded | src/server/manager.rs:432-484 | Every step and every waiting moment of teardown brings down a measure that nothing else raises |
| LifecycleLiveness.TeardownEnds | src/server/manager.rs:552-574 | From the moment a signal is received, teardown takes a bounded number of steps and moments of its own in every interleaving, and is over by the time it has taken that many |
| LifecycleLiveness.RunCanReturn | src/server/manager.rs:552-574 | From anywhere in its teardown `run` can return, with the first signal, without any ping being answered or the watcher taking a step |
| LifecycleHeld.WedgedPing | src/server/manager.rs:31-34 | With a ping that never returns, begun at any time before deregistration, the bound holds with no RPC to excuse; osquery is not told and the client not closed |
| LifecycleHeld.StuckReportSkipsDeregistration | src/server/manager.rs:535-547 | A failed ping whose report finds the channel full keeps the client locked until `run` returns: deregistration is skipped in every continuation |
| LifecycleHeld.TellingPossibleIff | src/server/manager.rs:535-557 | Once `run` has its signal, osquery is told in some continuation exactly when no failed ping is stuck reporting into a full channel |
| LifecycleHeld.TellingCertainIff | src/server/manager.rs:528-558 | Osquery is told in every continuation that gets past that point exactly when the watcher neither has the client nor is on its way to it; after the ping-stop message, when it is asleep or on its way out |
| LifecycleHeld.BothArise | src/server/manager.rs:535-547 | Both of these situations are reachable |
| DispatchProofs.NoDeadlock | src/server/manager.rs:662-704 | In every reachable state of any number of requests, registrations, shutdowns and pings, each unfinished thread can go on or waits, at most two deep, for one that can |
| DispatchOrder.PluginsFoldTheirCalls | src/server/manager.rs:689-693 | Each plugin ends in the state that serving its operations one by one, in lock order, leaves |
| DispatchOrder.RequestsServedInOrder | src/server/manager.rs:668-703 | A finished request is in its plugin's order exactly once, as itself, with the reply a single thread would have given there; an unregistered item gets none |
| DispatchUses.OperationsFitTheirThreads | src/server/manager.rs:327-342 | Whatever was done in a plugin: a request made its own call there, a registration described it, a shutdown hooked it, a ping did nothing |
| DispatchUses.SweepsVisitEveryPlugin | src/server/manager.rs:327-342 | A finished registration has described every plugin exactly once, and before it used the client; a finished shutdown has hooked every plugin exactly once |
| DispatchUses.HookedIffShutDown | src/server/manager.rs:458-466 | A plugin has been hooked exactly if a shutdown stands in its order |
| DispatchUses.ClientUses | src/server/manager.rs:347-356 | A finished registration or ping has used the client once; a finished shutdown has gone for it twice and used it at most as often; a request never does |
| DispatchUses.HooksBetweenAttempts | src/server/manager.rs:432-484 | A shutdown is in no plugin before it first went for the client, and has hooked every plugin by the time it goes for it again |
| DispatchUses.GoneWithoutOnlyIfHeld | src/server/manager.rs:402-417 | A shutdown goes without the client only while another thread has it |
| Registry.PrintParse | src/server/mod.rs:18-41 | Registry names print and parse back, and nothing else parses to them |
| Registry.NamesPrinted | src/server/mod.rs:18-28 | They are printed as osquery spells them |
| Registry.BatchRegisters | src/server/manager.rs:307-325 | A batch succeeds exactly when all its plugins are new; otherwise those before the first that is not are registered, and nothing after |
| Registry.AdvertisedIsReachable | src/server/manager.rs:668-686 | The description names exactly the pairs a request can reach, each with that plugin's routes |
| Registry.AdvertisedAfterAnyCalls | src/server/manager.rs:287-342 | The same after any sequence of registrations, failed ones included, and the plugin reached bears those two names |
| Registration.OsqueryKnowsWhatIsReachable | src/server/manager.rs:347-356 | What osquery decodes from the registration call lists an item exactly when a request by those names reaches a plugin, with its routes |
| Extension.CallsReachWhatIsAdvertised | src/server/manager.rs:662-704 | A caller asking for what osquery was told of gets the outcome of the plugin with those names and routes; asking for anything else, status 1 with the text for the unknown name, and no plugin runs |
| Extension.PingsAnswered | src/server/manager.rs:651-653 | A ping is answered with code 0 and "OK", which the caller's fold accepts |
| RegistryObject.ExtensionRegistry.RegisterPlugin | src/server/manager.rs:287-300 | The registry after one registration, and whether it was accepted |
| RegistryObject.ExtensionRegistry.RegisterPlugins | src/server/manager.rs:307-325 | The registry after a batch that stops at the first duplicate |
| RegistryObject.ExtensionRegistry.GenRegistry | src/server/manager.rs:327-342 | Whatever order the hash maps yield, the description has each registry under its printed name with every plugin's routes |
| RegistryObject.ExtensionRegistry.LookUp | src/server/manager.rs:668-687 | The first phase of a call: unknown registry, unknown item, or the plugin |
| StatusRepair.RepairCorrect | src/plugin/logger.rs:129-134 | The three edits turn osquery's text into the array of its objects exactly when no key is empty or ends in an escaped quote |
| StatusParser.RepairParses | src/plugin/logger.rs:129-145 | Parsing the repaired text returns the objects, in order, under exactly that condition |
| StatusParser.QuoteKeySpoils | src/plugin/logger.rs:129-134 | A key that is one double quote is an input the repair spoils |
| Logger.LoggerPlugin.Call | src/plugin/logger.rs:121-165 | The nested loops carry out exactly the request's plan, in key order, threading the callback's state and collecting every failure |
| Logger.LoggerPlugin.LogStatus | src/plugin/logger.rs:126-150 | The status branch: missing, empty, unparsable and non-array lists are failures, each element is delivered in order |
| Logger.LoggerPlugin.Shutdown | src/plugin/logger.rs:109-115 | The hook runs the first time only |
| Logger.OkMeansAllDelivered | src/plugin/logger.rs:160-164 | No failure is collected exactly when nothing asked for is malformed and every delivery succeeds |
| Logger.AnswerIffDelivered | src/plugin/logger.rs:160-164 | A call succeeds exactly when everything its entries ask for, in key order, is delivered without failure, and otherwise returns all the failures in order |
| Logger.AllHandedOver | src/plugin/logger.rs:121-165 | The callback is given every delivery as it is and in order, on the state the last one left, whatever fails on the way |
| Logger.EventsByName | src/plugin/logger.rs:33-48 | What an entry asks for by the name it stands under: `health`, `init`, `snapshot` and `string` hand over their text, `log` nothing, an unknown name is a failure |
| Logger.PlanAppend | src/plugin/logger.rs:121-122 | A request asks for what its entries ask for, one after the other |
| Logger.StatusAsParsed | src/plugin/logger.rs:126-150 | Whatever the JSON library: on keys that are not empty and do not end in a quote, the callback gets what it makes of the array of the objects sent |
| Logger.StatusDelivered | src/plugin/logger.rs:126-145 | osquery's malformed list reaches the callback as exactly its objects in order, if and only if no key is empty or ends in a quote |
| QueryContext.Deserialize | src/plugin/table.rs:252-285 | Filling the map column by column, stopping at the first bad one, computes the decoded context |
| QueryContext.ContextRead | src/plugin/table.rs:307-430 | Either dialect carries any context without loss; for a repeated column the last counts |
| QueryContext.UnreadableSkipped | src/plugin/table.rs:315-329 | A constraint that cannot be read leaves the others as they are, wherever it stands |
| QueryContext.DecodeFails | src/plugin/table.rs:259-283 | Decoding fails exactly when the constraints are no list, or a column has no name or cannot be read |
| QueryContext.OperatorCodes | src/plugin/table.rs:432-458 | A code is read as an operator exactly if it is that operator's |
| QueryContext.OperatorTexts | src/plugin/table.rs:406-430 | An operator is its number or decimal text for it, with or without a plus sign; negative numbers, the empty string and other values are none |
| QueryContext.ColumnFails | src/plugin/table.rs:286-334 | A column cannot be read exactly when its affinity cannot, or its list is there and neither "" nor an array |
| QueryContext.OtherSpellings | src/plugin/table.rs:286-329 | A constraint may be a pair, an affinity an object with its name for a key, a column may leave out its list |

## Left out

- Per-struct readers and writers: the generated code is one template, so it is modelled once over field lists; InternalOptionInfo, InternalExtensionList and the other manager-side structs and methods are further instances.
- Typed reads of mistyped fields: readers go by field id, as the code does; what the thrift crate makes of a mismatched container is part of its internals.
- Thrift crate internals beyond the format: transport buffering, allocation limits, UTF-8 validation. That crate's source is not part of this model.
- Strings and containers of 2^31 elements or more, whose size field would wrap: the round trips assume smaller ones.
- Texts of error messages: parameters, or left empty; contexts added to errors are not modelled.
- A failing write to the peer: the serving loop's replies are what it would write to a working one.
- Sockets, named pipes, the Windows accept loop, OS signal delivery, tokio's scheduling and `block_in_place`, tracing.
- Panics and poisoned locks, and with them the watcher's report of a poisoned client lock.
- Lifecycle: the ping interval is not timed, a ping may come due at any moment; that only adds interleavings.
- LifecycleTheorems.WaitBounded: counts waiting, not the running time of the code between waits, and takes the lateness of sleeps and timed waits as the parameter `slack`.
- Dispatch: the bounded attempts of `shutdown` may give up whenever the client is taken, not only at their deadline; the deadline is in Lifecycle.
- Client.SyncClient.SendCall: requires a sequence number below 2^31 - 1, where the code would overflow.
- Logger.StatusDelivered: assumes a parser for compact arrays of flat objects with string values; serde_json's handling of other JSON, and its reordering of keys when it prints, are parameters of the logger's configuration.
- The writable table's insert, update and delete, mutation rows and routes, the config and distributed plugins, builders, display strings, column options and table specs: one-branch or finite facts.
- `query`, `options`, `extensions`, `query_row` and waiting for the socket on the client side: the same call template, or I/O.
