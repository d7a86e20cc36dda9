# Verification of go-obskit's asynchronous sinks and HTTP logging

A Dafny model of the parts of go-obskit that are hardest to get right, with proofs that hold for
every input, every run and every interleaving. `dafny verify dfyconfig.toml` checks all of it.

**The sink protocol** (`Protocol*.dfy`, `Middleware.dfy`, `Backoff.dfy`). Producers call `enqueue`,
a caller runs `Close`, one worker runs `run`. They share a bounded channel, a read-write lock, the
`closed` flag, three close-once channels, a cancellable context, `closeCtx` and six counters.
httpsink, elastic and lokisink repeat it; only elastic decodes the body of an answer, which the
model keeps apart. It is modelled twice:

- as a labelled transition system, one atomic operation on shared memory per step, any number of
  producers. `SinkInvariant` gives the inductive invariant, `SinkShutdown` what it says about
  accounting and shutdown, `SinkLiveness` that every fair infinite run shuts down once `Close` has
  been called;
- as a class with the sink's own fields, loops and early returns. Each of its methods is proved to
  take only steps of the transition system, so the theorems about reachable states hold of the
  object. While the worker runs, any other goroutine may take any number of steps between two of
  its operations (`Others`).

**The encoders** (`Quote.dfy`, `Json.dfy`, `Attrs.dfy`, `Encode.dfy`, `Payload.dfy`,
`Document.dfy`). httpsink prints a record into a byte buffer with a `first` flag and Go quoting;
lokisink and elastic fill a nested map from the same attribute tree. A text is a sequence of runes,
each printable or not, and of bytes that are not UTF-8, so Go quoting is modelled escape by escape.
There is an independent reader down to the fields of a record (`Recover.dfy`), a grammar of JSON
numbers (`Tokens.dfy`), and the two forms are compared field by field. `HttpSink.dfy` puts the
encoder's verdict on a batch behind the worker of the protocol.

**Snapshot and size estimate** (`Snapshot.dfy`, `Size.dfy`), **body capture and replay**
(`Capture.dfy`), **redaction** (`Redact.dfy`, `Texts.dfy`) and **sampling** (`Sampling.dfy`,
`Outbound.dfy`) are code proved against simple specifications, and what those specifications
promise is proved about them.

## Where the code does less than it promises

Each of these is a lemma with the exact condition under which the promise is kept.

- `enqueued = sent + failed + pending` is false while a producer stands between its channel send
  and `enqueued.Add` (`PlainEquation`, `PlainEquationFails`).
- A batch cut off by Close is shipped again under Close's context. In elastic this fails when the
  cancellation meets the reading of the answer's body: the error is wrapped so that nobody sees
  it, and the batch is counted as failed. A shipment that met the cancellation is shipped again if
  and only if an answer or a wait showed it (`CutShipmentIsReshipped`, `MaskedCutIsLost`).
- The retry delay wraps in int64: the schedule is the configured one if and only if there
  are no retries or `RetryBackoff * 2^(MaxRetries-1)` is below 2^63 (`ScheduleExact`).
- The "JSON" of httpsink is JSON only where Go quoting and JSON quoting coincide: a bell character
  or a byte outside UTF-8 makes the record unreadable for a JSON parser (`QuotedIsJson`,
  `BellIsNotJson`), and where no float is infinite or not a number (`RecordIsJson`, `WordIsJson`).
- lokisink and elastic drop a group that a LogValuer answers with under an empty key; httpsink
  inlines it. The condition is exact for the fields written (`SameFields`, `HiddenGroupDiffers`),
  and for the maps when no object repeats a key (`StreamAgreesExactly`); with repeated keys it is
  sufficient (`StreamAgreesWithDocument`).
- Taking a snapshot can lose an empty group that a LogValuer answers with (`SnapshotKeepsFields`,
  `EmptyGroupVanishes`).
- The size estimate is called conservative. It is, for fitting values, as long as time and level
  together take at most fifty bytes (`EstimateIsConservative`); a pointer-kind error is measured by
  its JSON but queued as its text (`ErrorFitsOnlyWhenShort`).
- A response that fills the capture buffer to the byte is marked truncated if an empty write
  follows (`CaptureIsTruncation`, `FilledThenEmpty`). The redaction fallback is marked truncated
  when it just fits (`FallbackFlag`).
- A JSON request body is captured from a prefix of one byte more than the limit. That captures all
  bodies up to a length like the whole if and only if none is longer than the prefix
  (`JsonPrefixSuffices`); a prefix that does not parse is logged as the fallback, from a limit of
  50 on not as truncated (`CutJsonFallsBack`). For JSON responses the same holds with the buffer
  itself as the bound (`JsonResponseSuffices`).
- 1-in-N sampling is off by one after 2^64 decisions unless N divides 2^64 (`RateKept`).

## Model

| member | source | states |
|---|---|---|
| SinkProtocol.Normalize | httpsink/config.go:77-109 | Whatever the caller sets, the running sink has queue and batch sizes and a record limit of at least one, no negative retry count and positive durations; each setting that is valid by itself stays as it was, also in a partly set configuration. |
| SinkInvariant.ProducerKeepsConserved | httpsink/middleware.go:127-161 | Every atomic step of `enqueue` keeps the order of accepted records and the agreement of enqueued, dropped, sent and failed with history, with ghost terms for producers between a channel operation and its counter. |
| SinkInvariant.ProducerKeepsTallied | httpsink/middleware.go:137-142 | Every such step keeps oversized equal to the number of calls that found their record too large, less those about to count it. |
| SinkInvariant.ProducerKeepsInv | httpsink/middleware.go:127-161 | Every step of any producer keeps the whole invariant, whatever Close and the worker are doing. |
| SinkInvariant.CloserKeepsInv | httpsink/middleware.go:95-103 | Every step of the once-guarded body of Close keeps it: each flag is published in order, and the write lock is held only when nobody is inside `enqueue`. |
| SinkInvariant.WorkerKeepsConserved | httpsink/worker.go:20-62 | Receiving, flushing and counting move records from queue to batch to history without losing, doubling or reordering one. |
| SinkInvariant.WorkerKeepsDrainsLate | httpsink/worker.go:38-62 | The worker drains only once all admitted enqueues are over and leaves only with an empty queue and an empty batch. |
| SinkInvariant.WorkerKeepsShipsSafely | httpsink/worker.go:21-36 | Attempts stay within MaxRetries, closeCtx is read only after it was written, and a shipment that shows a cancellation of its own context is never about to be counted failed. |
| SinkInvariant.NextKeepsInv | httpsink/worker.go:15-63 | Every step of every goroutine keeps the invariant. |
| SinkInvariant.ReachableInv | httpsink/middleware.go:91-161 | So it holds in every state of every interleaving of any number of producers, Close and the worker. |
| SinkShutdown.AcceptedIsFlushedThenPending | httpsink/worker.go:20-62 | In every reachable state the accepted records, in order, are all counted batches, then the current batch, then the queue; sent + failed counts the first part exactly, and enqueued plus the producers between send and add counts all of it. |
| SinkShutdown.PlainEquation | httpsink/middleware.go:145-160 | `enqueued = sent + failed + pending` holds if and only if no producer is between its send and its add. |
| SinkShutdown.PlainEquationFails | httpsink/middleware.go:146-147 | A reachable state in which it fails, for every configuration and fitting record. |
| SinkShutdown.EachCallCountsOnce | httpsink/middleware.go:131-160 | Every finished call moved exactly one of enqueued and dropped; oversized counts exactly the calls with a record too large, which are among the dropped ones; retried counts exactly the failed posts that are tried again. |
| SinkShutdown.BoundsHold | httpsink/worker.go:43-60 | The queue never exceeds QueueSize, the batch is below BatchSize at every select, every counted batch has 1 to BatchSize records, no accepted record is larger than a set MaxRecordBytes, no attempt exceeds MaxRetries. |
| SinkShutdown.ShortBatchesHaveACause | httpsink/worker.go:43-60 | In every reachable state a counted batch short of BatchSize was flushed by a tick or by the end of the drain; one flushed for being full has exactly BatchSize records; the end of the drain flushes only the very last batch. |
| SinkShutdown.CutShipmentIsReshipped | httpsink/worker.go:25-28 | A shipment under the sink's own context that met Close's cancel goes on to a second one under Close's context if and only if an answer or a wait showed the cancellation, which for a sink that does not decode the answer's body is always; what is counted failed showed none; closeCtx is never read unset. |
| SinkShutdown.MaskedCutIsLost | elastic/worker.go:165-174 | For elastic, for every configuration and fitting record, a reachable state in which a batch cut off by Close while the answer's body was read is counted failed, with no second shipment and Close's context still alive. |
| SinkShutdown.NothingLostAtShutdown | httpsink/worker.go:40-52 | When `done` is closed, queue and batch are empty, nobody who saw closed == false is still inside, and every accepted record was counted, in order: enqueued = sent + failed. |
| SinkShutdown.AfterDoneOnlyDrops | httpsink/middleware.go:131-136 | From then on, in every continuation, nothing but `dropped` changes, by one for each call that returns. |
| SinkLiveness.HelpfulCanMove | httpsink/middleware.go:95-103 | The goroutine on which shutdown waits always has an enabled step, a producer blocked on a full queue included. |
| SinkLiveness.ShutdownNeverStuck | httpsink/middleware.go:95-103 | No reachable state between the start of Close and `done` is a deadlock. |
| SinkLiveness.ProducerRank | httpsink/middleware.go:144-160 | No producer step raises the shutdown rank; while Close waits for the lock every step of an admitted producer lowers it. |
| SinkLiveness.FlushRank | httpsink/worker.go:21-36 | Every step inside a flush, second shipment and retries included, lowers the work left. |
| SinkLiveness.StepProgress | httpsink/worker.go:38-62 | Every step of anybody lowers the rank, finishes, or keeps the helpful goroutine helpful. |
| SinkLiveness.CloseCompletes | httpsink/middleware.go:91-111 | In every fair infinite run in which Close is called, `done` is eventually closed with everything accepted counted, whatever the transport answers and however many goroutines keep logging. |
| SinkMiddleware.InterferenceIsForeign | httpsink/worker.go:38-62 | However other goroutines interleave, the worker's own data is untouched, the queue only grows, and not at all once enqueuesDone is closed. |
| SinkMiddleware.Middleware.constructor | httpsink/middleware.go:61-74 | A new sink is in an initial state of the protocol. |
| SinkMiddleware.Middleware.Enqueue | httpsink/middleware.go:127-161 | One call: exactly the state change of each of the closed, oversized, full, blocked and accepted cases, all by protocol steps; on an open sink oversized grows if and only if 0 < MaxRecordBytes < size, and a record of at most that size is queued when there is room. |
| SinkMiddleware.Middleware.Close | httpsink/middleware.go:95-103 | Goes from the old state to the new by steps of Close alone, which come in one order: context, flag, cancel, stop, lock, enqueuesDone; the last only with no call of `enqueue` inside. A second call changes nothing. |
| SinkMiddleware.Middleware.TryOnce | httpsink/worker.go:82-97 | One turn of the retry loop under interference, with exactly one retried.Add for each further wait. |
| SinkMiddleware.Middleware.TrySends | httpsink/worker.go:80-99 | For every oracle of answers: at most MaxRetries + 1 sends, the scheduled delays, retried grown by the number of waits, nil exactly when the last send succeeded. By name of the answer: none after a success, a rejection or a hidden cancellation; after a transient failure, a deadline or a cancellation another one, unless MaxRetries + 1 are used up or the wait is cut short. |
| SinkMiddleware.Middleware.Ship | httpsink/worker.go:72-100 | The same for a whole call; every post carries the payload of the batch, and without a payload nothing is posted and the call fails. |
| SinkMiddleware.Middleware.WaitRetry | httpsink/worker.go:147-156 | A wait ends by elapsing, with the next attempt, or with the error of the job's own context, which is joined. |
| SinkMiddleware.Middleware.ShipContext | httpsink/worker.go:65-70 | A first shipment under Close's context if the sink is closed, under its own if not. |
| SinkMiddleware.Middleware.Reship | httpsink/worker.go:25-28 | A second shipment if and only if the first one failed with a cancellation among its errors and the sink is closed, whatever its context; a failure that is not shipped again was no cancellation of the sink's own context. |
| SinkMiddleware.Middleware.Flush | httpsink/worker.go:21-36 | The batch becomes one counted shipment, sent exactly when the last shipment was delivered; at most 2 * (MaxRetries + 1) sends, and none of a batch that is no payload; an empty batch changes nothing. |
| SinkMiddleware.Middleware.Drain | httpsink/worker.go:42-53 | Everything owed when enqueuesDone was closed is shipped, in order, before `done` closes. |
| SinkMiddleware.Middleware.Take | httpsink/worker.go:54-58 | A received record joins the batch; nothing is shipped while the batch is short of BatchSize; one that reaches it is shipped at once, alone, with exactly BatchSize records. |
| SinkMiddleware.Middleware.Run | httpsink/worker.go:38-62 | The main loop under every schedule of select choices and every interference: which batches it has shipped and what it holds follow, turn by turn, from what it saw of the queue and of stop; it takes stop whenever it is chosen and closed, and then ends with everything accepted counted, in order, or waits for enqueuesDone. |
| HttpSink.Open | httpsink/worker.go:72-79 | A sink that posts of each batch what the encoder makes of it. |
| HttpSink.Build | httpsink/worker.go:73-79 | The encoder's loops build the payload, within MaxBatchBytes, exactly for batches that marshal and fit. |
| HttpSink.Flush | httpsink/worker.go:21-36 | Every post of a flush, in either shipment, carries the encoded batch and is never above MaxBatchBytes; a batch that does not fit is not posted and counts as failed. |
| Backoff.DelayExact | httpsink/worker.go:91-94 | While RetryBackoff * 2^attempt fits int64 the delay is the doubled and capped one. |
| Backoff.FirstOverflow | httpsink/worker.go:91 | The first product that does not fit gives a negative delay. |
| Backoff.ScheduleExact | httpsink/worker.go:81-95 | All n delays are the configured ones if and only if the last product fits int64. |
| Backoff.DelaysGrow | httpsink/worker.go:91-94 | Until then delays are positive, at most MaxBackoff, and never shrink. |
| Backoff.TotalWaitClosedForm | httpsink/worker.go:91-95 | The total wait is r * (2^k - 1) + (n - k) * cap, k being the first capped attempt. |
| Backoff.TotalWaitBounded | httpsink/worker.go:91-95 | n waits take at most n * MaxBackoff, overflow or not. |
| GoQuote.UnquoteQuote | httpsink/encode.go:80 | Every text can be recovered from its quoted form, rune for rune and byte for byte. |
| GoQuote.QuoteInjective | httpsink/encode.go:126 | Different keys never print alike. |
| GoQuote.QuotedIsJson | httpsink/encode.go:110-113 | The quoted text is a section 7 string of RFC 8259, and then one that means the text, if and only if each of its symbols has an escape that JSON shares. |
| GoQuote.BellIsNotJson | httpsink/encode.go:112 | A text whose quoted form is no JSON string. |
| GoQuote.PairIsJson | httpsink/encode.go:105-106 | Every character above the basic plane may reach the output as an escaped surrogate pair of a json.RawMessage, which is JSON and reads as that character. |
| GoQuote.QuoteExpansion | internal/slogsnapshot/snapshot.go:93-96 | Quoting takes at most four bytes per byte. |
| GoQuote.Utf8Reads | internal/slogsnapshot/snapshot.go:93-96 | The bytes counted for a character are those of its UTF-8 encoding, which reads back as it. |
| JsonText.ReadPrinted | httpsink/encode.go:77-108 | A recursive-descent reader recovers every well-formed tree from its print, with anything behind it. |
| Encode.AppendAttr | httpsink/encode.go:58-75 | Appends exactly the print of the fields this attribute emits, inlined groups included, and leaves the `first` flag to match. |
| Encode.AppendValue | httpsink/encode.go:77-108 | Appends exactly the print of the value's tree, or fails exactly when a leaf cannot be marshalled. |
| Encode.AppendRecord | httpsink/encode.go:34-56 | The buffer with the mutable flag equals one brace-delimited, comma-joined object of base, static and attribute fields. |
| Payload.MarshalBatch | httpsink/encode.go:10-32 | Terminated lines or one array of the records' trees, or nothing when any record cannot be marshalled. |
| Payload.BuildPayload | httpsink/worker.go:73-79 | A payload goes on to be sent exactly when every record marshals and its bytes are within MaxBatchBytes. |
| Payload.PrintedOneLine | httpsink/encode.go:24-26 | No printed tree contains a newline or any other control character. |
| Payload.NdjsonRoundTrip | httpsink/encode.go:15-27 | Splitting the lines of any well-formed trees gives one line per tree, in order, each reading back as that tree. |
| Payload.ArrayRoundTrip | httpsink/encode.go:12-30 | The array of any well-formed trees reads back as that array. |
| Payload.BatchRoundTrip | httpsink/encode.go:10-32 | For every batch of encodable records, line k of the newline-delimited payload is one line and reads back as record k's tree, and the array reads back as the array of all. |
| Recover.DecodeInverts | httpsink/encode.go:58-108 | At every depth every key, text and number of the encoded fields comes back, in order, numbers as their values and times as texts. |
| JsonTokens.WordReads | httpsink/encode.go:81-90 | An independent reader gets from the word written for any number what was written: sign, digits and power of ten, the values that are no numbers, true and false. |
| JsonTokens.IntReads | httpsink/encode.go:81-90 | Every integer reads back with its sign and value. |
| Recover.BatchRecovered | httpsink/encode.go:10-32 | From either form of payload a receiver gets every record of the batch, in order and complete at every depth. |
| Recover.EncodedApart | httpsink/encode.go:34-56 | Records that are encoded alike are read alike by every receiver. |
| Recover.QueuedLeafReads | internal/slogsnapshot/snapshot.go:54-64 | What a receiver reads of a frozen leaf: an error's text whatever its JSON, the JSON of another boxed value, a fixed text where there is none, and any other leaf as it was. |
| Payload.FieldsAreJson | httpsink/encode.go:58-128 | The strings and bare words of an encoded record are JSON if and only if every text in it is one both quotings write alike, every float finite, and what json.Marshal wrote JSON. |
| Payload.RecordIsJson | httpsink/encode.go:34-56 | The text of an encoded record is accepted as JSON if and only if its fields are such. |
| JsonTokens.WordIsJson | httpsink/encode.go:81-90 | Every integer, duration, boolean and finite float is written as a JSON word; NaN and the infinities are not. |
| JsonTokens.WordIsToken | httpsink/encode.go:81-90 | No number or boolean is written longer than 38 bytes or runs into what surrounds it. |
| Payload.BuildBulk | elastic/worker.go:73-93 | There is a bulk body exactly when every document and the action marshal and the bytes are within MaxBatchBytes; it is the terminated action and document lines of the batch, in order. |
| Payload.BulkAlternates | elastic/worker.go:86-89 | Split at newlines it gives exactly two lines per record, action before document. |
| Document.ApplyAttr | lokisink/encode.go:24-45 | Filling the map in place gives the map of the recursive definition, guard on the unresolved value included. |
| Document.RecordToDocument | lokisink/encode.go:9-22 | Base fields, then static fields over them, then attributes over those, for every map iteration order. |
| Document.AppliedAllIsFold | lokisink/encode.go:24-45 | The map is the fold of an ordered field list in which the last of equal keys wins, at every level. |
| Document.SameFields | httpsink/encode.go:58-75 | The two encoders write the same fields if and only if no LogValuer without a key answers with a group that has a key anywhere to write under. |
| Document.BarrenIsSilent | httpsink/encode.go:58-72 | The streaming encoder writes nothing exactly for attributes without a key that, as groups, hold only such attributes. |
| Document.StreamAgreesWithDocument | lokisink/encode.go:9-45 | Under that condition folding the streamed record equals the document, for every attribute tree, every static map and every order of its iteration. |
| Document.StreamAgreesExactly | lokisink/encode.go:9-45 | For every record that repeats no key in any object, they are equal if and only if nothing is hidden. |
| Document.HiddenGroupDiffers | lokisink/encode.go:25-28 | A record on which they differ. |
| Snapshot.SnapshotAttr | internal/slogsnapshot/snapshot.go:45-65 | Overwriting the group's members one by one and rebuilding it gives the recursive snapshot, empty groups left out. |
| Snapshot.SnapIdentity | internal/slogsnapshot/snapshot.go:45-65 | A snapshot changes nothing if and only if nothing in the tree needs resolving, freezing or dropping. |
| Snapshot.SnapIdempotent | internal/slogsnapshot/snapshot.go:45-65 | Snapshotting twice is snapshotting once, for every attribute tree. |
| Snapshot.FastPathIsSlowPath | internal/slogsnapshot/snapshot.go:18-26 | On records without mutable values the clone equals the slow path if and only if no LogValuer and no empty group is left in it. |
| Snapshot.SnapshotKeepsFields | internal/slogsnapshot/snapshot.go:10-27 | For marshalable values that are no errors the queued record encodes as the original would have, if and only if it took the fast path or no group with a key is hollow, at any depth. |
| Snapshot.HollowVanishes | internal/slogsnapshot/snapshot.go:47-53 | A snapshot empties exactly the groups made of nothing but such groups. |
| Snapshot.EmptyGroupVanishes | internal/slogsnapshot/snapshot.go:52 | A record that loses a field by being queued. |
| Size.MeasureAttr | internal/slogsnapshot/snapshot.go:91-109 | The accumulating loop computes the recursive estimate. |
| Size.Record | internal/slogsnapshot/snapshot.go:10-27 | One pass measures and looks for mutable values; the result is the frozen record with the estimate of the original. |
| Size.LeafFitsEveryKey | internal/slogsnapshot/snapshot.go:91-108 | A leaf is covered under every non-empty key if and only if what is written is at most six bytes above its allowance. |
| Size.OrdinaryLeafFits | internal/slogsnapshot/snapshot.go:94-108 | Strings, numbers, times up to 36 quoted bytes, and marshalable values that are no boxed errors always fit, as they are and as they are queued. |
| Size.ErrorFitsOnlyWhenShort | internal/slogsnapshot/snapshot.go:57-59 | An error value fits if and only if its quoted text is at most four bytes longer than its JSON; with the JSON {}, at most six bytes long. |
| Size.EstimateIsModest | internal/slogsnapshot/snapshot.go:91-109 | The estimate is at most six times the bytes of keys, texts and marshalled values plus forty for each attribute, and never below those bytes plus eight for each. |
| Size.AttrsBound | internal/slogsnapshot/snapshot.go:91-109 | For every attribute tree of fitting leaves, what httpsink writes of the queued attributes is within the summed estimates. |
| Size.EstimateCovers | internal/slogsnapshot/snapshot.go:9-17 | The whole encoded line, newline included, is within the estimate, without static fields. |
| Size.OrdinaryRecordCovered | internal/slogsnapshot/snapshot.go:9-17 | So it is for every record of such values at any depth, with a year of four digits and a level of up to twenty characters. |
| Size.EstimateIsConservative | internal/slogsnapshot/snapshot.go:11 | The estimate covers every record with a given time and level if and only if the two take at most fifty bytes. |
| Capture.ResponseWriter.WriteHeader | adapters/nethttp/response_writer.go:31-38 | The first status wins; nothing changes it once something was written. |
| Capture.ResponseWriter.Write | adapters/nethttp/response_writer.go:40-50 | After any sequence of writes the buffer is the first maxBodyBytes bytes of their concatenation, and the flag is set exactly on overflow or on an empty write to a full buffer. |
| Capture.ResponseWriter.CaptureChunk | adapters/nethttp/response_writer.go:58-73 | One chunk is taken as far as it fits, and what does not fit is flagged. |
| Capture.CaptureIsTruncation | adapters/nethttp/middleware.go:98-105 | What is logged for a text response is TruncateBytes of everything written, if and only if no empty write met a buffer filled to the byte. |
| Capture.FilledThenEmpty | adapters/nethttp/response_writer.go:62-66 | A response, written through the writer, that is logged as truncated although nothing was cut. |
| Capture.ReadPrefix | adapters/nethttp/capture.go:32-33 | However short the reads, the first limit bytes are taken and nothing is lost; it fails exactly when the body breaks before the limit, or right at it if the body tells its failure with its last bytes. |
| Capture.CaptureRequestBody | adapters/nethttp/capture.go:28-45 | The replacement body holds the original bytes; the captured prefix is the first maxBytes + 1. |
| Capture.HandlerReads | adapters/nethttp/capture.go:34 | For every body and every sequence of read sizes the handler sees the original bytes, and makes progress. |
| Capture.ReadAheadSuffices | adapters/nethttp/capture.go:32 | Capturing from a prefix equals capturing from the whole body, value and flag, if and only if the prefix limit is above maxBytes. |
| Redact.RedactAny | redact/json.go:23-46 | Filling fresh maps and slices in any key order gives the recursive definition. |
| Redact.RedactedAlongPath | redact/json.go:25-40 | Along paths without sensitive keys redaction adds and loses nothing: key sets and array lengths are kept at every depth. |
| Redact.SensitiveIsSecret | redact/rules.go:71-74 | A key is taken for sensitive if and only if it spells one of the plain keys, in any case, with white space around. |
| Redact.KeySetIs | redact/rules.go:63-69 | The set made of a list of keys holds exactly the plain forms of the listed ones. |
| Redact.SecretKeysAreMarked | redact/json.go:23-46 | At every depth, behind keys none of which spells a secret one, a key that does holds the marker; any other holds what it held, redacted, and a bare word or, patterns aside, a text as it was. |
| Redact.SensitiveIsMarked | redact/json.go:28-30 | A sensitive key at any depth holds the marker, and nothing is left below it. |
| Redact.OutputHidesExactlySecrets | redact/json.go:23-46 | Two inputs redact alike if and only if they differ only under sensitive keys and in what pattern redaction hides. |
| Redact.RedactIdempotent | redact/json.go:23-60 | Redacting twice is redacting once, for every pattern redaction that is stable, in particular for none. |
| Redact.RedactBytes | redact/json.go:5-21 | On every path the output is at most maxBytes long, and empty when maxBytes is not positive. |
| Redact.SecretsStayOut | redact/json.go:10-20 | The logged bytes of a JSON body do not depend on its secrets. |
| Redact.RedactBytesStable | redact/json.go:5-21 | Output that was not cut is unchanged by redacting it again, for every codec that reads back what it prints. |
| Redact.FallbackFlag | redact/json.go:11-19 | On both failure paths the output is the fallback, cut to the limit, and the flag is right if and only if the limit is not the fallback's own length. |
| Redact.CaptureBody | httplog/body.go:18-47 | For every content type and limit the value is within the effective limit; a body is skipped exactly when it is not empty and its type is not safe, and then nothing of it shows. |
| Redact.SafeTypeIs | httplog/body.go:49-76 | Which content types are captured, said of the text itself, in any case, with white space around and parameters behind. |
| Redact.JsonTypeIs | httplog/body.go:78-81 | Which of them count as JSON, likewise. |
| Redact.CapturedAlike | httplog/body.go:30-40 | JSON bodies that differ only in their secrets are captured alike, for every limit. |
| Redact.PrefixCapturesTheSame | httplog/body.go:42-46 | For content types that are not JSON the prefix read ahead captures like the whole body. |
| Redact.CutJsonFallsBack | adapters/nethttp/capture.go:32-39 | A JSON body whose prefix does not parse is logged as the fallback, and from a limit of 50 on not as truncated. |
| Redact.JsonPrefixSuffices | adapters/nethttp/capture.go:28-39 | For JSON types, and any codec that reads string literals and prints them as such, the prefix read ahead captures every body of up to a given length like the whole body, value and flag, if and only if no such body is longer than the prefix. |
| Redact.PaddedJsonIsKept | httplog/body.go:30-40 | A longer body is captured like the whole where its prefix means the same, secrets aside, or neither parses. |
| Redact.JsonResponseSuffices | adapters/nethttp/middleware.go:98-105 | For JSON types, and any such codec, the buffered response is logged like the whole one, value and flag, for all responses up to a given length if and only if none is longer than the buffer. |
| Sampling.Deterministic.ShouldKeep | sampling/sampling.go:35-47 | Only an unimportant success is counted, by one modulo 2^64, and kept exactly at multiples of `every`; everything else is kept. |
| Sampling.OneInEvery | sampling/sampling.go:45-46 | Of the first n counted decisions exactly n / every are kept. |
| Sampling.RateKept | sampling/sampling.go:25 | That holds for all histories up to a bound if and only if the counter does not wrap in them or `every` divides 2^64. |
| Sampling.CountedIs | sampling/sampling.go:49-70 | Counted is exactly a decision without error, not slow, below 400, whose event name has "complete" in it in any case. |
| Sampling.ShouldLog | httplog/policy.go:8-19 | The sampler is asked, and counts, before the hook; both must agree. |
| Sampling.EarlyIsFull | adapters/nethttp/middleware.go:85-92 | The early check on partial metadata decides like the full one for every counter if and only if the request failed or was not slow. |
| Sampling.HttpMiddleware.Serve | adapters/nethttp/middleware.go:69-135 | One request for all options and hook answers: which events it logs, at most one of them terminal, and that it counts at most once, only as a fast success. |
| Sampling.HttpMiddleware.ServeAll | adapters/nethttp/middleware.go:25-136 | Every history of requests: at most one terminal event in each log, exactly one for failed and slow requests with hooks unset, and exactly m / every of m fast successes logged. |
| Sampling.TerminalOnce | adapters/nethttp/middleware.go:120-135 | In the logs of every history at most one terminal event for any request; exactly one, of the right kind, for every failed or slow one with hooks unset. |
| Sampling.FastSuccessesAreThinned | httplog/sampling.go:18-34 | At every point of every mixed history exactly m / every of the m fast successes so far are in the logs. |
| Outbound.Transport.RoundTrip | outbound/transport.go:65-212 | One trip of the client side for all options and hook answers: which events it logs, at most one of them terminal, exactly one for failed, refused and slow trips with hooks unset, and that it counts at most once. |
| Outbound.EndsOnce | outbound/transport.go:121-211 | Of any trip's log: an error ends exactly the failed ones, and an answered request is logged as the server would if and only if the server does not log an error event. |

## Left out

- HTTP transport, request construction, headers, authentication, TLS and draining of response bodies: a send is an oracle that answers success, a transient or a permanent failure, a deadline or a cancellation.
- Status classification in `send` and the item failures of elastic's `sendBulk` are part of that oracle; it answers context.Canceled, or in elastic hides one, only when the request's own context was cancelled.
- Real time, tickers and timers: a tick may always happen, a wait ends by elapsing or by its context, and CloseCompletes assumes that no goroutine is held up forever while it can move.
- The counters of the sinks are unbounded; only the sampler's counter wraps.
- The wait at the end of Close for `done` or the caller's context, and later callers of Close waiting for the first: only the once-guarded body has steps.
- A nil or inactive sink, whose methods return at once.
- The snapshot inside `enqueue` and the OnError, status-log and sampling callbacks: they return normally, do not log to the same sink, and have no step of their own.
- `Stats` reads counters one by one; what is said of several counters is said of the state.
- Handing a record directly to a waiting receiver is a push followed by a pop.
- SinkMiddleware.Middleware.Enqueue: states one call without interference; with interference, `enqueue` and Close are covered by the transition system.
- SinkMiddleware.Middleware.Run: runs a finite schedule of select choices, of any length; unbounded runs are covered by the transition system.
- encoding/json, strconv's choice of digits and time formatting: their output is an opaque tree or token with stated lengths and no control characters; of numbers the shapes of format 'g' are modelled, not the digits.
- HttpSink.Open: encodes every batch with one order of the static fields, and the contents of a queued record are a function of its identity, so both shipments of a batch post the same text.
- The order in which a Go map yields static fields is a parameter; every order is covered.
- LogValuers answer the same each time and are no longer than slog's own limit.
- slog's own behaviour (groups without members left out by GroupValue and AddAttrs, Resolve) is taken from its documentation; the slog library is not part of this model.
- In place update of a group shared with the caller by `snapshotAttr`: only the resulting value is stated.
- lokisink's stream labels and payload size, elastic's `enrichDocument`, index names and SQL table extraction.
- Attributes and groups set on the sink handler itself by WithAttrs and WithGroup.
- Pattern redaction is a function on strings; regular expressions are not modelled. Key and content-type matching is modelled for ASCII letters and spaces.
- Redact.RedactBytes: takes parsing and printing of JSON as functions.
- Sampling.HttpMiddleware.ServeAll: serves requests one after another; requests that overlap share only the sampler's counter, which each adds to atomically at most once, so they stand in the order of those additions.
- Contents of events other than their kind, and panics that leave the wrapped handler.
- The gin and fiber adapters repeat the server's capture and decisions; capture in the outbound transport repeats the request side.
- Header redaction, URL handling, option presets, correlation identifiers and the gorm, grpc and otel adapters: easy members.
