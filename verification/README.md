# BabelQueue for Go: a verified model

BabelQueue moves JSON message envelopes between services over many brokers. A consumer runtime decodes each
delivery, runs the handler for its URN, and then settles it exactly one way: acknowledge, re-publish, release in
place, dead-letter, hand to the broker's own mechanism, or leave it for another delivery. This project models the
parts of the library on which "no message is lost, repeated without bound, or rewritten into something else"
depends, and proves what holds of them for every input, every interleaving and every pattern of failing calls.

| area | modules |
|---|---|
| Poison records: a flat byte scanner against the JSON grammar (RFC 8259, RFC 3629, RFC 4648) and the raw splice | `JsonGrammar`, `JsonParser`, `JsonStrings`, `Utf8`, `Base64`, `PoisonScanner`, `PoisonRecord` |
| The Redis reservation protocol, in both layouts | `RedisData`, `RedisDefault`, `RedisLaravel` |
| The consumer runtime: dispatch, settlement, retry bounds, drain, back-off | `Dispatch`, `Settlement`, `ReservingBroker`, `RetryBound`, `Draining`, `Backoff`, `Arithmetic` |
| The offset-committing consumer, retry tiers, re-injector and redrive | `KafkaConsumer`, `KafkaRecords`, `Reinjector`, `Redrive`, `RedriveCopies` |
| The envelope codec | `EnvelopeFields`, `EnvelopeDecode`, `EnvelopeReading`, `EnvelopeEncode`, `EnvelopeText`, `EnvelopeMarshal`, `EnvelopeFrame`, `EnvelopeMake`, `JsonCompact`, `KeyOrder`, `Decimal`, `AsciiSpace` |
| Field encryption by schema path, in place | `FieldPaths`, `NestedPaths`, `SensitivePaths`, `DataTree`, `Gdpr` |
| The outbox relay, the Pulsar routes and the retry bound on them | `Outbox`, `PulsarGate`, `PulsarRetry`, `UnicodeSpace` |

Code that changes state in the original is a class or a method with loops here, and each such method is proved
equal to a function of the old state; the theorems are then about those functions, and, for the protocols, about
state machines whose steps are those functions. Bytes are characters below 256. The results of calls that can fail
are parameters, so each theorem holds for every pattern of failures.

## Where the code meets its promise only under a condition

Each of these is proved: the condition where there is one, and a concrete failing input or run.

* Default Redis layout: an expired reservation goes back to the ready list if and only if its body is not empty
  (`SweepRecovers`, `EmptyBodyIsStranded`); an empty one stays in processing, where every run counts it
  (`RunConserves`).
* Laravel layout: equal payloads are one sorted-set member, so two of them can be cleared by one acknowledgement
  (`ReserveKeepsCount`, `EqualPayloadsMerge`); release is not gated and can add a copy (`ReleaseAndDeadLetterCount`).
* A configuration loses a message if and only if it drops some kind of message by design (`DropsExactlyWhenLossy`,
  `NothingIsDropped`, `LossyLoses`).
* On re-publishing transports an always-failing message leaves the queue unless its copies are released as an unknown
  URN (`RepublishedLeavesExactlyWhen`). Two kinds can only come from a transport outside this library
  (`EscapingMessages`); of the transports of this library, one is left, over Pulsar: a job padded with white space
  that no job property stands in for (`EscapesExactlyWhen`, `PaddedJobEscapes`). The bound
  `max(1, maxAttempts - attempts)` is exact under the condition of `RepublishedMeetsTheBound`, and on transports that
  keep the counter under that of `InPlaceMeetsTheBound`. At the largest int the counter wraps (`WrappedNeverLeaves`).
* An unbounded drain does not end while an unknown URN is released (`ReleasedNeverDrains`).
* Redrive returns on a failing `Pop` without rewinding; a later run can then commit past what the first one had
  drained (`RunStaysSound`, `PopErrorLosesAMessage`).
* Field encryption is undone when no marked path lies inside another. For marks inside marks the exact condition is
  `NestedMarksComeBackExactlyWhen`, and a failing input is `NestedMarksLoseData`. A mark is addressed by its printed
  path exactly under the condition of `AddressesItselfExactlyWhen`; one that is not is in `NestedArraysAreNotAddressed`.
* The job property of a Pulsar message is kept over every number of hops of a gated delivery, and of any other exactly
  under the condition of `JobSurvivesExactlyWhen`; `ForgedRouteIsGated` is a delivery for which it is not. The reserved
  prefix is written only where it is forwarded (`ReservedPrefixIsWrittenExactlyWhen`), as for
  `ReservedJobIsForwarded`.
* The pause of the outbox relay is the promised one exactly while its product fits in 64 bits or wraps above the cap
  (`BackoffMeetsPromiseExactlyWhen`, `BackoffWraps`).

## Model

| member | source | states |
|---|---|---|
| JsonParser.JsonValid | poison_record.go:63-68 | the validity test that guards the scanner accepts exactly the strings that have a reading as an RFC 8259 text nested no deeper than 10000 |
| JsonParser.ReadingIsUnique | poison_record.go:63-68 | a text has at most one reading, and the parser finds it, so speaking of "the" members of a body is justified |
| PoisonScanner.ParseHex4 | poison_record.go:150-168 | succeeds exactly on four hexadecimal digits inside the string, and yields their value |
| JsonStrings.UnquoteIs | poison_record.go:93-97 | a name is unescaped to a text if and only if it is a string literal that stands for it |
| PoisonScanner.LowSurrogateAt | poison_record.go:128-142 | the look-ahead accepts exactly an escaped low surrogate at that index, and never reads past the end |
| PoisonScanner.SkipEscape | poison_record.go:120-148 | a `\u` escape, or a pair, is skipped exactly when no surrogate in it is unpaired |
| PoisonScanner.ScanJsonString | poison_record.go:114-148 | on any literal that is closed it finds the closing quote, or refuses exactly when a surrogate escape is unpaired |
| PoisonScanner.ScanValue | poison_record.go:75-107 | below the top level, after any printed value the scanner is in the state it started in, unless a string in it has an unpaired surrogate, by induction over the concrete-syntax tree |
| PoisonScanner.ScanTopEntries | poison_record.go:75-107 | at depth 1 the members are passed exactly when every string is paired and no unescaped name is `dead_letter` |
| PoisonScanner.ScanObject | poison_record.go:63-107 | the flat scan of a whole object agrees with the recursive grammar: accepted exactly when it can be spliced |
| PoisonScanner.ScanBody | poison_record.go:75-107 | the byte loop with its depth counter and key flag computes the scan, and never reads out of bounds |
| PoisonScanner.IsSpliceableObject | poison_record.go:63-107 | for every byte string: true exactly when it is valid UTF-8, one JSON object, without unpaired surrogate escapes, without a top-level `dead_letter` |
| PoisonScanner.SpliceableMeans | poison_record.go:63-107 | the same whichever reading of the body is taken |
| Utf8.ValidExactlyWhen | poison_record.go:39 | a byte string is valid exactly when it is what some sequence of Unicode scalar values is written as |
| Utf8.Examples | poison_record.go:39 | the examples of RFC 3629 section 7 |
| JsonStrings.ShortMeanings | poison_record.go:52-58 | each two-character escape of RFC 8259 section 7 stands for its character |
| JsonStrings.ShortEscapes | poison_record.go:120-148 | and there are no others |
| JsonStrings.HexDigits | poison_record.go:150-168 | the value of a hexadecimal digit of either case is its place among the digits |
| JsonStrings.PairMeans | poison_record.go:93-97 | the escapes of the two surrogates of a character above U+FFFF stand for that character |
| JsonStrings.LoneMeans | poison_record.go:93-97 | an escaped surrogate without its partner stands for U+FFFD |
| PoisonRecord.MeaningQuote | poison_record.go:52-58 | unescaping the JSON literal written for a valid UTF-8 string gives that string back |
| Base64.DecodeEncode | poison_record.go:33-40 | decoding the base64 text of any bytes gives the bytes back |
| Base64.EncodeIs | poison_record.go:39-44 | the text is the standard one: for each group of 24 bits, its sextets in order are read from the literal alphabet of RFC 4648, with padding for the bytes that are missing |
| Base64.StandardIsUnique | poison_record.go:39-44 | no other text is the standard base64 of those bytes |
| PoisonRecord.Splice | poison_record.go:23-31 | trims, cuts the closing brace and appends the member, every other byte of the trimmed object kept |
| PoisonRecord.Wrap | poison_record.go:32-48 | wraps the body as text when it is valid UTF-8, as its standard base64 otherwise, in a record of valid UTF-8 |
| PoisonRecord.SplicedRecord | poison_record.go:23-31 | the spliced text is a strict JSON object whose members are the body's members followed by the `dead_letter` |
| PoisonRecord.WrappedRecord | poison_record.go:32-48 | the wrapped text is a strict JSON object whose `raw` is the body, or its standard base64, followed by the `dead_letter` |
| PoisonRecord.BuildPoisonRecord | poison_record.go:22-49 | for every body and every valid block the result is such a record: spliced when the body can be spliced, wrapped otherwise |
| PoisonRecord.RecordHasOneDeadLetter | poison_record.go:22-49 | a record has exactly one top-level `dead_letter`, its last member, holding the block |
| PoisonRecord.RecordIsNotSpliceable | poison_record.go:22-31 | a record that comes back as a poison body is never spliced a second time |
| RedisData.ZaddIs | redis/redis.go:360-366 | adding a member keeps the score order, sets that member's score and leaves every other entry alone |
| RedisData.ZaddRanks | redis/redis.go:360-366 | and so the whole rank order: by score, members of one score by their bytes |
| RedisData.RemoveFirstIs | redis/redis.go:388-393 | taking a body off a list removes its first copy and keeps all others in order |
| RedisData.DueIsPrefix | redis/redis.go:371-373 | the members ranged by score are the first ranks, so removing by rank removes exactly those |
| RedisDefault.MemberParts | redis/redis.go:360-384 | token and body are read back from a deadline member; the sweep's shape test accepts it exactly when the body is not empty |
| RedisDefault.MemberIsInjective | redis/redis.go:360-393 | two reservations never share a deadline member, so an ack names one of them |
| RedisDefault.Server.Publish | redis/redis.go:425-434 | appends to the ready list and changes no other key |
| RedisDefault.Server.Reserve | redis/redis.go:360-366 | moves the head to the end of processing and records one deadline member, or changes nothing when the list is empty |
| RedisDefault.Server.Sweep | redis/redis.go:371-384 | the loop of the script equals the sweep function on all four keys, and the count is what it moved |
| RedisDefault.Server.Ack | redis/redis.go:388-393 | removes one copy from processing exactly when the holder's deadline member was still there |
| RedisDefault.Server.Move | redis/redis.go:397-403 | release or dead-letter: the gate, one copy out of processing, the body to its destination; nothing when the gate is closed |
| RedisDefault.StepKeeps | redis/redis.go:360-403 | every script, run by any consumer at any time with any handle ever issued, keeps the reservation invariant |
| RedisDefault.RunKeeps | redis/redis.go:360-403 | so does every interleaving of them, crashes being runs that stop calling |
| RedisDefault.RunConserves | redis/redis.go:360-403 | in every run, for every body: processing is what it held before plus one entry for each deadline member and each empty body a sweep left there; published = ready + reserved + left there + finished; no more are left there than empty bodies were published; no reservation settles twice |
| RedisDefault.RunIsFifo | redis/redis.go:360-434 | over every interleaving bodies are handed out in the order in which publishes, releases and sweeps put them on the ready list, and the dead-letter queue is in the order of the moves to it |
| RedisDefault.PublishedComesOutInOrder | redis/redis.go:360-434 | without sweeps and releases what was handed out, followed by what is ready, is what was ready at the start, followed by the published values |
| RedisDefault.LateHandleDoesNothing | redis/redis.go:388-403 | once a reservation's deadline member is gone, however long the run, its ack, release and dead-letter change nothing at all |
| RedisDefault.SweepProgress | redis/redis.go:371-384 | a sweep with a positive batch takes that many expired members, or all of them |
| RedisDefault.SweepsFinish | redis/redis.go:460-464 | repeated sweeps empty the expired set as soon as their batches cover it |
| RedisDefault.SweepRecovers | redis/redis.go:371-384 | a swept reservation's body returns to the ready list unchanged if and only if it is not empty; the deadline member goes either way |
| RedisDefault.EmptyBodyIsStranded | redis/redis.go:375-381 | the run that leaves an empty body in processing for good |
| RedisLaravel.Server.PushInChunks | redis/redis.go:305-310 | the chunks of at most 100 append the members in order, none twice, with one wake-up token each |
| RedisLaravel.Server.Migrate | redis/redis.go:301-312 | the script equals the migrate function on all keys and returns the number moved |
| RedisLaravel.MigrateIsExact | redis/redis.go:301-312 | what leaves the sorted set are its first n members, all due, appended once and in order with n tokens, no other key touched; with room in the batch nothing due is left |
| RedisLaravel.Server.Reserve | redis/redis.go:321-338 | the head is reserved re-encoded with one more attempt and one token consumed, or raw when it cannot be re-encoded |
| RedisLaravel.Server.Release | redis/redis.go:341-344 | removes the reserved member, if it is there, and delays the body, gated by nothing |
| RedisLaravel.Server.DeadLetter | redis/redis.go:350-356 | writes the record exactly when the reserved member was still there |
| RedisLaravel.StepKeeps | redis/redis.go:301-356 | every script, with any handle ever issued, keeps every accepted message in ready, delayed, reserved or the DLQ, or acknowledged |
| RedisLaravel.NothingIsLost | redis/redis.go:301-356 | and so does every run |
| RedisLaravel.RunIsFifo | redis/redis.go:301-338 | over every run payloads are reserved in the order in which publishes and migrations put them on the ready list |
| RedisLaravel.StepKeepsTokens | redis/redis.go:301-356 | a step leaves a wake-up token over exactly when it reserves a payload that cannot be re-encoded |
| RedisLaravel.TokensAreEnough | redis/redis.go:301-356 | so in every run there is a token for each ready payload and for each dead letter |
| RedisLaravel.ReleaseIsDelayed | redis/redis.go:341-344 | a release takes away exactly the owner's member and delays exactly the body until its time |
| RedisLaravel.ReservedUntil | redis/redis.go:321-338 | the head is reserved under its deadline, re-encoded or as it is, and no other entry changes |
| RedisLaravel.ReserveKeepsCount | redis/redis.go:321-338 | reserving keeps the number of copies if and only if the reserved form is not in the set already |
| RedisLaravel.ReleaseAndDeadLetterCount | redis/redis.go:341-356 | the gated dead-letter never changes the number of copies; release takes one from its owner and adds one unless an equal body is delayed, so it keeps the number exactly when one of the two holds |
| RedisLaravel.EqualPayloadsMerge | redis/redis.go:321-338 | two equal payloads reserved become one member, and one acknowledgement clears both |
| Dispatch.App.LeaveUnsettled | app.go:686-707 | makes the calls specified for a delivery whose write failed: a rewind where the transport has one, otherwise none |
| Dispatch.App.SettleNative | app.go:571-591 | one native settle where the transport offers it, and reports whether it did |
| Dispatch.App.Release | app.go:890-906 | one in-place release where the transport offers it; asks for a re-publish only when it is missing or unsupported |
| Dispatch.App.DeadLetterRaw | app.go:639-658 | gated move in one step, or write and then ack, or unsettled when the write failed |
| Dispatch.App.DeadLetterRecorded | app.go:783-794 | the same for a record, and nothing is written when it does not encode |
| Dispatch.App.RetryOrDeadLetterMessage | app.go:835-868 | makes the calls of the branch that the counted attempts select |
| Dispatch.App.RouteUnknown | app.go:815-833 | makes the calls of the configured strategy for an unknown URN |
| Dispatch.App.SettleVersionGated | app.go:520-545 | makes the calls planned for a delivery of an unsupported schema version |
| Dispatch.App.RoutePoison | app.go:751-774 | makes the calls planned for a body that does not decode or names no handler |
| Dispatch.App.Dispatch | app.go:403-467 | one dispatch makes exactly the calls of the specified trace: which branch, which calls, in which order, on which results |
| Settlement.SettlementIsLast | app.go:403-475 | over every configuration, transport, message and outcome, a settlement is the last call of its dispatch, so there is at most one |
| Settlement.HandlerRunsFirst | app.go:436-467 | the handler runs at most once, before every other call, and only for a decodable, supported, known message |
| Settlement.AckIsJustified | app.go:471-475 | an ack directly follows a successful handler or a confirmed write, or the message is dropped by configuration |
| Settlement.AckedOrRewound | app.go:686-707 | on an offset-committing transport every dispatch ends in an ack or a rewind |
| Settlement.NativeIsPlanned | app.go:571-591 | the native mechanism settles only when the App writes no dead letters and the strategy does not |
| Settlement.OwnCopyIsPlanned | app.go:835-881 | the only copies put back on the queue are the counted retry and the unchanged body of an unknown-URN release |
| Settlement.DeadLetterIsRecorded | app.go:639-658 | over every trace, what is dead-lettered is the body as it came for a version-gated delivery and the record for every other, none when the record does not encode, by the gated move exactly where the transport has it |
| Settlement.AnotherTryIsCounted | app.go:815-868 | what is tried again is a released unknown URN with its body as it came, or a delivery short of the maximum with one attempt more, copied only where a release in place is missing or unsupported |
| Settlement.WrittenExactlyWhen | app.go:403-467 | a delivery is dead-lettered, tried again or left to the broker exactly under the stated conditions on configuration, transport and message |
| Settlement.LetGoExactlyWhen | app.go:520-868 | it is acknowledged without a success and without a confirmed write exactly where the configuration lets it go |
| Settlement.CopyReplaces | app.go:835-881 | each such copy stands for the same message; an undecodable body is replaced by another only when nothing can dead-letter it |
| Settlement.HopelessIsNotTriedAgain | app.go:405-422 | for a version-gated delivery, one flagged as poison, and an undecodable body where dead letters are written: no handler runs, nothing is released or written back |
| Settlement.HopelessPlan | app.go:520-545 | such a delivery is dead-lettered, a gated one with its body untouched, or dropped or left to the broker by configuration |
| Settlement.RewindIsLast | app.go:686-707 | nothing follows a rewind |
| Settlement.DropsExactlyWhenLossy | app.go:815-868 | some message is dropped if and only if the configuration and transport are lossy |
| Settlement.DroppedMessage | app.go:815-868 | for every lossy configuration, the message it drops |
| ReservingBroker.RemoveCovers | app.go:403-475 | taking away a copy loses nobody whose message is represented by a younger copy or a final record |
| ReservingBroker.AckCovers | app.go:471-475 | the copy an ack takes away is represented elsewhere, or its message is dropped by configuration |
| ReservingBroker.StepKeeps | app.go:403-475 | every step of every consumer (accept, deliver, each call whether or not it lands, crash) keeps every message represented |
| ReservingBroker.RunKeeps | app.go:403-475 | so does every run, and no run uses a way of settling its configuration does not have |
| ReservingBroker.EveryMessageIsAccountedFor | app.go:403-475 | in every run each accepted message is on the queue, handled, dead-lettered, settled natively or dropped |
| ReservingBroker.NothingIsLost | app.go:403-475 | with dead-lettering on and a strategy other than delete, each accepted message is on the queue, handled or dead-lettered, and each copy of it is the same message |
| ReservingBroker.NothingIsDropped | app.go:403-475 | the same, native settlement included, for every configuration that is not lossy |
| ReservingBroker.LossyLoses | app.go:815-868 | every lossy configuration has a run that loses an accepted message |
| RetryBound.RepublishedIsBounded | app.go:835-868 | on every re-publishing transport, whatever route and count its copies come back with, an always-failing message that does not escape leaves after at most max(1, maxAttempts - attempts) deliveries, and after exactly the stated number |
| RetryBound.RepublishedLeavesExactlyWhen | app.go:739-868 | it leaves the queue at all if and only if its first delivery is the last, or the copies name a handler or are not released under an unknown URN |
| RetryBound.RepublishedMeetsTheBound | app.go:835-868 | it is delivered exactly max(1, maxAttempts - attempts) times if and only if it neither escapes nor is settled on its copy's first delivery before the bound |
| RetryBound.EscapedIsReleasedForever | app.go:815-833 | a message whose copies are unknown under release leaves after no number of deliveries |
| RetryBound.EscapingMessages | transport.go:104-111 | two concrete messages that escape, for transports outside this library: one that routes a body that does not decode, and one that forgets the route of an envelope |
| RetryBound.KeptRouteNeverEscapes | app.go:876-881 | where the copies keep the route of the delivery and bodies that do not decode have none, nothing escapes |
| PulsarRetry.CopiesAreRoutedAlike | pulsar/pulsar.go:287-390 | every copy of an ungated delivery comes back with one and the same route: the trimmed job, or the gate route of the version its body declares |
| PulsarRetry.CopiesAreCounted | pulsar/pulsar.go:315-325 | a fresh copy comes back with the delivery count its own attempts say |
| PulsarRetry.EscapesExactlyWhen | pulsar/pulsar.go:581-608 | a retried message escapes if and only if, under release, it has no routed bq-job and the job of its body, trimmed of white space, has no handler |
| PulsarRetry.PulsarIsBounded | pulsar/pulsar.go:287-390 | so on this transport every other always-failing message leaves, within the bound above |
| PulsarRetry.PaddedJobEscapes | pulsar/pulsar.go:587-590 | the concrete message: a job with a space before it, a handler for it as it is, and release |
| RetryBound.InPlaceIsBounded | app.go:835-906 | on a counter-keeping transport it is delivered exactly the stated number of times |
| RetryBound.InPlaceMeetsTheBound | app.go:425-467 | that number is max(1, maxAttempts - attempts) if and only if one delivery is left or the body's counter is no larger than the broker's |
| RetryBound.WrappedNeverLeaves | app.go:836-840 | attempts at the largest int wraps, and a message released in place then never leaves |
| RetryBound.LeavesOnce | app.go:835-868 | the number of deliveries before a message leaves is unique |
| Draining.InMemoryTransport.Carry | transport.go:202-231 | the in-process queues after one dispatch's calls: the copies appended in order, nothing for an ack |
| Draining.DrainOne | app.go:381-401 | popping and dispatching the head changes the store exactly as the settlement specification says |
| Draining.Drain | app.go:381-401 | ends within its limit or with an empty queue, conserves every message, makes at most the sum of the bounds of the queued messages in dispatches, and exactly that many when every handler fails |
| Draining.CarriedIsSettled | transport.go:202-231 | the calls of a dispatch, carried out by the in-process transport, have the effect the specification gives them |
| Draining.SettledProgress | app.go:381-401 | each dispatch lowers the sum of what is left to deliver, by exactly one when the handler fails |
| Draining.SettledConserves | app.go:381-401 | each dispatch puts the popped message in exactly one place |
| Draining.RetryLeavesOneLess | app.go:835-868 | a retried copy has exactly one delivery less left; what is not retried had one |
| Draining.ReleasedNeverDrains | app.go:815-833 | a released unknown URN is back on the queue unchanged after every dispatch |
| Draining.StepIsFifo | transport.go:202-231 | each dispatch takes the oldest message, and a copy it puts back goes behind all the others |
| Draining.FinishedInOrder | app.go:379-401 | messages whose handlers succeed are finished in the order they were queued |
| Backoff.DelayIsBounded | app.go:141-167 | never negative, never above a positive cap, never overflowing, and not below the base before the cap is reached |
| Backoff.DelayIs | app.go:149-167 | the n-th delay is the base multiplied n - 1 times, over the reals, capped and rounded down |
| Backoff.DelayMultiplies | app.go:149-167 | for whole numbers the first delay is the base and each next one the multiplier times the one before, until the cap |
| Backoff.DelayGrows | app.go:149-167 | never decreasing in the attempt number, for every base, multiplier and cap |
| Backoff.JitterIsBounded | app.go:141-147 | full jitter stays between 0 and the delay |
| Backoff.JitterIs | app.go:141-147 | full jitter is that fraction of the delay in whole nanoseconds; without it, or without a delay, nothing changes |
| KafkaConsumer.Consumer.Reader | kafka/kafka.go:178-190 | a rebuilt reader starts from what is committed, and an existing one is kept |
| KafkaConsumer.Consumer.Pop | kafka/kafka.go:313-354 | yields the record at the reader's position and moves past it, and commits nothing |
| KafkaConsumer.Consumer.Ack | kafka/kafka.go:357-367 | commits exactly the offset after the record, which covers every lower one |
| KafkaConsumer.Consumer.Rewind | kafka/kafka.go:375-387 | every partition is read again from its committed offset, whether or not the close succeeded |
| KafkaConsumer.StepKeeps | kafka/kafka.go:313-387 | each produce, fetch, call, rebalance and crash keeps every offset below the commit settled |
| KafkaConsumer.RunKeeps | kafka/kafka.go:313-387 | so does every run |
| KafkaConsumer.CommittedIsSettled | kafka/kafka.go:357-367 | in every run with arbitrary failures each record below a committed offset was handled, durably replaced, or dropped by configuration |
| KafkaConsumer.UnsettledIsAhead | kafka/kafka.go:375-387 | between dispatches neither the reader nor a commit has passed an unsettled record |
| KafkaConsumer.NeverSkipped | kafka/kafka.go:313-387 | an unsettled record that is not being worked on stays ahead of the reader and of every commit until it is fetched again |
| KafkaRecords.ForwardTraceHeaders | kafka/kafka.go:445-461 | the first `traceparent` and `tracestate` of the source record are carried, and never over one that is already there |
| KafkaRecords.ForwardedIs | kafka/kafka.go:445-463 | that adds the first value of each trace header that is not there yet, and nothing else |
| KafkaRecords.HeadersAreFields | kafka/kafka.go:391-421 | each header of a message holds its own field of the envelope, an empty field has none, and there is no other header |
| KafkaRecords.KeptForwarded | kafka/kafka.go:445-461 | forwarding trace headers and dropping the retry pair commute |
| KafkaRecords.TierFor | kafka/retry.go:50-60 | the first tier that covers the delay, and an error exactly when none does |
| KafkaRecords.TierIs | kafka/retry.go:65-77 | the tier is the first for no attempts, the next for each one more, and the last once they run out |
| KafkaRecords.RetryIs | kafka/retry.go:151-173 | a retry is refused without tiers and for a body that cannot be counted on; otherwise it is the body of the next attempt with the record's key, in the topic of its tier, with the tier's delay and the topic to go back to |
| KafkaRecords.TiersClimb | kafka/retry.go:65-77 | over sorted tiers the attempts climb one tier at a time, never down, and stay on the last |
| KafkaRecords.StripRetrySuffix | kafka/reinject.go:231-247 | cuts the `.retry.<n>` suffix exactly where the name has one |
| KafkaRecords.StripUndoesRetryTopic | kafka/retry.go:47 | stripping the name of a retry topic gives its work topic, whatever that is called |
| KafkaRecords.ReinjectRecord | kafka/reinject.go:231-247 | key and value kept, all headers but the retry pair kept in order, target the last original topic or else the stripped name |
| KafkaRecords.ReinjectedIsRepublished | kafka/retry.go:151-174 | re-injecting what `PublishRetryForAttempt` wrote gives the immediate re-publish of the next attempt, up to the timestamp |
| Reinjector.WaitFor | kafka/reinject.go:196-206 | the wait ends a tier after the timestamp: none when that has passed, and a whole tier for a timestamp that is not past |
| Reinjector.RetryUntilDone | kafka/reinject.go:210-226 | stops at the first success or when the context ends, never before, with the capped doubling pauses in between |
| Reinjector.PausesAre | kafka/reinject.go:210-226 | the pauses double from 100 ms, up to five seconds |
| Reinjector.StepKeeps | kafka/reinject.go:136-192 | fetch, wait, write, commit, failure, cancellation and restart keep every committed offset carried and the first copies in order |
| Reinjector.StepKeepsTime | kafka/reinject.go:175-206 | and every carried copy made after its wait |
| Reinjector.RunKeeps | kafka/reinject.go:136-226 | both hold in every run |
| Reinjector.CommittedIsCarried | kafka/reinject.go:136-192 | in every run a committed retry-topic offset was written to its work topic, and first copies appear in partition order |
| Reinjector.CarriedAfterItsTier | kafka/reinject.go:175-247 | each carried copy is the re-injected record, no earlier than a tier after the smaller of its timestamp and the wait's start, having asked to wait at most a tier |
| Redrive.Broker.RestoreToDlq | redrive.go:192-203 | writes the identical body back and acks only when that succeeded, otherwise rewinds where it can |
| Redrive.Broker.Abort | redrive.go:211-221 | restores and then rewinds exactly as specified, without a second rewind |
| Redrive.Broker.Handle | redrive.go:93-155 | carries out one message's decision and reports exactly whether the run stops |
| Redrive.DrainBatch | redrive.go:72-90 | drains exactly the entries up to the maximum or the end, and fails exactly when a pop does |
| Redrive.ProcessBatch | redrive.go:92-156 | the loop equals the specified run over the drained batch: calls, counts and the stopping point |
| Redrive.Redrive | redrive.go:61-157 | a whole run makes exactly the specified calls and reports the specified summary |
| Redrive.ProcessIsOrderly | redrive.go:92-156 | every message is left unacknowledged or acknowledged right after one confirmed write: its own body on the DLQ, or its copy without `dead_letter` and attempts on the queue asked for, else the one it was dead-lettered from, else the one its meta names |
| Redrive.DecidedExactlyWhen | redrive.go:97-156 | what is restored, what is sent back and where to, and what is reported of it, exactly when |
| Redrive.DrainsExactly | redrive.go:73-95 | as many messages as asked for and as there are, all of them for 0 |
| Redrive.ProcessProgresses | redrive.go:92-156 | commits only ever move over settled messages, and a run that stops leaves the rest unsettled and rewound |
| Redrive.ProcessCounts | redrive.go:92-156 | redriven plus skipped equals the items reported, one for each message processed |
| Redrive.WhatIsReportedWasDone | redrive.go:92-156 | in every run each reported item is that of its drained message and was done: a confirmed and then acknowledged write, of the reset copy where it goes exactly for a decoded and selected message outside a dry run, and otherwise of the identical body back on the DLQ |
| Redrive.RedrivenIsCounted | redrive.go:92-156 | the redriven count is the number of items that report a redrive |
| Redrive.SuccessSettlesAll | redrive.go:61-157 | a run without error settled every drained message, and redriven + skipped = the number drained |
| Redrive.FailureRewinds | redrive.go:192-221 | every failing exit after draining ends with the rewind on a transport that has one |
| Redrive.RunStaysSound | redrive.go:61-157 | commits stay below unsettled messages over repeated runs, and the reader is left level with the commit if and only if no pop failed or everything drained was settled already |
| Redrive.PopErrorLosesAMessage | redrive.go:74-77 | two runs, the first ended by a pop error, commit past a message nobody wrote |
| RedriveCopies.ResetCopyReadsBack | redrive.go:137-140 | with the codec of the library, what is written for a drained message is its identical body on the DLQ, or decodes to it without its `dead_letter` and with attempts 0, up to white space in carried members |
| EnvelopeFields.StringRoundTrip | envelope_codec.go:387-394 | a written string is read back |
| EnvelopeFields.IntRoundTrip | envelope_codec.go:387-394 | a written 64-bit integer is read back, sign included |
| EnvelopeFields.ObjectRoundTrip | envelope_codec.go:357-382 | the members of a written object are read back in order |
| EnvelopeFields.CompactIs | envelope.go:192-201 | dropping insignificant white space keeps a value valid and as deep, and doing it twice changes nothing more |
| JsonCompact.SqueezeIs | envelope.go:192-201 | dropping white space outside string literals byte by byte, every other byte kept, turns the text of a value into the text of the compacted value |
| JsonCompact.CompactDocument | envelope.go:192-201 | so the compacted form of a document is its own text with only white space taken away, and no string is touched |
| EnvelopeDecode.DecodeMeta | envelope_codec.go:258-292 | the one pass equals the last-occurrence specification: it fails exactly when some occurrence is of the wrong type, otherwise yields the last values, the unknown members and the forbidden names |
| EnvelopeDecode.DecodeDeadLetter | envelope_codec.go:310-335 | the same for the dead_letter block |
| EnvelopeDecode.ReadMember | envelope_codec.go:148-217 | one member changes the parts read so far as its case says, or fails |
| EnvelopeDecode.DecodeEnvelope | envelope_codec.go:124-253 | the mutating pass over all members equals the specification by last occurrences: fields, carried members, alias, and the warnings of exactly the last meta block |
| EnvelopeDecode.Decode | envelope.go:225-233 | for every byte string: error, no identity, or the specified envelope with its warnings |
| EnvelopeDecode.DecodesExactlyWhen | envelope_codec.go:124-253 | decoding fails if and only if some checked occurrence fails, yields an identity if and only if the last job or the last alias is a non-blank string, and then the job wins |
| EnvelopeReading.FailsExactlyWhen | envelope_codec.go:124-335 | in terms of the JSON alone: decoding fails exactly when some member is not accepted, text and numbers being null, a string or an integer literal of 64 bits, data null or an object, the two blocks null or an object of accepted members |
| EnvelopeReading.FieldsAreRead | envelope_codec.go:124-335 | every field of the envelope, of meta and of dead_letter is what the last member of its own name says, the zero value when that is missing or null |
| EnvelopeReading.IdentityIsRead | envelope_codec.go:138-247 | the identity is the text of the last job if that is a string that is not blank, or else of the last alias, and without such a string there is none |
| EnvelopeReading.NullResets | envelope_codec.go:387-394 | null in the place of a typed member keeps a document decodable and puts the field back to its zero value |
| EnvelopeReading.NullResetsInside | envelope_codec.go:387-394 | and so inside meta and dead_letter |
| EnvelopeReading.BodyIsRead | envelope.go:225-233 | a body is decoded by its reading: null has no identity, an object is its members, anything else fails |
| EnvelopeDecode.CarriesTheUnknown | envelope_codec.go:205-216 | exactly the unknown names are carried, each with its last raw value |
| EnvelopeDecode.WarnsExactly | envelope_codec.go:219-243 | each warning is raised exactly for its reason: a non-string job, a forbidden key, an alias that is not the identity, a forbidden key of the last meta block |
| EnvelopeDecode.UnknownIsLast | envelope_codec.go:205-216 | the accumulated map holds a name exactly when it occurred and is not one of the reserved ones |
| EnvelopeEncode.CanonicalEncodes | envelope_codec.go:69-84 | an envelope that can be written holds no carried member under a reserved or forbidden name |
| EnvelopeEncode.RoundTrip | envelope_codec.go:42-64 | decoding the encoding of any such envelope gives the same known fields, carried members up to white space, and no warnings |
| EnvelopeEncode.WrittenRoundTrip | envelope_codec.go:450-474 | the same in whatever order the carried members are written, and where several are written under one name, if reading the last of each name gives what the envelope carries |
| EnvelopeEncode.DecodesCanonically | envelope_codec.go:124-253 | whatever decodes with an identity can be written |
| EnvelopeEncode.PlainEncodesAlike | envelope.go:192-201 | what a round trip forgets is not written: both envelopes encode to the same bytes |
| EnvelopeEncode.OnePassIsAFixedPoint | envelope_codec.go:124-253 | for every body with an identity, re-encoding what was decoded is a fixed point after one pass |
| EnvelopeMarshal.AppendRawFields | envelope_codec.go:450-474 | splicing before the closing brace gives the object with the carried members appended in key order, under any keys, each written coerced |
| EnvelopeMarshal.MarshalJSON | envelope_codec.go:42-64 | of an envelope with valid raw values under any names it fails exactly on a reserved key, and otherwise gives the text of the spliced object, every string and name coerced to valid UTF-8 |
| EnvelopeMarshal.SplicedCompacts | envelope_codec.go:42-64 | the spliced text is valid JSON and compacts to the tree of the whole coerced envelope |
| EnvelopeMarshal.Encode | envelope.go:192-201 | the byte-splicing encoder equals the encoder on trees, applied to the coerced envelope and its raw members as they are spelled |
| EnvelopeFrame.EncodedText | envelope_codec.go:42-64 | character by character what Encode writes: every key of the frame, of meta and of dead_letter in its place and spelling with its own field, then the carried members in key order with only white space taken from their values |
| EnvelopeFrame.RefusedExactlyWhen | envelope_codec.go:69-84 | encoding fails exactly for an envelope that carries one of the reserved or forbidden names |
| EnvelopeMake.MakeConfig.constructor | envelope.go:149-185 | the defaults before any option is applied |
| EnvelopeMake.MakeConfig.AddMeta | envelope.go:112-142 | a key is added exactly when it is new, allowed and encodable, and the first violation sticks |
| EnvelopeMake.Make | envelope.go:149-185 | refuses exactly a blank URN or the first violated option, otherwise makes the specified envelope |
| EnvelopeMake.FreshIs | envelope.go:149-185 | field by field: trimmed URN, given or empty data, given id and time, version 1, language go, no attempts, the last queue asked for or default |
| EnvelopeMake.FreshTrace | envelope.go:149-185 | the trace id is the last one given, trimmed, or the new one when there is none or it is blank |
| EnvelopeMake.FreshEntries | envelope.go:112-142 | meta carries exactly the given entries, each with its value |
| EnvelopeMake.MadeIsCanonical | envelope.go:149-201 | of any strings and any meta keys, what Make accepts comes back from encoding and decoding as the coerced envelope, without warnings |
| EnvelopeText.CoercedIsItselfExactlyWhen | envelope_codec.go:438-446 | that is the envelope itself if and only if all its text, the names of carried members included, is valid UTF-8 |
| Utf8.CoerceKeepsPrefix | envelope_codec.go:438-446 | coercing keeps valid text in front as it is |
| Utf8.CoerceReplaces | envelope_codec.go:438-446 | and replaces a first byte with which no valid text starts by U+FFFD, which together with the row above determines every coerced text |
| EnvelopeText.EncodedRoundTrip | envelope_codec.go:42-64 | for every envelope that can be written, whatever its text and its names, decoding what Encode writes gives the coerced envelope; of carried names written alike the last is read |
| EnvelopeText.TextEncodes | envelope_codec.go:42-64 | valid text is written as it is, its carried members in ascending key order |
| EnvelopeText.ApartNamesAreKept | envelope_codec.go:450-474 | where no two keys are written alike, every carried value is read back under its coerced key |
| EnvelopeText.CoercedIsReserved | envelope_codec.go:69-84 | coercing names makes no reserved key and takes none away |
| EnvelopeText.CoercedIsNotBlank | envelope_codec.go:438-446 | coercing an identity never makes it blank |
| AsciiSpace.TrimIsBlank | envelope.go:46-49 | trimming leaves nothing if and only if there is nothing but the six ASCII white-space characters |
| AsciiSpace.TrimIs | envelope.go:46-49 | what is cut off at both ends is white space, and none is left there |
| Decimal.DigitsAre | kafka/kafka.go:405-420 | a number is written digit by digit, in decimal, without leading zeros |
| KeyOrder.SortedAscends | envelope_codec.go:86-93 | carried keys are written in strictly ascending byte order |
| KeyOrder.LeqIs | envelope_codec.go:86-93 | and byte order is decided at the first byte in which two keys differ, the shorter one first where there is none |
| SensitivePaths.CollectPrints | schema/schema.go:131-144 | what the walk over the schema collects are the printed forms of the marked paths |
| SensitivePaths.PrintIs | schema/schema.go:131-144 | a property is joined with a dot, an element step is a pair of brackets |
| SensitivePaths.SplitDots | gdpr/gdpr.go:137-147 | the parts have no dots and join to the path, which by the next row determines them |
| SensitivePaths.JoinIsInjective | gdpr/gdpr.go:137-147 | parts without dots are determined by what they join to |
| SensitivePaths.ParsePath | gdpr/gdpr.go:119-133 | the segments are those of the split, one pair of brackets taken off each |
| SensitivePaths.ParseUndoesPrintExactlyWhen | gdpr/gdpr.go:119-147 | parsing a printed path gives that path back if and only if it starts with a name, an element step comes only right after a name, no name has a dot, one that ends in brackets stands before an element step, and an empty first name does too |
| SensitivePaths.AddressesItselfExactlyWhen | gdpr/gdpr.go:119-133 | a mark is addressed by its printed text exactly under that condition, and its text then addresses nothing else |
| SensitivePaths.PrefixPrints | schema/schema.go:131-144 | the text of an outer path is a proper prefix of the text of every path inside it |
| FieldPaths.Commute | gdpr/gdpr.go:153-203 | operations at two paths that part ways can be done in either order, errors included |
| FieldPaths.CancelEach | gdpr/gdpr.go:96-106 | undoing at the same diverging paths in the same order restores the tree |
| FieldPaths.AnyOrder | gdpr/gdpr.go:96-106 | the order of diverging paths does not matter |
| FieldPaths.IntoIs | gdpr/gdpr.go:153-203 | what is left in place is the transformed tree, and there is an error exactly when some transformation has one |
| FieldPaths.OffIsUnchanged | gdpr/gdpr.go:153-203 | nothing off the path changes, also when an error ends the walk half way |
| FieldPaths.OldOrNew | gdpr/gdpr.go:153-203 | a value the path addresses is transformed or, only after an error, still what it was |
| FieldPaths.FailsExactlyWhen | gdpr/gdpr.go:153-203 | there is an error exactly when the operation is one at some value the path addresses |
| Gdpr.SortedPaths | schema/schema.go:124-129 | exactly the collected paths, sorted |
| DataTree.LeafInPlace | gdpr/gdpr.go:209-239 | the slot to write for one value: nothing on an error, the old slot when the value is left alone, a new tree otherwise |
| DataTree.Build | gdpr/gdpr.go:234-238 | a decoded value becomes a tree of new objects and arrays that stands for exactly it |
| DataTree.ElemsInPlace | gdpr/gdpr.go:175-193 | the loop over a slice rewrites its elements in order and stops at the first error, the later ones untouched |
| DataTree.ApplyAtPath | gdpr/gdpr.go:153-203 | over objects and arrays in the heap: changes only nodes of the tree it is given, leaves a tree, and that stands for what the path makes of the old one, on every exit |
| Gdpr.Walk | gdpr/gdpr.go:96-106 | all paths in order, in place, ended by the first error, with the partly changed data as it is then |
| Gdpr.Protect | gdpr/gdpr.go:71-73 | in place over any schema: the sorted, printed and parsed paths in order up to the first error; for plain schemas the direct recursion over the schema, and an error exactly when that has one |
| Gdpr.Unprotect | gdpr/gdpr.go:84-86 | the same with decryption |
| Gdpr.PathsWalkSchema | gdpr/gdpr.go:96-147 | for every schema whose marks survive printing and do not nest, the path-driven walk equals the schema-driven recursion, and its paths are pairwise disjoint |
| Gdpr.MarksDiverge | schema/schema.go:131-144 | in a plain schema no marked path lies inside another |
| Gdpr.UnprotectUndoesProtect | gdpr/gdpr.go:71-106 | for any cipher whose decrypt inverts encrypt, decrypting after encrypting is the identity on disjoint, non-nested paths |
| Gdpr.SchemaRoundTrip | gdpr/gdpr.go:71-106 | and so for every plain schema: Unprotect after Protect gives back the data tree |
| Gdpr.OnlyMarkedChanges | gdpr/gdpr.go:67-106 | every position off the marked paths is unchanged, on success and after an error |
| Gdpr.MarkedIsOldOrNew | gdpr/gdpr.go:67-73 | a marked value is encrypted, or, only after an error, still as it was, which is all that "partially protected" allows |
| NestedPaths.SealingIsOuter | gdpr/gdpr.go:96-106 | over any list with outer paths first, encrypting is done at the outermost paths only |
| NestedPaths.UndoingIsInner | gdpr/gdpr.go:96-106 | and decrypting at all of them is, once that is undone, one more decryption at the inner ones |
| NestedPaths.InnerCounts | gdpr/gdpr.go:96-106 | a path that lies inside another counts as inner every time it is listed |
| NestedPaths.AllLeaveAloneExactlyWhen | gdpr/gdpr.go:224-239 | operations on strings at any such paths, one listed more than once included, leave the data as it is if and only if the operation, done as often as its path is listed, gives back every string that path addresses |
| Gdpr.WalkedIsOuterFirst | schema/schema.go:124-129 | for every schema, sorting the printed paths puts an outer mark before those inside it |
| Gdpr.NestedMarksRoundTrip | gdpr/gdpr.go:84-106 | for every schema, with marks inside marks of any number and depth: Protect encrypts the outermost, and Unprotect after Protect decrypts the clear data at the inner ones |
| Gdpr.NestedMarksComeBackExactlyWhen | gdpr/gdpr.go:224-239 | so, for every schema, the data comes back if and only if no string stands at an inner position of the clear data, except one that comes back from being decrypted as often as its mark is listed |
| Gdpr.NestedMarksLoseData | gdpr/gdpr.go:96-106 | an object with a clear string under two marks for which Unprotect fails |
| Gdpr.NestedArraysAreNotAddressed | gdpr/gdpr.go:119-133 | one of the paths that do not survive: that of an array of arrays is parsed as a field named with brackets |
| Outbox.InMemoryStore.Save | outbox/outbox.go:171-178 | appends one pending row with an id no other row has |
| Outbox.InMemoryStore.FetchUnpublished | outbox/outbox.go:182-199 | the oldest pending rows, at most the limit, none for a limit that is not positive |
| Outbox.FetchIsOldest | outbox/outbox.go:182-199 | a pending row is fetched exactly when fewer than the limit are older, in its place among them |
| Outbox.InMemoryStore.MarkPublished | outbox/outbox.go:202-211 | marks exactly the named rows, unknown ids ignored |
| Outbox.InMemoryStore.MarkFailed | outbox/outbox.go:215-223 | counts and records the failure of exactly that row, which stays pending |
| Outbox.InMemoryStore.PendingCount | outbox/outbox.go:226-236 | the number of pending rows |
| Outbox.InMemoryStore.Find | outbox/outbox.go:261-268 | the first row with the id, or none |
| Outbox.Write | outbox/outbox.go:124-130 | adds the encoded body verbatim as one pending row, or nothing when it does not encode |
| Outbox.Relay.PublishAll | outbox/relay.go:111-124 | hands every record verbatim to the transport in order, and names exactly the accepted ones |
| Outbox.Relay.Flush | outbox/relay.go:105-133 | every row marked published was accepted verbatim, rows only grow older, and pending rows fall by exactly what was published |
| Outbox.Relay.Drain | outbox/relay.go:141-163 | ends, is a sequence of passes, published equals the fall in pending rows, and stopping before the ceiling means each of the oldest batch was refused in the last pass |
| Outbox.PassTakesOff | outbox/relay.go:105-133 | a pass lowers the pending count by exactly the accepted records |
| Outbox.PassMakes | outbox/relay.go:105-133 | a pass publishes exactly the fetched rows that were accepted, counts the failure and keeps the reason of exactly those that were refused, and leaves all others as they are |
| Outbox.PassIsEvident | outbox/relay.go:105-133 | after any pass each published row has an accepted publish of its queue and body, and no two rows share one |
| Outbox.StepKeeps | outbox/relay.go:105-133 | so after every write, pass and stopped pass |
| Outbox.RunKeeps | outbox/outbox.go:171-223 | and after every sequence of them, in which no row disappears or changes its content |
| Outbox.PublishedIsNeverFetchedAgain | outbox/outbox.go:182-199 | over every run, a published row stays published and no later pass of any size fetches it |
| Outbox.WrittenIsPendingOrPublished | outbox/outbox.go:171-223 | over every run, a row that was written is pending with its content, or published with an accepted publish of its own |
| Outbox.PassIsSafe | outbox/relay.go:105-133 | also when the process stops in the middle: then no row is taken off |
| Outbox.RefusedPass | outbox/relay.go:151-159 | a pass that published nothing was refused on every record of the oldest batch |
| Outbox.BackoffMeetsPromiseExactlyWhen | outbox/relay.go:167-177 | the pause is the capped linear step if and only if the 64-bit product fits or wraps to something not below the cap |
| Outbox.BackoffGrows | outbox/relay.go:167-177 | while it fits, positive, capped and never decreasing in the prior attempts |
| Outbox.BackoffWraps | outbox/relay.go:172 | a step for which the second pause is negative |
| PulsarGate.UnescapeEscape | pulsar/pulsar.go:484-509 | percent-decoding (RFC 3986 section 2.1, plus for space) inverts encoding for every string |
| PulsarGate.EscapeByteIs | pulsar/pulsar.go:484-509 | an unreserved byte is written as it is, a space as plus, any other as a percent sign and its two hexadecimal digits |
| PulsarGate.UnescapeIs | pulsar/pulsar.go:493-509 | any text, whoever wrote it, is decoded exactly when it consists of plain bytes, pluses and percent signs with two hexadecimal digits, to the bytes these stand for |
| PulsarGate.RouteIsRead | pulsar/pulsar.go:493-509 | every route behind the reserved prefix is gated, the version up to the separator and the job behind it, a part that does not decode taken as it is |
| PulsarGate.RejectedIs | pulsar/pulsar.go:517-526 | a delivery is gated on its raw version exactly when there is one other than the supported one and not only ASCII white space |
| PulsarGate.ParseUndoesGate | pulsar/pulsar.go:484-509 | parsing a gate route gives back its version and its optional job, for all of them |
| PulsarGate.OneHop | pulsar/pulsar.go:309-390 | re-publishing a gated delivery keeps the rejected version, and the job property if there was one |
| PulsarGate.HopsAreStable | pulsar/pulsar.go:309-390 | over any number of hops of a gated delivery, whatever headers they add, the rejected version and a first-delivery job are unchanged |
| PulsarGate.CopyJob | pulsar/pulsar.go:367-390 | the job property of every copy, gated or not, by the route of the delivery and the job of its body |
| PulsarGate.PropertiesAreFields | pulsar/pulsar.go:393-413 | each property holds its own field of the envelope, an empty field has none, and there is no other |
| PulsarGate.FirstHopKeepsJobExactlyWhen | pulsar/pulsar.go:581-608 | the first hop of an ungated delivery writes its job property again if and only if the body names a job and the property has no white space around it and is no gate route, or is replaced by an equal job |
| PulsarGate.JobSurvivesExactlyWhen | pulsar/pulsar.go:367-390 | and so over every number of hops, retried or not, also when a copy is gated on the version of its body |
| PulsarGate.ForgedRouteIsGated | pulsar/pulsar.go:587-608 | a delivery of the supported version whose job property is a gate route: it is taken for a gated one, and its copy is gated on that version and routed on the body |
| UnicodeSpace.TrimmedStays | pulsar/pulsar.go:587-590 | trimming white space twice is trimming it once, and changes nothing exactly when there is none at either end |
| UnicodeSpace.SpaceIs | pulsar/pulsar.go:587-590 | a white space character is one with the Unicode property White_Space, in UTF-8 |
| UnicodeSpace.TrimSpaceIs | pulsar/pulsar.go:587-590 | what is cut off at both ends are such characters |
| PulsarGate.ReservedPrefixIsWrittenExactlyWhen | pulsar/pulsar.go:362-390 | a hop writes the reserved prefix as a job if and only if it forwards it: from a gated delivery, from the body where no job property is routed on, or from inside a job property that is a gate route |
| PulsarGate.ReservedPrefixIsNeverMade | pulsar/pulsar.go:362-390 | where neither the delivery nor its body carries it, no number of hops writes it |
| PulsarGate.ReservedJobIsForwarded | pulsar/pulsar.go:393-396 | the delivery for which it is written: a body whose own job is the reserved prefix |
| PulsarGate.GatedIsNeverRetried | app.go:520-545 | a gated delivery runs no handler, and is dropped, dead-lettered as it is, or left to the broker |
| PulsarGate.MergedKeepsContract | pulsar/pulsar.go:429-446 | extra headers never add or replace a contract property, and every other one that is not empty is added unless it is there |
| PulsarGate.ItoaParses | pulsar/pulsar.go:548-562 | a printed attempts property is read back within its range and refused outside it |
| PulsarGate.AttemptsAreRead | pulsar/pulsar.go:546-562 | any attempts property is read exactly when it is decimal digits, leading zeros included, of a number of at most 31 bits |
| PulsarGate.AttemptsAreReconciled | pulsar/pulsar.go:564-608 | a decodable delivery is handed over with the attempts its property names, or else those of its body, and at least the redeliveries, in a body that is otherwise what arrived; and it is counted as one delivery more |
| PulsarGate.AttemptsSurviveTheHop | pulsar/pulsar.go:367-446 | the attempts settled on after a hop are the larger of the body's and the broker's redelivery count |

## Left out

- Gdpr.Protect: the data is a tree, as decoding makes it: two positions do not share one object or array. Nil arguments, which do nothing, are not modelled; the cipher is any pair of partial functions, with decrypt inverting encrypt where a round trip is stated.
- Gdpr.SchemaRoundTrip: by recursion over the schema, so for schemas whose marks survive printing and do not nest, with property names that are distinct as map keys are; `Gdpr.NestedMarksRoundTrip` holds for every schema.
- ReservingBroker.NothingIsLost: releasing in place leaves the held copy as it is, and visibility is abstracted: any held copy may be delivered at any time. The release bodies of the Redis layouts are covered by the Redis modules.
- RedisLaravel.NothingIsLost: the message identity survives re-encoding by cjson and a release or dead-letter body, which is a hypothesis on an abstract re-encoder; the layout is at-least-once because release is not gated.
- RedisDefault.SweepRecovers: one reservation at a time; the server's cjson and the framing of headers in stored values are not part of this model.
- RetryBound.RepublishedIsBounded: every call succeeds; attempts below the largest int; all copies of a message come back with one route.
- Settlement.DeadLetterIsRecorded: the text of the dead_letter block (reason, error, time) is a parameter; where a record is built from a poison body it is in `PoisonRecord`.
- Draining.Drain: the handler's and the encoder's results are parameters; unbounded draining needs a queue without releasable unknown URNs.
- EnvelopeDecode.Decode: the conversion of `data` to Go maps and back is an abstract function that writes what it will read again; number conversion and float rounding are not part of this model.
- EnvelopeMake.MadeIsCanonical: values nest no deeper than the JSON library allows.
- Redrive.Redrive: the DLQ differs from the queue that is drained into.
- KafkaRecords.ReinjectedIsRepublished: the codec is abstract and the timestamp is not compared, since the original sets the publish time.
- Reinjector.CommittedIsCarried: one retry topic at a time, tiers do not interact; liveness under real time is not stated.
- Outbox.Relay.Drain: the in-memory store, whose own calls never fail; an outbox over a database is not part of this model.
- Backoff.DelayGrows: arithmetic over reals, without float rounding.
- PulsarGate.JobSurvivesExactlyWhen: the codec is abstract: what decodes names a job, what was decoded reads back with its fields when it is encoded again, and an empty envelope has no identity; `EnvelopeEncode.OnePassIsAFixedPoint` is why the codec of the library is one. The routing-mismatch callback is left out.
- Broker clients, dialling, closing, connection caches and options of all transports; the `amqp`, `artemis`, `azureservicebus`, `sqs`, `asynq` and `machinery` transports except for the capabilities they have.
- Projection of envelope fields to headers and attributes, except in `KafkaRecords` and `PulsarGate`; restoring an original record through `PublishFrom`; reconciling attempts from Kafka headers; the accept test on envelopes.
- OpenTelemetry wrappers, idempotency stores, schema validation and providers, logging, hooks, observers and panic recovery: they do not change what is settled.
- Clocks, randomness, tokens and identifiers are parameters; tokens are fresh and of the fixed length.
- Naming of dead-letter queues by the caller, truncation of a declared version in log text, and delay scores.
