# Hedwig: delivery and wire format

A model of the parts of Hedwig (the Python library) on which its delivery promises rest, with proofs of those promises.
`dafny verify dfyconfig.toml` checks all of it.

**Redis Streams delivery.** `RedisStreamsConsumerBackend` builds a work queue by hand on consumer-group commands.
`RedisStreams` has the commands as functions on streams, `RedisProtocol` the protocol as a state machine: any number of
publishers, consumers and re-queue processes, every command one atomic step, every process free to die between two
commands. A pull is a lazy generator, so a consumer is described by where its generator is; the attempt check of each
claimed entry is a step of its own. `RedisInvariants`, `RedisNoLoss`, `RedisAttempts`, `RedisLeases`,
`RedisConservation`, `RedisHistory` and `RedisDeliveries` prove what holds of every run, for every interleaving;
`RedisRaces` has short runs that reach what is not excluded. `RedisFetch` and `RedisEffects` say of every step, entry by
entry, what it hands over and what it does to the streams.
`RedisServer`, `RedisRequeue` and `RedisPull` have the server and the two sides of the backend as classes with the
source's loops; whatever the consumer object does, with other processes acting between its commands, and whatever the
re-queueing object does, is proved to be a run of the state machine. `RedisLoop` runs the consumer loop below on the
consumer object and proves that the loop's log and the run of the protocol agree on every message.

**Consumer loop.** `ConsumerLoop` has `fetch_and_process_messages` as a class that writes down everything that can be
seen from outside; `ConsumerLoopRuns` proves what that record says about the error counter, the heartbeats and the
disposition of messages, without looking at the loop's fields, and `ConsumerLoopEvents` that the record holds exactly
what the events of the run call for, in order.

**Other backends.** `PubSubHandOff` is the work queue of the Pub/Sub backend with its drain at shutdown.
`DeadLetterRequeue`, `AwsRequeue` and `GcpRequeue` are dead-letter re-queueing when any call can fail, before or after
taking effect; `PubSubClient` is what the Pub/Sub client does with the attributes it is called with.

**Wire format.** `Decimals`, `Versions`, `SchemaPointers`, `MetaAttributes`, `Payloads`, `Validators`, `Envelopes` and
`Firehose` take a message from the publisher's headers through schema pointer, meta attributes, container or transport
attributes, and transport envelope, and back. Strings are real strings; decimals, versions, `str.format` and the
regular expressions have real printers and parsers. JSON text, protobuf encoding, base64 and UTF-8 are parameters that
are required to read back what they write; `SampleCodecs` has an instance of each that does, and `WireFailures` the
messages that do not arrive as they were sent. `WireFormat` and `EnvelopeFormat` say field by field, with the names that
are on the wire, what is written and exactly what is accepted on reading, whoever wrote it. `ValidatorErrors` says when deserializing fails with something else than
a validation error. `ProtobufRegistry` is the registry built by `_check_schema`.

## What the proofs show about the code

- A run on Redis keeps every publication in exactly one place if and only if no dead-letter move and no re-queue in it
  acts on an entry that has been acknowledged meanwhile (`ConservesIff`); every such action adds one copy
  (`ConservationLaw`). With one consumer and at most one re-queue process there are none (`ExactConservation`). With two
  consumers there are, because the attempt check (redis.py:174) and the dead-letter transaction (redis.py:176-179) are
  separate commands (`TwoConsumersDuplicate`), and with two re-queue processes, because both can receive an entry before
  either commits (`TwoRequeuersDuplicate`). Nothing is lost in any run.
- Lease exclusion needs extensions in time. In a run no entry is ever under two leases if and only if no extension in it
  is made for an entry that another consumer has claimed meanwhile (`ExclusionIff`); `LateExtensionOverlaps` is a run
  with such an extension.
- With several consumers, the lookup at redis.py:174 can find no pending line, because the entry has been acknowledged;
  indexing it raises and ends the consumer (`LookupCanBeEmpty`). With one consumer it never does (`AttemptHistory`).
- The loop calls `message_attributes` at base.py:158, outside every `try`. When it raises, the loop ends and the message
  is neither acked nor nacked (`AllDisposedIff`). The SQS backend raises there (aws.py:274) for a message without
  attributes, which `process_message` (aws.py:183) allows for. A published message gets past that call unless it is sent
  over SQS, in a container, without headers and as text (`AttributesIff`, `AllPublishedDisposedIff`); a document is
  always sent as text (`BareMessageRaises`).
- The schema pointer gives back the type for exactly the non-empty types without a slash. A registered type with a slash
  can be published and arrives as another type (`SlashedTypeArrivesAsAnother`). In transport-attributes mode, protobuf
  data of another class than the registered one can be published and is decoded as data of the registered class
  (`OtherClassArrives`).
- The JSON Schema validator uses the schema's own id as format text, so an id with one brace in it makes every pointer
  fail (`BracedRoot`, `JsonPointer`).
- The Pub/Sub client is called with the attributes as keyword arguments. A header named like an argument that is given
  already keeps the message from being published (`PublishableIff`); one named like an option of the call is taken for
  it, and does not arrive (`EndToEnd`, `OptionHeaderIsLost`).
- The Pub/Sub re-queue makes the same call (gcp.py:381-383), so a copy lacks the attributes that are options of it.
  Every run keeps every message, in the dead-letter subscription or as an exact copy, if and only if no message there
  that can be published has such an attribute (`ExactCopiesIff`); one with an empty `ordering_key` is an example
  (`EmptyOrderingKeyIsLost`). Up to those attributes nothing disappears in any run (`PubSubNothingDisappears`).
- The protobuf registry accepts the version pattern `01.*`, and `1.*` with a final line feed, under which publishers
  never look up a topic (`AcceptedButNeverLookedUp`); which accepted patterns they do look up is
  `AcceptedPatternIsLookedUp`.
- `_deserialize` promises a validation error (base.py:112) and fails with another one exactly in these cases
  (`DeserializeRaisesIff`): all five transport attributes are there and the timestamp or the format version does not
  parse (`BadTimestampRaises`); the JSON Schema validator is given bytes, or a container that passes the container
  schema and is no object (`NumberRaises`) or lacks a metadata field; or all is well up to the lookup of the definition, and the application
  schema's id is no valid format text.

## How the model stands for the code

- Entry ids (milliseconds and sequence number) are one number. Stream names are indices. Times on Redis are whole
  milliseconds, those of the loop whole microseconds.
- `Body.origin`, `Held.since` and the fields `publications`, `handouts`, `finished` and `requeued` of the protocol state are
  bookkeeping for the statements; no branch reads them.
- A failed acknowledgement is a step that may or may not have taken effect. A crash loses what a process holds and
  starts it anew under another consumer id.
- Redis pipelines run as one transaction. `XREADGROUP` sets the delivery count to 1, `XAUTOCLAIM` adds 1 and restarts
  the idle clock, `XCLAIM ... JUSTID` restarts the idle clock only, `XACK` ignores the owner.
- What hooks, callbacks, clocks and remote calls do is given to the loops as a script, over which every statement is
  quantified.

## Model

| member | source | states |
|---|---|---|
| RedisNoLoss.NoLoss | hedwig/backends/redis.py:159-221 | no loss: at every moment of every run, every publication has an undelivered or pending copy, with the fields it was published with, on a subscribed, main or dead-letter stream, or such a copy was acknowledged by a consumer whose loop accepted it |
| RedisNoLoss.OutstandingStays | hedwig/backends/redis.py:188-238 | an entry stops being outstanding only by an acknowledgement: of a dead-letter move, a re-queue, or the loop |
| RedisNoLoss.AckIsCovered | hedwig/backends/redis.py:159-180 | what a step acknowledges has been copied, fields included, in the same transaction, or was accepted by the loop |
| RedisInvariants.StepCarried | hedwig/backends/redis.py:159-180 | every step keeps the fields of every publication in all its copies |
| RedisInvariants.RunSound | hedwig/backends/redis.py:97-221 | in every run streams stay well formed, entries carry what was published, held entries are genuine and delivered, and an entry on its way to the dead-letter stream is over the limit or already acknowledged |
| RedisInvariants.StepEvolves | hedwig/backends/redis.py:97-221 | entries are only appended, delivery and delivery counts only move forward, and an entry whose pending line is gone never gets one back |
| RedisAttempts.AttemptBound | hedwig/backends/redis.py:168-186 | no entry passes the attempt check more than the maximum number of times, under any interleaving; while it is pending, checks passed plus claims waiting are at most its delivery count |
| RedisAttempts.NoNewClaims | hedwig/backends/redis.py:97-107 | every step but a fetch, an extension in particular, adds no claim |
| RedisAttempts.AttemptsOfAny | hedwig/backends/redis.py:168-186 | any set of entries is handed to the loop at most the maximum times its size |
| RedisAttempts.TotalAttempts | hedwig/backends/redis.py:168-186 | in any run the loop is handed at most the maximum times the number of entries added |
| RedisLeases.LeaseExclusion | hedwig/backends/redis.py:97-107 | if every extension is made while the extender's own lease runs, no entry is ever under two unexpired leases |
| RedisLeases.ExtensionBreaksIff | hedwig/backends/redis.py:97-107 | an extension ends exclusion if and only if the entry is pending, the extender holds it, and another consumer holds it under an unexpired lease |
| RedisLeases.ExclusionIff | hedwig/backends/redis.py:97-107 | in a run no entry is ever under two unexpired leases if and only if no extension in it is made for a pending entry that the extender holds and another consumer holds under an unexpired lease |
| RedisLeases.FetchedLease | hedwig/backends/redis.py:196-213 | when a claim or read grants an entry, every other lease on it has run out |
| RedisConservation.ConservationLaw | hedwig/backends/redis.py:159-186 | for any number of consumers and re-queue processes, a publication is in exactly one place, plus once for each dead-letter move or re-queue of an entry of it that was no longer pending |
| RedisConservation.ConservesIff | hedwig/backends/redis.py:159-186 | a run keeps every publication in exactly one place if and only if no move or re-queue acts on an entry already acknowledged |
| RedisConservation.ExactConservation | hedwig/backends/redis.py:159-186 | with one consumer and at most one re-queue process, every publication is in exactly one place, with its fields: undelivered, pending, or accepted and acknowledged once |
| RedisConservation.MoveTotal | hedwig/backends/redis.py:174-180 | the dead-letter move drops nothing, and duplicates exactly an entry that is no longer pending |
| RedisConservation.CommitTotal | hedwig/backends/redis.py:159-166 | the re-queue transaction drops nothing, and duplicates exactly the entries of its batch that are no longer pending |
| RedisSingle.LookupFinds | hedwig/backends/redis.py:174 | with one consumer, the attempt check finds its entry pending |
| RedisHistory.AttemptHistory | hedwig/backends/redis.py:168-186 | with one consumer, the attempt numbers of an entry strictly rise within 1 and the maximum, every entry waiting for its check is pending, and an entry is moved to the dead-letter stream only over the maximum |
| RedisDeliveries.EntriesOfPublication | hedwig/backends/redis.py:159-180 | outside the dead-letter stream a publication has one entry, and one more for every time it was re-queued |
| RedisDeliveries.DeliveriesOfPublication | hedwig/backends/redis.py:159-186 | under any interleaving a publication is handed to the loop at most the maximum times one plus the number of its re-queues |
| RedisRaces.TwoConsumersDuplicate | hedwig/backends/redis.py:174-180 | with two consumers there is a run in which one publication ends up twice in the dead-letter stream |
| RedisRaces.TwoRequeuersDuplicate | hedwig/backends/redis.py:109-166 | with two re-queue processes there is a run in which one publication ends up twice on the main stream |
| RedisRaces.LookupCanBeEmpty | hedwig/backends/redis.py:174 | with two consumers there is a run in which the lookup of the attempt check finds nothing and the consumer ends |
| RedisRaces.LateExtensionOverlaps | hedwig/backends/redis.py:97-107 | there is a run in which a late extension puts an entry under two unexpired leases |
| RedisStreams.ReceivedKeeps | hedwig/backends/redis.py:198-213 | a claim or read changes which entries are outstanding for none, and keeps the stream well formed |
| RedisStreams.BatchPending | hedwig/backends/redis.py:198-213 | every entry received is pending for the receiver, its idle clock restarted, its delivery count 1 if read and one more if claimed |
| RedisStreams.XAddAllKeeps | hedwig/backends/redis.py:62-70 | entries added get larger ids than all before, and are undelivered |
| RedisFetch.BatchIsDue | hedwig/backends/redis.py:198-213 | a claim or read hands over exactly the entries that are idle for long enough, or undelivered, and have fewer older ones of that kind than its count; oldest first |
| RedisFetch.OldestIsDue | hedwig/backends/redis.py:198-213 | so the oldest such entry is always handed over by a command that asks for at least one |
| RedisFetch.ReceivedDelivers | hedwig/backends/redis.py:198-213 | what is handed over becomes pending for the receiver from this moment on, delivered once if read and once more if claimed; every other entry stays as it was |
| RedisFetch.FetchMeaning | hedwig/backends/redis.py:196-213 | the commands of a pull: from each subscribed stream in turn the due entries idle for the visibility timeout, then from all of them the due undelivered ones, streams in the order subscribed and entries oldest first; no other stream is touched |
| RedisEffects.StepChanges | hedwig/backends/redis.py:159-186 | entry by entry: publishing, the dead-letter move and the re-queue add their bodies to the right stream, in order and as new entries, and move, re-queue and acknowledgement end the pending of just their entries |
| RedisEffects.OtherSteps | hedwig/backends/redis.py:97-138 | an extension restarts the idle clock of its entry only; a re-queue receives from the dead-letter stream only, without a minimum idle time; no other step touches a stream |
| RedisServer.Redis.Pipeline | hedwig/backends/redis.py:159-166 | a pipeline applies its commands in order as one step |
| RedisServer.Redis.XAutoClaim | hedwig/backends/redis.py:198-205 | the claim hands over the oldest entries idle for long enough, counts their delivery, and touches no other stream |
| RedisServer.Redis.XReadGroupAll | hedwig/backends/redis.py:207-213 | what the read returns had not been delivered, and is pending for the reader afterwards, delivered once |
| RedisServer.Redis.XPendingRange | hedwig/backends/redis.py:174 | the lookup of a delivered entry is empty exactly when the entry is not outstanding any more |
| RedisServer.Redis.XAck | hedwig/backends/redis.py:237-238 | an acknowledged entry is not outstanding any more, whoever owns it, and no other entry is affected |
| RedisServer.Redis.XClaim | hedwig/backends/redis.py:97-107 | after an extension nobody can claim the entry before it has been idle for as long as a claim asks; delivery counts and what is outstanding stay |
| RedisServer.ClaimTurn | hedwig/backends/redis.py:111-129 | one turn of the claiming loop takes the oldest pending entries and leaves the rest pending |
| RedisServer.ReadTurn | hedwig/backends/redis.py:131-153 | one turn of the reading loop takes the oldest undelivered entries and leaves the rest undelivered |
| RedisRequeue.RedisStreamsConsumerBackend.Claim | hedwig/backends/redis.py:112-119 | in the first loop, the claim is the protocol's next fetch of the re-queue process, which goes on to the second loop exactly when nothing is pending for it |
| RedisRequeue.RedisStreamsConsumerBackend.Read | hedwig/backends/redis.py:132-138 | in the second loop, the read is the protocol's next fetch of the re-queue process |
| RedisRequeue.RedisStreamsConsumerBackend.RequeueMessages | hedwig/backends/redis.py:159-166 | one transaction, the protocol's commit, adds every message to the main stream, in order, and acknowledges all of them |
| RedisRequeue.RedisStreamsConsumerBackend.RequeuePending | hedwig/backends/redis.py:111-130 | the claiming loop terminates and re-queues exactly the pending entries, in id order |
| RedisRequeue.RedisStreamsConsumerBackend.RequeueUndelivered | hedwig/backends/redis.py:131-154 | the reading loop terminates and re-queues exactly the undelivered entries, in id order |
| RedisRequeue.RedisStreamsConsumerBackend.RequeueDeadLetter | hedwig/backends/redis.py:109-157 | however time passes between its commands, re-queueing terminates, leaves nothing outstanding in the dead-letter stream, and extends the main stream by exactly what was, pending first, each part in id order; all of it is a run of the protocol's re-queue process |
| RedisPull.RedisStreamsConsumer.Fetch | hedwig/backends/redis.py:196-213 | the next command of a pull hands over and changes, entry by entry, what a claim from the next stream or the final read of all streams should |
| RedisPull.RedisStreamsConsumer.ProcessRawMessage | hedwig/backends/redis.py:168-186 | the attempt check raises exactly when the entry is no longer pending, moves it exactly when it is over the limit, and otherwise yields it with its delivery count, whatever others do meanwhile |
| RedisPull.RedisStreamsConsumer.MoveToDeadLetter | hedwig/backends/redis.py:175-180 | the dead-letter transaction is the protocol's move step: it adds the body to the dead-letter stream, ends the pending of the entry, and changes nothing else |
| RedisPull.RedisStreamsConsumer.Next | hedwig/backends/redis.py:188-221 | the generator, asked for its next message, performs a run of the protocol's fetch, lookup and move steps, with steps of other processes and the clock in between, and terminates; it raises exactly when its last lookup finds the entry no longer pending, and otherwise ends only when every receiving command has been sent |
| RedisPull.RedisStreamsConsumer.OthersAct | hedwig/backends/redis.py:188-221 | whatever other processes and the clock do between two commands leaves the consumer in a state of the protocol |
| RedisPull.RedisStreamsConsumer.ExtendVisibilityTimeout | hedwig/backends/redis.py:97-107 | an extension is the protocol's extension step: the entry is pending for the extender from this moment on with the same delivery count, and nothing else changes |
| RedisPull.RedisStreamsConsumer.Settle | hedwig/backends/redis.py:237-242 | a message that succeeded is acknowledged, if the command reaches the server, any other is left to its lease, and nothing else changes |
| RedisPull.RedisStreamsConsumer.PullMessages | hedwig/backends/redis.py:188-194 | a new pull starts only after the one before has ended, and by itself changes nothing |
| RedisLoop.PullDeeds | hedwig/backends/redis.py:188-221 | whatever the others do, while a consumer looks for its next message it yields at most one entry, the one it then has in hand, and settles none |
| RedisLoop.SettledByOutcome | hedwig/backends/base.py:152-217 | if log and run agree, the run settled the entries of the messages seen in order, each with an acknowledgement exactly if that message's hooks and processing succeeded |
| RedisLoop.Handle | hedwig/backends/base.py:157-217 | a message yielded for an entry is extended by its callback and then settled once, unless its attributes do not decode |
| RedisLoop.ProcessPull | hedwig/backends/redis.py:188-221 | one pull on the Redis backend sends one claim per stream and one read, gives the loop every message and then the quiet spell of its end, keeps loop and protocol in agreement, and ends |
| RedisLoop.FetchAndProcessMessages | hedwig/backends/base.py:144-217 | the whole loop on the Redis backend: every pull is done, to its end unless an exception leaves the loop; the messages received are, in order, the entries the protocol's run yielded to this consumer; each that decodes is settled once, acknowledged exactly if it succeeded; and no publication is lost |
| ConsumerLoop.HedwigConsumerBaseBackend.CallHeartbeatHook | hedwig/backends/base.py:291-299 | the hook is called when forced or when strictly more than the interval has passed, and the time noted |
| ConsumerLoop.HedwigConsumerBaseBackend.PerformErrorCounterInactivityReset | hedwig/backends/base.py:284-289 | the counter is reset when strictly more than the configured silence has passed |
| ConsumerLoop.HedwigConsumerBaseBackend.ProcessMessage | hedwig/backends/base.py:173 | extensions made by the callback force heartbeats, with the counter as it was before the message |
| ConsumerLoop.HedwigConsumerBaseBackend.HandleMessage | hedwig/backends/base.py:157-217 | the loop body refines its specification, for every outcome of hooks and processing |
| ConsumerLoop.HedwigConsumerBaseBackend.FetchAndProcessMessages | hedwig/backends/base.py:144-217 | the nested loops refine the specification of runs, up to the first exception that leaves them |
| ConsumerLoopRuns.CounterMeansErrorsSince | hedwig/backends/base.py:172-193 | in every run the error counter is the number of generic exceptions since the latest success or inactivity reset, every heartbeat reports it, and a reset happens exactly after the configured silence |
| ConsumerLoopRuns.HeartbeatRateBound | hedwig/backends/base.py:291-299 | any window of length W holds at most W / interval + 1 unforced hook calls |
| ConsumerLoopRuns.OneDispositionEach | hedwig/backends/base.py:152-217 | every message received gets, in order, exactly one ack or nack, an ack exactly when the pre hook returned, processing returned or was ignored, and the post hook returned |
| ConsumerLoopRuns.AllDisposedIff | hedwig/backends/base.py:156-158 | every message received is disposed of if and only if the attributes of all of them decode |
| ConsumerLoopEvents.EachIsLogged | hedwig/backends/base.py:152-193 | from the events: every message seen is received once, exactly those that decode and pass the pre hook are processed, with their own result, every extension of theirs forces a heartbeat, and every quiet spell is checked for inactivity |
| ConsumerLoopEvents.HookCalledIff | hedwig/backends/base.py:291-299 | after a message that was processed and after a quiet spell the hook is called if and only if strictly more than the interval has passed since the latest call, forced ones included; so no call is ever overdue after one |
| ConsumerLoopEvents.CounterMeansFailures | hedwig/backends/base.py:161-193 | from the events: the error counter is the number of messages whose processing raised a generic exception since the latest one that was processed or quiet spell that resets; a message refused by the pre hook does not count |
| ConsumerLoopEvents.ActionsInOrder | hedwig/backends/base.py:157-217 | one message is finished before the next; forced heartbeats come before its result; a rejected message is nacked before the hook is called, an accepted one disposed of after it; the hook follows the inactivity check |
| ConsumerLoopEvents.FlattenJoins | hedwig/backends/base.py:152-156 | the events of several pulls are those of the pulls, one after the other |
| WireFailures.AllPublishedDisposedIff | hedwig/backends/base.py:156-158 | in a run over published messages, every message received is disposed of if and only if none is sent over SQS in a container, without headers and as text |
| PubSubHandOff.PubSubMessageScheduler.Schedule | hedwig/backends/gcp.py:189-191 | a scheduled message goes to the end of the shared queue, with its subscription |
| PubSubHandOff.WorkQueue.Get | hedwig/backends/gcp.py:279 | a read takes the oldest item, or nothing from an empty queue |
| PubSubHandOff.TakeTurn | hedwig/backends/gcp.py:277-294 | one read of the queue keeps yielded messages a prefix of the scheduled ones |
| PubSubHandOff.PullMessages | hedwig/backends/gcp.py:277-294 | messages are yielded in schedule order, each once; housekeeping runs only when the queue is empty; after shutdown the drain yields all that was queued before its final empty read, and terminates |
| PubSubHandOff.SubscriptionInOrder | hedwig/backends/gcp.py:261-294 | the order of every single subscription is kept too |
| DeadLetterRequeue.NothingDisappears | hedwig/backends/aws.py:232-263 | if every removal follows a copy, then of the messages with any given copy, at least as many are in the dead-letter queue or have their copy as there were |
| DeadLetterRequeue.NothingChanges | hedwig/backends/aws.py:232-263 | if moreover copying drops nothing of what is copied, then of every message there are at least as many in the dead-letter queue and among the copies as there were |
| AwsRequeue.Sqs.MakeEntries | hedwig/backends/aws.py:242-253 | there is one send entry per received message, in order, with its body and, if it has any, its attributes |
| AwsRequeue.Sqs.SendMessages | hedwig/backends/aws.py:241-255 | of a batch, exactly the accepted entries reach the main queue, in order, with body and attributes of the originals |
| AwsRequeue.Sqs.DeleteMessages | hedwig/backends/aws.py:259-263 | of a batch, exactly the deleted messages leave the dead-letter queue |
| AwsRequeue.Sqs.RequeueBatch | hedwig/backends/aws.py:232-261 | a batch is sent, and deleted only after all of it was sent; a batch with a failed send is left whole; both queues afterwards, and which exception there is |
| AwsRequeue.Sqs.RequeueDeadLetter | hedwig/backends/aws.py:220-263 | the loop goes on exactly until the first receive that returns nothing or raises, or the first batch that is not sent and deleted as a whole, and says which |
| AwsRequeue.RunCopyFirst | hedwig/backends/aws.py:232-263 | whatever fails, nothing is deleted before it was sent |
| AwsRequeue.SqsNothingDisappears | hedwig/backends/aws.py:232-263 | cut off anywhere, an SQS re-queue run leaves every message in the dead-letter queue or with a copy of its own |
| AwsRequeue.EffectsJoin | hedwig/backends/aws.py:231-263 | what several turns do is what the turns do, one after the other |
| GcpRequeue.PubSub.Publish | hedwig/backends/gcp.py:382-386 | a publish stores the original without the attributes that are options of the call, or nothing, whether or not the future raises |
| GcpRequeue.PubSub.Acknowledge | hedwig/backends/gcp.py:394 | an acknowledgement removes the message or nothing, whether or not it raises |
| GcpRequeue.PubSub.RequeueMessage | hedwig/backends/gcp.py:374-400 | a message is copied unless extending its deadline raises, and removed only after its publish returned; both queues afterwards |
| GcpRequeue.PubSub.RequeueBatch | hedwig/backends/gcp.py:373-400 | every message of a batch is handled in order, whatever raised for those before it |
| GcpRequeue.PubSub.RequeueDeadLetter | hedwig/backends/gcp.py:357-402 | the loop goes on exactly until the first pull that finds nothing, runs into its deadline, or raises; an exception for one message does not end it |
| GcpRequeue.PubSubNothingDisappears | hedwig/backends/gcp.py:357-402 | cut off anywhere, a Pub/Sub re-queue run leaves every message in the dead-letter subscription or with a copy of its own, up to attributes that are options of the client's publish |
| GcpRequeue.ExactCopiesIff | hedwig/backends/gcp.py:381-383 | every run, cut off anywhere, leaves every message or an exact copy of it if and only if no message that can be published has an attribute that is an option of the call |
| GcpRequeue.EmptyOrderingKeyIsLost | hedwig/backends/gcp.py:381-383 | with a client that takes it, a message with an empty `ordering_key` is one that can |
| GcpRequeue.FailureIsIsolated | hedwig/backends/gcp.py:373-400 | a message whose calls return is copied and removed whatever happens to the others of its batch |
| GcpRequeue.EffectsJoin | hedwig/backends/gcp.py:357-402 | what several pulls do is what the pulls do, one after the other |
| GcpRequeue.BatchJoins | hedwig/backends/gcp.py:373-400 | what a batch does is what its messages do, one after the other |
| Decimals.IntRoundTrip | hedwig/validators/base.py:270-273 | every signed number is read back from its decimal text |
| Decimals.ShowOfValue | hedwig/backends/base.py:23-24 | a numeral is the decimal text of its value unless it has leading zeros |
| Decimals.IntTextParses | hedwig/validators/base.py:270-273 | every text of an integer is read as what it says: white space, a sign, digits with single underscores between them |
| Decimals.AcceptedInt | hedwig/validators/base.py:270-273 | no other text is read |
| Decimals.GroupedIff | hedwig/validators/base.py:270-273 | underscores stand one at a time between digits |
| Versions.VersionRoundTrip | hedwig/validators/base.py:62-81 | every version, with or without patch number and pre-release tag, is read back from its text |
| Versions.ShapeParses | hedwig/validators/base.py:77 | every string of the right shape is accepted as a version, with or without a final line feed, and means what its parts say |
| Versions.AcceptedShape | hedwig/validators/base.py:77 | no other string is accepted |
| SchemaPointers.ProtobufPointer | hedwig/validators/protobuf.py:57 | the protobuf pointer is type, slash, version, whatever characters the type has |
| SchemaPointers.JsonPointer | hedwig/validators/jsonschema.py:101 | a JSON Schema pointer can be written if and only if the schema's id is valid format text, and ends in type, slash, version |
| SchemaPointers.BracedRoot | hedwig/validators/jsonschema.py:101 | a schema id with exactly one brace makes every pointer fail |
| SchemaPointers.PlainPointer | hedwig/validators/jsonschema.py:101 | a schema id without braces starts every pointer |
| SchemaPointers.RenderDouble | hedwig/validators/jsonschema.py:101 | doubled braces in the id stand for one |
| SchemaPointers.RenderField | hedwig/validators/base.py:62-66 | a braced name stands for its value |
| SchemaPointers.RenderBrace | hedwig/validators/jsonschema.py:101 | any other brace, and a name without a value, make rendering fail |
| SchemaPointers.SearchFindsFirst | hedwig/validators/base.py:73-76 | the search finds the leftmost, longest match of the pattern whenever there is a match |
| SchemaPointers.FoundIsMatch | hedwig/validators/base.py:73-76 | what the search finds is a match of the pattern |
| SchemaPointers.DecodeMessageType | hedwig/validators/base.py:68-81 | every decoded type is non-empty and free of slashes; anything else is a validation error |
| SchemaPointers.PointerMeaning | hedwig/validators/base.py:62-81 | reading back a pointer gives the version, and the type from its last slash on |
| SchemaPointers.PointerRoundTrip | hedwig/validators/base.py:62-81 | the pointer round trip holds if and only if the type is non-empty and has no slash |
| MetaAttributes.MetaRoundTrip | hedwig/validators/base.py:251-296 | decoding undoes encoding if and only if the headers pass verification |
| MetaAttributes.OtherReservedIgnored | hedwig/validators/base.py:269 | further attributes in the reserved name space change nothing |
| Payloads.TimestampRoundTrip | hedwig/validators/protobuf.py:183 | milliseconds survive the container's seconds and nanoseconds |
| Payloads.CutsOff | hedwig/validators/protobuf.py:109 | nanoseconds are cut off towards zero when they are read as milliseconds |
| Payloads.UuidIff | hedwig/validators/jsonschema_container_schema.json:12-18 | an id is a UUID if and only if it is lower-case hexadecimal digits in groups of 8, 4, 4, 4 and 12, between hyphens |
| Validators.ContainerAccepted | hedwig/validators/jsonschema.py:197-215 | a written JSON container passes the container schema if and only if the id is a UUID and the data an object |
| Validators.ExtractEncoded | hedwig/validators/protobuf.py:96-121 | extraction gives back the record and the data it was encoded with, from container or attributes |
| Validators.SerializedMeaning | hedwig/validators/base.py:199-214 | whatever `_serialize` returns, `_deserialize` accepts, and as what message |
| Validators.SerializeRoundTrip | hedwig/validators/base.py:99-130 | it is the same message if and only if the type has no slash and the data is of the registered class |
| Validators.SerializesIff | hedwig/validators/base.py:199-214 | which messages can be published: those whose type does not end in a slash, with a valid pointer, a known minor version, no reserved header, and data that fits what the pointer is read back as: a document its definition and, in a container, the container schema, a protobuf message the class registered for the last segment of the type |
| Validators.DeserializedType | hedwig/validators/base.py:113-118 | every accepted message has a non-empty type without a slash |
| Validators.BothFormatsAgree | hedwig/validators/base.py:199-229 | a message that serializes both ways is decoded to the same message from either; in a container the transport attributes are the headers |
| Validators.SlashedTypeArrivesAsAnother | hedwig/validators/base.py:62-81 | a message of a registered type with a slash can arrive as one of another type |
| WireFormat.DeserializeIff | hedwig/validators/base.py:99-130 | exactly which payloads and attributes are accepted, and as which message: the record read from the five attributes, the JSON container or the protobuf container, format version 1.0 where it is looked at, a pointer to the type and version, no reserved header, and data of the type |
| WireFormat.SerializedOnTheWire | hedwig/validators/base.py:199-214 | what is published, field by field, in attributes, JSON container and protobuf container, format version included |
| WireFormat.KnowsMinorIff | hedwig/validators/jsonschema.py:167-174 | a minor version is known if and only if it is at most that of the definition's x-version, or of the registered class |
| WireFormat.DefinesIff | hedwig/validators/jsonschema.py:156-165 | the definition of a type and major version is the one at the schema's id, `#/schemas/`, type, slash, and version pattern |
| WireFormat.PointsToIff | hedwig/validators/base.py:68-81 | a pointer is read as the type before its last slash, from the slash before that on, and the version after it, if that is one |
| ValidatorErrors.DeserializeRaisesIff | hedwig/validators/base.py:99-130 | deserializing fails with another error than a validation error if and only if extraction does, or the schema's id is no valid format text and everything before that is in order |
| ValidatorErrors.ExtractionRaisesIff | hedwig/validators/base.py:256-276 | extraction does if and only if the attributes are complete with a timestamp or format version that does not parse, the JSON Schema validator is given bytes, or its container passes the container schema and is no object or lacks a metadata field |
| ValidatorErrors.BadTimestampRaises | hedwig/validators/base.py:270-276 | a timestamp attribute that is no number is a ValueError |
| ValidatorErrors.NumberRaises | hedwig/validators/jsonschema.py:124-137 | a container that is a number is a TypeError |
| Envelopes.Publisher.Publish | hedwig/backends/base.py:71-88 | a message is sent once or not at all; of its headers the instrumentation's override its own, which override the defaults |
| Envelopes.UnwrapWrap | hedwig/backends/redis.py:223-235 | every envelope gives back its payload, and its attributes up to the encoding marker and the options of the Pub/Sub call |
| Envelopes.MarkerIgnored | hedwig/backends/aws.py:182-200 | the encoding marker left among the attributes makes no difference |
| Envelopes.AttributesIff | hedwig/backends/aws.py:273-274 | the loop gets at the attributes of a published message unless it is sent over SQS in a container, without headers and as text |
| Envelopes.EndToEnd | hedwig/backends/gcp.py:296-311 | for Redis, SQS and Pub/Sub, what was published comes out of the loop with the same id, type, version, timestamp, publisher, headers and data, if and only if the type has no slash, the data is of the registered class, it is not such an SQS message, and no header attribute is an option of the Pub/Sub call |
| Envelopes.PublishableIff | hedwig/backends/gcp.py:107-116 | the transport adds no condition for publishing on Redis and SQS, and on Pub/Sub that no header is named like an argument given already and that the client takes the options it is given |
| EnvelopeFormat.WrapMeaning | hedwig/backends/gcp.py:107-116 | what each transport stores, field by field, with its marker if the payload was converted, and exactly when the Pub/Sub call does not go through |
| EnvelopeFormat.ConsumeIff | hedwig/backends/redis.py:223-235 | exactly which queue messages come to the callback, and as which message |
| EnvelopeFormat.HeadersArrive | hedwig/backends/base.py:71-88 | what is consumed has exactly the headers it was sent with, less the Pub/Sub attributes that are options of the call |
| EnvelopeFormat.PublishedHeaders | hedwig/backends/base.py:73 | so key by key a consumed message has the instrumentation's header, else the message's own, else the default |
| WireFailures.BareMessageRaises | hedwig/backends/base.py:156-158 | a document published over SQS in a container without headers would be processed, but the loop raises before |
| WireFailures.OtherClassArrives | hedwig/validators/protobuf.py:149-171 | protobuf data of another class is published in the transport attributes format and arrives as data of the registered class |
| WireFailures.OptionHeaderIsLost | hedwig/backends/gcp.py:107-116 | with a client that takes it, a header `ordering_key` is published with the message and does not arrive |
| Firehose.FirehoseRoundTrip | hedwig/validators/base.py:154-181 | a firehose line reads back as the message, also for an unknown minor version |
| Firehose.FirehoseWritesAll | hedwig/validators/protobuf.py:195-216 | the protobuf validator writes a line for every such message, known minor version or not |
| Firehose.DeserializeFirehoseIff | hedwig/validators/base.py:154-181 | exactly which lines are read, and as which message |
| Firehose.FirehoseOnTheWire | hedwig/validators/protobuf.py:195-216 | what is in a line: the data packed as it is for a known minor version, and in a Value, as base64, for an unknown one |
| ProtobufRegistry.NamePartsExact | hedwig/validators/protobuf.py:236-239 | a class name splits into type and major version in just one way |
| ProtobufRegistry.NamePartsIff | hedwig/validators/protobuf.py:236-239 | and only a prefix, the letter V and a numeral is split |
| ProtobufRegistry.PatternIff | hedwig/validators/protobuf.py:256 | a version pattern is a numeral, a dot and an asterisk, perhaps before a final line feed, and nothing else |
| ProtobufRegistry.TypeMeaning | hedwig/validators/protobuf.py:234-244 | the type is the option's, else the prefix of the name |
| ProtobufRegistry.DisagreesIff | hedwig/validators/protobuf.py:242-246 | a name disagrees if and only if its numeral is another number than the major version |
| ProtobufRegistry.AcceptableIff | hedwig/validators/protobuf.py:218-273 | the configurations to accept, from options, names and patterns alone: every class declares a key that its name does not contradict, no two the same, and every route leads to one |
| ProtobufRegistry.Registry.CheckClass | hedwig/validators/protobuf.py:221-253 | what is reported for one class, and whether it is registered |
| ProtobufRegistry.Registry.CheckRoute | hedwig/validators/protobuf.py:255-270 | what is reported for one route |
| ProtobufRegistry.Registry.CheckSchema | hedwig/validators/protobuf.py:218-273 | the check accepts if and only if every class has the option, a major version, a type and a name that agrees, no two classes share a key, and every route is well formed, not zero and registered |
| ProtobufRegistry.RegistryIsBijection | hedwig/validators/protobuf.py:250-253 | on acceptance the registry is a bijection between classes and keys |
| ProtobufRegistry.RoutedIsKnown | hedwig/validators/protobuf.py:84-94 | every routed type is then found, by its class, and its versions pass up to the class's minor version |
| ProtobufRegistry.AcceptedPatternIsLookedUp | hedwig/backends/base.py:23-24 | an accepted pattern is one that publishers look up if and only if it has no leading zero and no final line feed |
| ProtobufRegistry.AcceptedButNeverLookedUp | hedwig/validators/protobuf.py:255-270 | the configurations with one class and the pattern `01.*`, or `1.*` with a final line feed, are accepted, and no version's topic pattern is that |

## Left out

- RedisRequeue.RedisStreamsConsumerBackend.RequeueDeadLetter: no other process touches the two streams meanwhile; the interleaved case is covered by the state machine
- Decimals.IntRoundTrip: digits and white space outside ASCII, and Python's limit on the number of digits, are not modelled
- SchemaPointers.JsonPointer: replacement fields with conversions, format specifications, attributes or indices count as raising
- Validators.ContainerTreeRead: a container timestamp that is a JSON number with a fraction is refused by the model, where the code takes it over as a float
- Payloads.TimestampRoundTrip: the range limits of the protobuf timestamp are not modelled
- Firehose.FirehoseRoundTrip: a registered class that is google.protobuf.Value itself is excluded, because the reader takes it for the wrapper of an unknown version
- ProtobufRegistry.NamePartsExact: class names have no digits outside ASCII and no line feeds
- a consumer created with `dlq=True` (redis.py:86-87) exists only to call `requeue_dead_letter` (commands.py:12-13), which does not pull; one that pulls from the dead-letter stream is not modelled
- RedisLoop.FetchAndProcessMessages: the loop is run on the Redis backend only, and the generator's `finally` block after an exception in the loop body is not modelled
- the `XAUTOCLAIM` scan limit beyond COUNT, and deletion and trimming of streams
- the firehose path of the protobuf JSON validator, whose decoded bytes fail its own string assertion
- the registry check and reference resolution of the JSON Schema validator, and the evaluation of JSON Schemas: definitions are given by pointer, with the documents they accept
- the conversion of decimals and UUIDs when JSON is dumped
- the Lambda consumer, sync mode, settings, caches, credentials, logging and OpenTelemetry itself
- exceptions that are not `Exception` subclasses, and a `nack_message` that raises
- the list of streaming-pull futures and flow control of the Pub/Sub backend: cancelling is modelled by threads that may still put messages during the drain
- order of a Python dict's items: attributes and headers are maps, and the routes of the registry check are taken in any given order
