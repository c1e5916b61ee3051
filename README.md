# Cloud Pub/Sub sink task and load-test comparison, modelled in Dafny

This project models two parts of the Kafka / Cloud Pub/Sub connector
repository and proves properties of them.

**The sink task** (`CloudPubSubSinkTask`), as its unit tests fix it. Kafka
Connect hands the task lists of sink records through `put`. Each record is
validated: its value schema must have type BYTES and the byte-string schema
name, or `put` throws `DataException`. A valid record becomes a Pub/Sub
message. The message data is the record value. Its attributes are the key,
the Kafka topic and the partition rendered as a decimal string. Messages
collect in a pending batch. The batch is published once it holds the
configured minimum batch size. `flush` publishes what is still pending. It
then waits on the result of every publish issued since the last flush and
throws `RuntimeException` if any of them failed.

The publisher is an injected class (`SinkTask.Publisher`). It keeps a log of
the requests it received. An already-resolved result (`Future`) decides how
each numbered publish resolves: delivered or failed. The task keeps a log
of the results it waited on. These two logs are what the tests check with
Mockito's `verify`. The tests are client methods in `SinkTaskTest`. Each
method's postcondition is the test's assertion.

**The comparison** (`Comparison.java`) builds a histogram of each recorded
packet stream and compares them. It passes only when both histograms are
non-empty and every packet of the first has the same count in the second. A
packet that occurs only in the second stream is never looked at; the model
keeps this one-directional check as it is. If a key of the first histogram
is missing from the second, the code logs the failure and then dereferences
null. The model gives that branch its own verdict, `Abort`, which is never a
pass. The hash map's key order is not specified, so the key visited next is
chosen nondeterministically. When both a missing key and a count mismatch
exist, that order decides between `Abort` and `Fail`. Whether the verdict is
`Pass` does not depend on it.

Files: `wrappers.dfy` (Option, Result), `decimal.dfy` (partition rendering
and its parser), `sink_records.dfy` (records, messages, validation,
translation), `batching.dfy` (the batching rule as functions, with its
lemmas), `sink_task.dfy` (publisher and task classes), `sink_task_test.dfy`
(the unit tests), `comparison.dfy`.

The task's own source file is not part of this model. Neither are
`ConnectorUtils`, `CloudPubSubPublisher` and `CloudPubSubSinkConnector`. The
behaviour comes from the tests, with the following design choices:

- One pending batch for the whole task. The tests use one topic and one partition.
- `flush` waits on every outstanding result, each once, and then forgets all
  of them. It throws if any failed; results that succeeded are still removed.
- The constants of `ConnectorUtils` are taken as `"key"`, `"kafka.topic"`,
  `"kafka.partition"` and `"com.google.protobuf.ByteString"`. The proofs need
  only that the three attribute names are distinct.
- A BYTES value schema without a name is rejected with `DataException`, like one
  with the wrong name. The tests do not cover it; the model treats it as not
  the byte-string schema.
- `put` and `flush` end with `Outcome`, a `Result` of nothing or the exception thrown.
- Publish requests name the topic in the form `projects/<project>/topics/<topic>`.

## Model

| member | source | states |
|---|---|---|
| `Decimal.ParseIntToString` | src/test/java/com/google/pubsub/kafka/sink/CloudPubSubSinkTaskTest.java:196 | the decimal string of any partition, negative or not, parses back to that partition |
| `Decimal.IntToStringInjective` | src/test/java/com/google/pubsub/kafka/sink/CloudPubSubSinkTaskTest.java:196 | distinct partitions give distinct partition attributes |
| `Decimal.NatToStringDigits` | src/test/java/com/google/pubsub/kafka/sink/CloudPubSubSinkTaskTest.java:196 | a non-negative partition renders as decimal digits without a leading zero |
| `Decimal.IntToString` | src/test/java/com/google/pubsub/kafka/sink/CloudPubSubSinkTaskTest.java:196 | the rendering of a partition is non-empty and starts with a minus sign exactly when the partition is negative |
| `SinkRecords.Translate` | src/test/java/com/google/pubsub/kafka/sink/CloudPubSubSinkTaskTest.java:187-202 | a record translates exactly when its value schema is BYTES with the byte-string name, otherwise DataException; the message data is the value and the attribute keys are exactly topic, partition and (if present) key, holding the record's topic, decimal partition and key |
| `SinkRecords.TranslateKeepsOrigin` | src/test/java/com/google/pubsub/kafka/sink/CloudPubSubSinkTaskTest.java:193-198 | the payload and the record's topic, partition and key can be read back from the translated message |
| `SinkRecords.Accepted` | src/test/java/com/google/pubsub/kafka/sink/CloudPubSubSinkTaskTest.java:98-106 | the length of the leading run of valid records: every record before it has the byte-string value schema, and the one at it (if any) does not, so it is the first record `put` rejects |
| `SinkRecords.Translations` | src/test/java/com/google/pubsub/kafka/sink/CloudPubSubSinkTaskTest.java:128-133 | the messages of valid records, one per record, in record order |
| `Batching.Offer` | src/test/java/com/google/pubsub/kafka/sink/CloudPubSubSinkTaskTest.java:124-134 | offering a message keeps the earlier publishes, adds at most one, and adds one exactly when the pending batch with the new message reaches the minimum |
| `Batching.OfferConserves` | src/test/java/com/google/pubsub/kafka/sink/CloudPubSubSinkTaskTest.java:124-134 | offering a message appends it, in order, to the published and pending messages |
| `Batching.Accumulate` | src/test/java/com/google/pubsub/kafka/sink/CloudPubSubSinkTaskTest.java:112-134 | batching a list of messages publishes only non-empty batches |
| `Batching.AccumulateConserves` | src/test/java/com/google/pubsub/kafka/sink/CloudPubSubSinkTaskTest.java:124-134 | batching neither loses, duplicates nor reorders messages: published batches followed by the pending batch are the old pending batch followed by the new messages |
| `Batching.AccumulateBatchSizes` | src/test/java/com/google/pubsub/kafka/sink/CloudPubSubSinkTaskTest.java:57-58 | starting below the threshold, every published batch has exactly the threshold size, the pending batch stays below it, and the message count is threshold times the number of publishes plus what is pending |
| `Batching.PublishesIffThresholdReached` | src/test/java/com/google/pubsub/kafka/sink/CloudPubSubSinkTaskTest.java:112-134 | put publishes something exactly when pending and new messages together reach the threshold |
| `Batching.FlushPublishesEverything` | src/test/java/com/google/pubsub/kafka/sink/CloudPubSubSinkTaskTest.java:140-153 | the publishes of put followed by flush carry exactly the old pending and the new messages, in order |
| `SinkTask.Publisher.constructor` | src/test/java/com/google/pubsub/kafka/sink/CloudPubSubSinkTaskTest.java:73 | a fresh publisher has received no requests |
| `SinkTask.Publisher.Publish` | src/test/java/com/google/pubsub/kafka/sink/CloudPubSubSinkTaskTest.java:146-148 | a publish is logged and returns the resolved result of that numbered call |
| `SinkTask.CloudPubSubSinkTask.constructor` | src/test/java/com/google/pubsub/kafka/sink/CloudPubSubSinkTaskTest.java:71-79 | start: the configured topic, project and minimum batch size, nothing pending, outstanding or waited on |
| `SinkTask.CloudPubSubSinkTask.PublishPending` | src/test/java/com/google/pubsub/kafka/sink/CloudPubSubSinkTaskTest.java:130-133 | the pending batch goes out as one request to the task's topic and its result becomes outstanding |
| `SinkTask.CloudPubSubSinkTask.OfferMessage` | src/test/java/com/google/pubsub/kafka/sink/CloudPubSubSinkTaskTest.java:124-134 | one message is offered exactly as the batching rule says, keeping the task's invariant |
| `SinkTask.CloudPubSubSinkTask.Put` | src/test/java/com/google/pubsub/kafka/sink/CloudPubSubSinkTaskTest.java:84-134 | put raises DataException exactly when some record is invalid; the valid leading records are batched by the batching rule, each full batch is one publish request to the task's topic, each result becomes outstanding, and the pending batch stays below the threshold |
| `SinkTask.CloudPubSubSinkTask.Flush` | src/test/java/com/google/pubsub/kafka/sink/CloudPubSubSinkTaskTest.java:136-172 | flush publishes a non-empty pending batch as one request, waits exactly once on every outstanding result and on that one, empties both, and raises RuntimeException exactly when one of them failed |
| `SinkTaskTest.SampleRecordsTranslate` | src/test/java/com/google/pubsub/kafka/sink/CloudPubSubSinkTaskTest.java:175-202 | the sample records are valid and translate to exactly the expected messages |
| `SinkTaskTest.SampleRecords` | src/test/java/com/google/pubsub/kafka/sink/CloudPubSubSinkTaskTest.java:178-185 | two records of partition 0 of the Kafka topic, with the sample key and the byte-string value schema |
| `SinkTaskTest.SampleMessages` | src/test/java/com/google/pubsub/kafka/sink/CloudPubSubSinkTaskTest.java:191-202 | two messages carrying the two sample values, whose attributes give back the Kafka topic, partition 0 and the sample key |
| `SinkTaskTest.SingleBatch` | src/test/java/com/google/pubsub/kafka/sink/CloudPubSubSinkTaskTest.java:124-134 | threshold-many messages offered to an empty batch make exactly one publish of all of them |
| `SinkTaskTest.TestPutWhenValueSchemaIsNotByteString` | src/test/java/com/google/pubsub/kafka/sink/CloudPubSubSinkTaskTest.java:84-93 | a BOOLEAN value schema makes put raise DataException, with no publish |
| `SinkTaskTest.TestPutWhenValueSchemaNameIsNotByteString` | src/test/java/com/google/pubsub/kafka/sink/CloudPubSubSinkTaskTest.java:98-106 | a BYTES schema with the wrong name makes put raise DataException, with no publish |
| `SinkTaskTest.TestPutWhereNoPublishesAreInvoked` | src/test/java/com/google/pubsub/kafka/sink/CloudPubSubSinkTaskTest.java:112-118 | with minimum batch size 3, putting two records publishes nothing |
| `SinkTaskTest.TestPutWherePublishesAreInvoked` | src/test/java/com/google/pubsub/kafka/sink/CloudPubSubSinkTaskTest.java:124-134 | with minimum batch size 2, putting two records publishes once, and the request's messages are the expected ones in order |
| `SinkTaskTest.TestFlush` | src/test/java/com/google/pubsub/kafka/sink/CloudPubSubSinkTaskTest.java:140-153 | flush after put publishes once, waits on that result exactly once and returns normally |
| `SinkTaskTest.TestFlushExceptionCase` | src/test/java/com/google/pubsub/kafka/sink/CloudPubSubSinkTaskTest.java:159-172 | when the publish fails, flush waits on it once and raises RuntimeException |
| `Comparison.HistogramCounts` | load-test-framework/src/main/java/com/google/pubsub/flic/processing/Comparison.java:66-77 | the histogram's keys are exactly the stream's packets, each count is its number of occurrences and at least 1, and only an empty stream has an empty histogram |
| `Comparison.HistogramOf` | load-test-framework/src/main/java/com/google/pubsub/flic/processing/Comparison.java:66-77 | every key of a stream's histogram is a packet of the stream with a count of at least 1 |
| `Comparison.HistogramPermutation` | load-test-framework/src/main/java/com/google/pubsub/flic/processing/Comparison.java:27-30 | reordering a stream does not change its histogram |
| `Comparison.CreateHistogram` | load-test-framework/src/main/java/com/google/pubsub/flic/processing/Comparison.java:66-77 | the in-place counting loop yields the histogram: keys are the packets read, counts their occurrences |
| `Comparison.Passes` | load-test-framework/src/main/java/com/google/pubsub/flic/processing/Comparison.java:49-61 | a pass needs two non-empty histograms and every key of the first present in the second |
| `Comparison.CompareHistograms` | load-test-framework/src/main/java/com/google/pubsub/flic/processing/Comparison.java:49-61 | Pass exactly when both histograms are non-empty and every key of the first has an equal count in the second; an empty histogram gives Fail; Abort only for a key missing from the second; Fail otherwise only for a count mismatch |
| `Comparison.Compare` | load-test-framework/src/main/java/com/google/pubsub/flic/processing/Comparison.java:46-63 | on two streams, Pass exactly when both are non-empty and every packet of the first occurs equally often in the second; an empty stream fails; Abort only when a packet of the first is absent from the second; Fail on two non-empty streams only when a packet of both has different counts |
| `Comparison.PassesIffFrequenciesCovered` | load-test-framework/src/main/java/com/google/pubsub/flic/processing/Comparison.java:46-62 | the histogram verdict, restated on the streams as occurrence counts |
| `Comparison.PassesOrderIndependent` | load-test-framework/src/main/java/com/google/pubsub/flic/processing/Comparison.java:27-30 | the verdict is unchanged when either stream is reordered |
| `Comparison.PassesMeansContained` | load-test-framework/src/main/java/com/google/pubsub/flic/processing/Comparison.java:53-61 | a pass means the first stream's multiset is contained in the second's |
| `Comparison.PassesBothWaysIffSameMultiset` | load-test-framework/src/main/java/com/google/pubsub/flic/processing/Comparison.java:53-61 | passing in both directions is equality of the two streams' multisets, both non-empty |
| `Comparison.DirectionalCheck` | load-test-framework/src/main/java/com/google/pubsub/flic/processing/Comparison.java:53-61 | [m1] against [m1, m2] passes while [m1, m2] against [m1] does not pass |
| `Comparison.DirectionalVerdicts` | load-test-framework/src/main/java/com/google/pubsub/flic/processing/Comparison.java:53-57 | comparing [m1] with [m1, m2] gives Pass, and comparing [m1, m2] with [m1] gives Abort, because m2 is missing from the second histogram |
| `Comparison.CountMismatchFails` | load-test-framework/src/main/java/com/google/pubsub/flic/processing/Comparison.java:57-59 | [m1, m1, m2] against [m1, m2, m2] does not pass |
| `Comparison.CountMismatchVerdict` | load-test-framework/src/main/java/com/google/pubsub/flic/processing/Comparison.java:57-59 | comparing [m1, m1, m2] with [m1, m2, m2] gives Fail, whatever order the keys are visited in: both keys are present and their counts differ |

## Left out

- `KafkaPublishingTask.java`: it drives a Kafka producer over the network. Its completion callbacks set a shared failure flag from another thread, and it uses clock timestamps and properties-file loading.
- Reading the recorded files and parsing delimited packets in `Comparison`: the input is the sequence of packets read.
- Logging in `Comparison`: the verdict is returned instead of logged.
- The 32-bit `MutableInt` counters of the histogram: counts are unbounded, and no stream overflows them in practice.
- Mockito, deep stubs and the futures machinery: the publisher is a request log with a resolution per call; results are already resolved.
- Blocking, threads and the asynchronous completion of publishes: `flush` only reads resolved results.
- Configuration parsing in `start`: topic, project and minimum batch size are constructor parameters.
- Flush: the map of partition offsets passed to `flush` is not modelled. With one pending batch for the task, `flush` covers every outstanding result.
- Per-topic and per-partition batching: the tests use one partition, so the model keeps a single pending batch.
- The key schema and the offset of a sink record: translation does not use them. The key is modelled already rendered as a string.
- Null fields of a sink record: the invalid records of the tests have a null topic and value. The model gives them an empty topic and value; validation rejects those records before either field is read.
