/**
 * The sink task's unit tests as client methods: each runs the test's steps
 * on a fresh publisher and task, and its postcondition is the test's assertion.
 * A publisher whose results all resolve as delivered stands for the default mock.
 */
module SinkTaskTest {
  import opened Wrappers
  import opened SinkRecords
  import opened Batching
  import opened SinkTask

  const CpsTopic: string := "the"
  const CpsProject: string := "quick"
  const CpsMinBatchSize1: nat := 2
  const CpsMinBatchSize2: nat := 3
  const KafkaTopic: string := "brown"
  /** The UTF-8 bytes of "fox" and "jumped". */
  const KafkaMessage1: seq<uint8> := [102, 111, 120]
  const KafkaMessage2: seq<uint8> := [106, 117, 109, 112, 101, 100]
  const KafkaMessageKey: string := "over"
  const ByteStringSchema: Schema := Schema(Bytes, Some(SchemaName))

  /** Two valid records of partition 0 of the Kafka topic, with the same key. */
  function SampleRecords(): (records: seq<SinkRecord>)
    ensures |records| == 2
    ensures forall i :: 0 <= i < 2 ==>
      IsByteStringSchema(records[i].valueSchema) && records[i].topic == KafkaTopic &&
      records[i].partition == 0 && records[i].key == Some(KafkaMessageKey)
  {
    [SinkRecord(KafkaTopic, 0, Some(KafkaMessageKey), ByteStringSchema, KafkaMessage1),
     SinkRecord(KafkaTopic, 0, Some(KafkaMessageKey), ByteStringSchema, KafkaMessage2)]
  }

  /** The messages the test expects for the sample records, built independently of Translate. */
  function SampleMessages(): (messages: seq<PubsubMessage>)
    ensures |messages| == 2
    ensures messages[0].data == KafkaMessage1 && messages[1].data == KafkaMessage2
    ensures forall i :: 0 <= i < 2 ==> OriginOf(messages[i]) == Some(Origin(KafkaTopic, 0, Some(KafkaMessageKey)))
  {
    var attributes := map[KeyAttribute := KafkaMessageKey, KafkaTopicAttribute := KafkaTopic,
                          PartitionAttribute := "0"];
    [PubsubMessage(KafkaMessage1, attributes), PubsubMessage(KafkaMessage2, attributes)]
  }

  /** The sample records are all valid and translate to the expected messages. */
  lemma SampleRecordsTranslate()
    ensures Accepted(SampleRecords()) == 2
    ensures Translations(SampleRecords()[..2]) == SampleMessages()
  {
    var records := SampleRecords();
    assert Decimal.IntToString(0) == "0";
    assert records[..2] == records;
    var expected := SampleMessages();
    assert Translate(records[0]).value == expected[0];
    assert Translate(records[1]).value == expected[1];
  }

  /** A value schema of type BOOLEAN makes `put` raise DataException. */
  method TestPutWhenValueSchemaIsNotByteString() returns (result: Outcome, requests: seq<PublishRequest>)
    ensures result == Err(DataException)
    ensures requests == []
  {
    var publisher := new Publisher(_ => Delivered);
    var task := new CloudPubSubSinkTask(publisher, CpsTopic, CpsProject, CpsMinBatchSize2);
    var wrongSchema := Schema(Boolean, None);
    var record := SinkRecord("", -1, None, wrongSchema, []);
    result := task.Put([record]);
    requests := publisher.requests;
  }

  /** A BYTES value schema with the wrong name makes `put` raise DataException. */
  method TestPutWhenValueSchemaNameIsNotByteString() returns (result: Outcome, requests: seq<PublishRequest>)
    ensures result == Err(DataException)
    ensures requests == []
  {
    var publisher := new Publisher(_ => Delivered);
    var task := new CloudPubSubSinkTask(publisher, CpsTopic, CpsProject, CpsMinBatchSize2);
    var wrongSchema := Schema(Bytes, Some(""));
    var record := SinkRecord("", -1, None, wrongSchema, []);
    result := task.Put([record]);
    requests := publisher.requests;
  }

  /** With a minimum batch size of 3, putting the two sample records publishes nothing. */
  method TestPutWhereNoPublishesAreInvoked() returns (result: Outcome, requests: seq<PublishRequest>)
    ensures result == Ok(())
    ensures requests == []
  {
    var publisher := new Publisher(_ => Delivered);
    var task := new CloudPubSubSinkTask(publisher, CpsTopic, CpsProject, CpsMinBatchSize2);
    SampleRecordsTranslate();
    PublishesIffThresholdReached([], CpsMinBatchSize2, SampleMessages());
    result := task.Put(SampleRecords());
    requests := publisher.requests;
  }

  /** With a minimum batch size of 2, putting the two sample records publishes them once, in order. */
  method TestPutWherePublishesAreInvoked() returns (result: Outcome, requests: seq<PublishRequest>)
    ensures result == Ok(())
    ensures |requests| == 1
    ensures requests[0].messages == SampleMessages()
  {
    var publisher := new Publisher(_ => Delivered);
    var task := new CloudPubSubSinkTask(publisher, CpsTopic, CpsProject, CpsMinBatchSize1);
    SampleRecordsTranslate();
    SingleBatch(SampleMessages(), CpsMinBatchSize1);
    result := task.Put(SampleRecords());
    requests := publisher.requests;
  }

  /**
   * Flush after a put that published nothing: one publish, whose result is
   * waited on exactly once, and a normal return when it is delivered.
   */
  method TestFlush() returns (result: Outcome, requests: seq<PublishRequest>, waited: seq<Future>)
    ensures result == Ok(())
    ensures |requests| == 1 && requests[0].messages == SampleMessages()
    ensures waited == [Future(0, Delivered)]
  {
    var publisher := new Publisher(_ => Delivered);
    var task := new CloudPubSubSinkTask(publisher, CpsTopic, CpsProject, CpsMinBatchSize2);
    SampleRecordsTranslate();
    PublishesIffThresholdReached([], CpsMinBatchSize2, SampleMessages());
    AccumulateConserves([], CpsMinBatchSize2, SampleMessages());
    var putResult := task.Put(SampleRecords());
    result := task.Flush();
    requests := publisher.requests;
    waited := task.waited;
  }

  /** As TestFlush, but the publish fails: flush raises after waiting on it once. */
  method TestFlushExceptionCase() returns (result: Outcome, requests: seq<PublishRequest>, waited: seq<Future>)
    ensures result == Err(RuntimeException)
    ensures |requests| == 1
    ensures waited == [Future(0, Failed)]
  {
    var publisher := new Publisher(_ => Failed);
    var task := new CloudPubSubSinkTask(publisher, CpsTopic, CpsProject, CpsMinBatchSize2);
    SampleRecordsTranslate();
    PublishesIffThresholdReached([], CpsMinBatchSize2, SampleMessages());
    var putResult := task.Put(SampleRecords());
    result := task.Flush();
    assert task.waited[0..] == [Future(0, Failed)];
    assert task.waited[0..][0].resolution == Failed;
    requests := publisher.requests;
    waited := task.waited;
  }

  /** Messages exactly as many as the threshold, offered to an empty batch, form one published batch. */
  lemma SingleBatch<M>(messages: seq<M>, minBatchSize: nat)
    requires |messages| == Threshold(minBatchSize)
    ensures Accumulate([], minBatchSize, messages) == Accumulator([messages], [])
  {
    AccumulateBatchSizes([], minBatchSize, messages);
    AccumulateConserves([], minBatchSize, messages);
    var acc := Accumulate([], minBatchSize, messages);
    PublishesIffThresholdReached([], minBatchSize, messages);
    var t := Threshold(minBatchSize);
    assert |acc.published| == 1 by {
      assert |messages| == t * |acc.published| + |acc.pending|;
    }
    assert acc.pending == [] && acc.published == [acc.published[0]];
    FlattenAppend([], acc.published[0]);
    assert Flatten(acc.published) + acc.pending == acc.published[0];
    assert [] + messages == messages;
    assert acc.published == [messages];
  }
}
