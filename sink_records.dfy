/**
 * Kafka Connect sink records, Cloud Pub/Sub messages, and the per-record
 * validation and translation the sink task applies before batching.
 */
module SinkRecords {
  import opened Wrappers
  import Decimal

  newtype uint8 = x: int | 0 <= x < 256

  /** The schema types of Kafka Connect. */
  datatype SchemaType =
    | Int8 | Int16 | Int32 | Int64 | Float32 | Float64
    | Boolean | String | Bytes | Array | Map | Struct

  /** A value schema: its type and its optional name. */
  datatype Schema = Schema(kind: SchemaType, name: Option<string>)

  /** The parts of a sink record the task reads; the key is already rendered as a string. */
  datatype SinkRecord = SinkRecord(
    topic: string,
    partition: int,
    key: Option<string>,
    valueSchema: Schema,
    value: seq<uint8>)

  /** An outgoing Cloud Pub/Sub message. */
  datatype PubsubMessage = PubsubMessage(data: seq<uint8>, attributes: map<string, string>)

  /** The exceptions the sink task raises. */
  datatype SinkError = DataException | RuntimeException

  /** Name carried by the schema of byte-string values. */
  const SchemaName: string := "com.google.protobuf.ByteString"

  /** Attribute names for the record's key, Kafka topic and partition. */
  const KeyAttribute: string := "key"
  const KafkaTopicAttribute: string := "kafka.topic"
  const PartitionAttribute: string := "kafka.partition"

  /** The only value schema the task accepts: type BYTES with the byte-string schema name. */
  predicate IsByteStringSchema(schema: Schema)
  {
    schema.kind == Bytes && schema.name == Some(SchemaName)
  }

  /** Validate one record and turn it into a message carrying its provenance. */
  function Translate(record: SinkRecord): (result: Result<PubsubMessage, SinkError>)
    ensures result.Ok? <==> IsByteStringSchema(record.valueSchema)
    ensures result.Err? ==> result.error == DataException
    ensures result.Ok? ==> result.value.data == record.value
    ensures result.Ok? ==>
      result.value.attributes.Keys ==
      {KafkaTopicAttribute, PartitionAttribute} + (if record.key.Some? then {KeyAttribute} else {})
    ensures result.Ok? ==>
      result.value.attributes[KafkaTopicAttribute] == record.topic &&
      result.value.attributes[PartitionAttribute] == Decimal.IntToString(record.partition) &&
      (record.key.Some? ==> result.value.attributes[KeyAttribute] == record.key.value)
  {
    if !IsByteStringSchema(record.valueSchema) then Err(DataException)
    else
      var provenance := map[PartitionAttribute := Decimal.IntToString(record.partition),
                            KafkaTopicAttribute := record.topic];
      var attributes := if record.key.Some? then provenance[KeyAttribute := record.key.value] else provenance;
      Ok(PubsubMessage(record.value, attributes))
  }

  /** Where a message came from: the Kafka topic, partition and key. */
  datatype Origin = Origin(topic: string, partition: int, key: Option<string>)

  /** Reads a message's provenance back from its attributes. */
  function OriginOf(message: PubsubMessage): Option<Origin>
  {
    var attributes := message.attributes;
    if KafkaTopicAttribute !in attributes || PartitionAttribute !in attributes then None
    else match Decimal.ParseInt(attributes[PartitionAttribute])
      case None => None
      case Some(partition) =>
        var key := if KeyAttribute in attributes then Some(attributes[KeyAttribute]) else None;
        Some(Origin(attributes[KafkaTopicAttribute], partition, key))
  }

  /** Translation loses nothing: the payload and the record's topic, partition and key can be recovered. */
  lemma TranslateKeepsOrigin(record: SinkRecord)
    requires Translate(record).Ok?
    ensures Translate(record).value.data == record.value
    ensures OriginOf(Translate(record).value) == Some(Origin(record.topic, record.partition, record.key))
  {
    Decimal.ParseIntToString(record.partition);
  }

  /**
   * The number of leading records that pass validation: `put` handles records
   * in order and throws at the first invalid one.
   */
  function Accepted(records: seq<SinkRecord>): (count: nat)
    ensures count <= |records|
    ensures forall i :: 0 <= i < count ==> IsByteStringSchema(records[i].valueSchema)
    ensures count < |records| ==> !IsByteStringSchema(records[count].valueSchema)
    decreases |records|
  {
    if records == [] || !IsByteStringSchema(records[0].valueSchema) then 0
    else 1 + Accepted(records[1..])
  }

  /** The messages of a run of valid records, in record order. */
  function Translations(records: seq<SinkRecord>): (messages: seq<PubsubMessage>)
    requires forall i :: 0 <= i < |records| ==> IsByteStringSchema(records[i].valueSchema)
    ensures |messages| == |records|
    ensures forall i :: 0 <= i < |records| ==> messages[i] == Translate(records[i]).value
    decreases |records|
  {
    if records == [] then []
    else Translations(records[..|records| - 1]) + [Translate(records[|records| - 1]).value]
  }

  /** The messages `put` buffers from a list: those of the leading valid records. */
  function AcceptedMessages(records: seq<SinkRecord>): seq<PubsubMessage>
  {
    Translations(records[..Accepted(records)])
  }
}
