/**
 * The Kafka-to-Cloud-Pub/Sub sink task: `put` validates and translates
 * records and publishes full batches, `flush` publishes what is left and
 * waits on every outstanding publish.  The publisher is injected; each
 * publish returns a result that is already resolved.
 */
module SinkTask {
  import opened Wrappers
  import opened SinkRecords
  import opened Batching

  /** How a publish resolves. */
  datatype Resolution = Delivered | Failed

  /** The result of the `call`-th publish of a publisher, already resolved. */
  datatype Future = Future(call: nat, resolution: Resolution)

  /** One publish request: the full topic name and the messages of one batch. */
  datatype PublishRequest = PublishRequest(topic: string, messages: seq<PubsubMessage>)

  /** How `put` and `flush` end: normally, or by throwing. */
  type Outcome = Result<(), SinkError>

  /** The full Cloud Pub/Sub name of a topic of a project. */
  function TopicPath(project: string, topic: string): string
  {
    "projects/" + project + "/topics/" + topic
  }

  /** The requests for a list of batches, one per batch, in order. */
  function RequestsFor(topic: string, batches: seq<seq<PubsubMessage>>): (requests: seq<PublishRequest>)
    ensures |requests| == |batches|
    ensures forall i :: 0 <= i < |batches| ==> requests[i] == PublishRequest(topic, batches[i])
    decreases |batches|
  {
    if batches == [] then []
    else RequestsFor(topic, batches[..|batches| - 1]) + [PublishRequest(topic, batches[|batches| - 1])]
  }

  /** The results of `count` consecutive publishes starting with call number `first`. */
  function FuturesFor(first: nat, count: nat, resolve: nat -> Resolution): (futures: seq<Future>)
    ensures |futures| == count
    ensures forall i :: 0 <= i < count ==> futures[i] == Future(first + i, resolve(first + i))
    decreases count
  {
    if count == 0 then []
    else FuturesFor(first, count - 1, resolve) + [Future(first + count - 1, resolve(first + count - 1))]
  }

  /** Some result in the list is a failure. */
  predicate AnyFailed(futures: seq<Future>)
  {
    exists i :: 0 <= i < |futures| && futures[i].resolution == Failed
  }

  /**
   * The Cloud Pub/Sub publisher: a log of the requests it was given, and how
   * each numbered publish resolves.
   */
  class Publisher {
    const resolve: nat -> Resolution
    var requests: seq<PublishRequest>

    constructor (resolve: nat -> Resolution)
      ensures this.resolve == resolve
      ensures requests == []
    {
      this.resolve := resolve;
      requests := [];
    }

    method Publish(request: PublishRequest) returns (future: Future)
      modifies this
      ensures requests == old(requests) + [request]
      ensures future == Future(|old(requests)|, resolve(|old(requests)|))
    {
      future := Future(|requests|, resolve(|requests|));
      requests := requests + [request];
    }
  }

  class CloudPubSubSinkTask {
    const publisher: Publisher
    const cpsTopic: string
    const cpsProject: string
    const minBatchSize: nat

    /** Messages translated but not yet published. */
    var pending: seq<PubsubMessage>
    /** Results of the publishes issued since the last flush. */
    var outstanding: seq<Future>
    /** Every result this task has waited on, in order. */
    var waited: seq<Future>

    /** Every outstanding result is that of a publish the publisher has received. */
    ghost predicate Tracked()
      reads this, publisher
    {
      forall i :: 0 <= i < |outstanding| ==>
        outstanding[i].call < |publisher.requests| &&
        outstanding[i].resolution == publisher.resolve(outstanding[i].call)
    }

    /** Between calls, the pending batch is below the publishing threshold. */
    ghost predicate Valid()
      reads this, publisher
    {
      Tracked() && |pending| < Threshold(minBatchSize)
    }

    /** The topic every request goes to. */
    function Topic(): string
    {
      TopicPath(cpsProject, cpsTopic)
    }

    /** `start`: the configured topic, project and minimum batch size, nothing buffered. */
    constructor (publisher: Publisher, cpsTopic: string, cpsProject: string, minBatchSize: nat)
      ensures this.publisher == publisher && this.cpsTopic == cpsTopic
      ensures this.cpsProject == cpsProject && this.minBatchSize == minBatchSize
      ensures pending == [] && outstanding == [] && waited == []
      ensures Valid()
    {
      this.publisher := publisher;
      this.cpsTopic := cpsTopic;
      this.cpsProject := cpsProject;
      this.minBatchSize := minBatchSize;
      pending := [];
      outstanding := [];
      waited := [];
    }

    /** Publish the pending batch in one request and record its result. */
    method PublishPending()
      requires Tracked() && pending != []
      modifies this, publisher
      ensures Tracked()
      ensures publisher.requests == old(publisher.requests) + [PublishRequest(Topic(), old(pending))]
      ensures outstanding == old(outstanding) +
        [Future(|old(publisher.requests)|, publisher.resolve(|old(publisher.requests)|))]
      ensures pending == [] && waited == old(waited)
    {
      var future := publisher.Publish(PublishRequest(Topic(), pending));
      outstanding := outstanding + [future];
      pending := [];
    }

    /**
     * The task's state is that of the accumulator `acc`, counting from a
     * publisher that had received `requests0` and outstanding results `outstanding0`.
     */
    ghost predicate Reflects(acc: Accumulator<PubsubMessage>, requests0: seq<PublishRequest>, outstanding0: seq<Future>)
      reads this, publisher
    {
      && pending == acc.pending
      && publisher.requests == requests0 + RequestsFor(Topic(), acc.published)
      && outstanding == outstanding0 + FuturesFor(|requests0|, |acc.published|, publisher.resolve)
    }

    /** Offer one translated message: append it, and publish the batch once it is full. */
    method OfferMessage(message: PubsubMessage, ghost acc: Accumulator<PubsubMessage>,
                        ghost requests0: seq<PublishRequest>, ghost outstanding0: seq<Future>)
      requires Valid() && Reflects(acc, requests0, outstanding0)
      modifies this, publisher
      ensures Valid() && Reflects(Offer(acc, minBatchSize, message), requests0, outstanding0)
      ensures waited == old(waited)
    {
      pending := pending + [message];
      if |pending| >= minBatchSize {
        ghost var batch := pending;
        PublishPending();
        assert (acc.published + [batch])[..|acc.published|] == acc.published;
      }
    }

    /**
     * Validate and translate one record of a `put` and offer its message; an
     * invalid record changes nothing.
     */
    method PutRecord(records: seq<SinkRecord>, i: nat, ghost pending0: seq<PubsubMessage>,
                     ghost requests0: seq<PublishRequest>, ghost outstanding0: seq<Future>) returns (accepted: bool)
      requires i < |records| && forall j :: 0 <= j < i ==> IsByteStringSchema(records[j].valueSchema)
      requires Valid() && Reflects(Accumulate(pending0, minBatchSize, Translations(records[..i])), requests0, outstanding0)
      modifies this, publisher
      ensures accepted == IsByteStringSchema(records[i].valueSchema)
      ensures Valid() && waited == old(waited)
      ensures accepted ==> Reflects(Accumulate(pending0, minBatchSize, Translations(records[..i + 1])), requests0, outstanding0)
      ensures !accepted ==> Reflects(Accumulate(pending0, minBatchSize, Translations(records[..i])), requests0, outstanding0)
    {
      var translated := Translate(records[i]);
      accepted := translated.Ok?;
      if accepted {
        ghost var before := Accumulate(pending0, minBatchSize, Translations(records[..i]));
        AccumulateTranslationsStep(pending0, minBatchSize, records, i);
        OfferMessage(translated.value, before, requests0, outstanding0);
      }
    }

    /**
     * `put`: records are validated and translated in order and each message is
     * offered to the pending batch; a full batch is published at once.  The
     * first invalid record raises DataException, after the records before it
     * have had their effect.
     */
    method Put(records: seq<SinkRecord>) returns (result: Outcome)
      requires Valid()
      modifies this, publisher
      ensures Valid() && waited == old(waited)
      ensures result == (if Accepted(records) < |records| then Err(DataException) else Ok(()))
      ensures Reflects(Accumulate(old(pending), minBatchSize, AcceptedMessages(records)),
                       old(publisher.requests), old(outstanding))
    {
      ghost var pending0, requests0, outstanding0 := pending, publisher.requests, outstanding;
      assert Reflects(Accumulate(pending0, minBatchSize, Translations(records[..0])), requests0, outstanding0);
      var i := 0;
      result := Ok(());
      while i < |records|
        invariant 0 <= i <= |records| && result == Ok(())
        invariant forall j :: 0 <= j < i ==> IsByteStringSchema(records[j].valueSchema)
        invariant Valid() && waited == old(waited)
        invariant Reflects(Accumulate(pending0, minBatchSize, Translations(records[..i])), requests0, outstanding0)
      {
        var accepted := PutRecord(records, i, pending0, requests0, outstanding0);
        if !accepted {
          result := Err(DataException);
          break;
        }
        i := i + 1;
      }
      AcceptedAt(records, i);
    }

    /**
     * `flush`: publish what is still pending, then wait on the result of every
     * publish issued since the last flush, each once, and forget them all;
     * raise if any of them failed.
     */
    method Flush() returns (result: Outcome)
      requires Valid()
      modifies this, publisher
      ensures Valid()
      ensures pending == [] && outstanding == []
      ensures publisher.requests == old(publisher.requests) +
        (if old(pending) == [] then [] else [PublishRequest(Topic(), old(pending))])
      ensures waited == old(waited) + old(outstanding) +
        (if old(pending) == [] then []
         else [Future(|old(publisher.requests)|, publisher.resolve(|old(publisher.requests)|))])
      ensures result == (if AnyFailed(waited[|old(waited)|..]) then Err(RuntimeException) else Ok(()))
    {
      if pending != [] {
        PublishPending();
      }
      var window := outstanding;
      ghost var requests1 := publisher.requests;
      var failed := false;
      var i := 0;
      while i < |window|
        invariant 0 <= i <= |window|
        invariant waited == old(waited) + window[..i]
        invariant failed == AnyFailed(window[..i])
        invariant pending == [] && outstanding == window && publisher.requests == requests1
      {
        var future := window[i];
        assert window[..i + 1] == window[..i] + [future];
        waited := waited + [future];
        if future.resolution == Failed {
          failed := true;
        }
        i := i + 1;
      }
      assert window[..i] == window;
      assert waited[|old(waited)|..] == window;
      outstanding := [];
      result := if failed then Err(RuntimeException) else Ok(());
    }
  }

  /** One more valid record offers its message to the accumulator. */
  lemma AccumulateTranslationsStep(pending: seq<PubsubMessage>, minBatchSize: nat, records: seq<SinkRecord>, i: nat)
    requires i < |records|
    requires forall j :: 0 <= j <= i ==> IsByteStringSchema(records[j].valueSchema)
    ensures Accumulate(pending, minBatchSize, Translations(records[..i + 1])) ==
      Offer(Accumulate(pending, minBatchSize, Translations(records[..i])), minBatchSize, Translate(records[i]).value)
  {
    var front := Translations(records[..i]);
    assert records[..i + 1][..i] == records[..i];
    assert Translations(records[..i + 1]) == front + [Translate(records[i]).value];
    assert (front + [Translate(records[i]).value])[..|front|] == front;
  }

  /** The accepted run ends at the first invalid record, or at the end. */
  lemma AcceptedAt(records: seq<SinkRecord>, i: nat)
    requires i <= |records|
    requires forall j :: 0 <= j < i ==> IsByteStringSchema(records[j].valueSchema)
    requires i < |records| ==> !IsByteStringSchema(records[i].valueSchema)
    ensures Accepted(records) == i
    ensures AcceptedMessages(records) == Translations(records[..i])
  {
  }
}
