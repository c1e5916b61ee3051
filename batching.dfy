/**
 * The batching rule of the sink task: each message is appended to the pending
 * batch, and the batch is handed to the publisher as soon as it holds at least
 * the configured minimum number of messages.
 */
module Batching {

  /** The batches handed to the publisher so far, oldest first, and the pending batch. */
  datatype Accumulator<M> = Accumulator(published: seq<seq<M>>, pending: seq<M>)

  /** The batch size every publish from `put` has; a minimum of 0 publishes each message alone. */
  function Threshold(minBatchSize: nat): (t: nat)
    ensures t >= 1 && t >= minBatchSize
  {
    if minBatchSize == 0 then 1 else minBatchSize
  }

  /** Offer one message: append it, then publish the pending batch if it has reached the minimum. */
  function Offer<M>(acc: Accumulator<M>, minBatchSize: nat, message: M): (next: Accumulator<M>)
    ensures |acc.published| <= |next.published| <= |acc.published| + 1
    ensures next.published[..|acc.published|] == acc.published
    ensures |next.published| > |acc.published| <==> |acc.pending| + 1 >= minBatchSize
  {
    var batch := acc.pending + [message];
    if |batch| >= minBatchSize then Accumulator(acc.published + [batch], [])
    else Accumulator(acc.published, batch)
  }

  /** Offer the messages in order, starting from a pending batch and nothing published. */
  function Accumulate<M>(pending: seq<M>, minBatchSize: nat, messages: seq<M>): (acc: Accumulator<M>)
    ensures forall i :: 0 <= i < |acc.published| ==> acc.published[i] != []
    decreases |messages|
  {
    if messages == [] then Accumulator([], pending)
    else Offer(Accumulate(pending, minBatchSize, messages[..|messages| - 1]), minBatchSize, messages[|messages| - 1])
  }

  /** All messages of a list of batches, in order. */
  function Flatten<M>(batches: seq<seq<M>>): seq<M>
    decreases |batches|
  {
    if batches == [] then []
    else Flatten(batches[..|batches| - 1]) + batches[|batches| - 1]
  }

  lemma FlattenAppend<M>(batches: seq<seq<M>>, batch: seq<M>)
    ensures Flatten(batches + [batch]) == Flatten(batches) + batch
  {
  }

  /** Offering a message appends it to the messages published or pending. */
  lemma OfferConserves<M>(acc: Accumulator<M>, minBatchSize: nat, message: M)
    ensures var next := Offer(acc, minBatchSize, message);
      Flatten(next.published) + next.pending == Flatten(acc.published) + acc.pending + [message]
  {
    FlattenAppend(acc.published, acc.pending + [message]);
    var batch := acc.pending + [message];
    if |batch| < minBatchSize {
      assert Flatten(acc.published) + batch == Flatten(acc.published) + acc.pending + [message];
    }
  }

  /** Batching neither loses, duplicates nor reorders a message. */
  lemma {:induction false} AccumulateConserves<M>(pending: seq<M>, minBatchSize: nat, messages: seq<M>)
    ensures var acc := Accumulate(pending, minBatchSize, messages);
      Flatten(acc.published) + acc.pending == pending + messages
    decreases |messages|
  {
    if messages != [] {
      var front, last := messages[..|messages| - 1], messages[|messages| - 1];
      assert messages == front + [last];
      AccumulateConserves(pending, minBatchSize, front);
      var before := Accumulate(pending, minBatchSize, front);
      assert Accumulate(pending, minBatchSize, messages) == Offer(before, minBatchSize, last);
      OfferConserves(before, minBatchSize, last);
      assert pending + front + [last] == pending + messages;
    }
  }

  /**
   * Started below the threshold, every published batch has exactly the
   * threshold size, the pending batch stays below it, and the number of
   * publishes is the quotient of the message count by the threshold.
   */
  lemma {:induction false} AccumulateBatchSizes<M>(pending: seq<M>, minBatchSize: nat, messages: seq<M>)
    requires |pending| < Threshold(minBatchSize)
    ensures var acc := Accumulate(pending, minBatchSize, messages);
      && (forall i :: 0 <= i < |acc.published| ==> |acc.published[i]| == Threshold(minBatchSize))
      && |acc.pending| < Threshold(minBatchSize)
      && |pending| + |messages| == Threshold(minBatchSize) * |acc.published| + |acc.pending|
    decreases |messages|
  {
    if messages != [] {
      var front := messages[..|messages| - 1];
      AccumulateBatchSizes(pending, minBatchSize, front);
      var before := Accumulate(pending, minBatchSize, front);
      var t := Threshold(minBatchSize);
      assert t * (|before.published| + 1) == t * |before.published| + t;
    }
  }

  /** `put` publishes exactly when the pending and new messages together reach the threshold. */
  lemma PublishesIffThresholdReached<M>(pending: seq<M>, minBatchSize: nat, messages: seq<M>)
    requires |pending| < Threshold(minBatchSize)
    ensures Accumulate(pending, minBatchSize, messages).published == [] <==>
      |pending| + |messages| < Threshold(minBatchSize)
  {
    AccumulateBatchSizes(pending, minBatchSize, messages);
    AccumulateConserves(pending, minBatchSize, messages);
    var acc := Accumulate(pending, minBatchSize, messages);
    var n := |acc.published|;
    if n > 0 {
      assert Flatten(acc.published) == Flatten(acc.published[..n - 1]) + acc.published[n - 1];
    }
  }

  /**
   * Put followed by flush: flush publishes what is still pending, so the
   * publishes together carry the old pending batch and the new messages, in order.
   */
  lemma FlushPublishesEverything<M>(pending: seq<M>, minBatchSize: nat, messages: seq<M>)
    ensures var acc := Accumulate(pending, minBatchSize, messages);
      Flatten(acc.published + (if acc.pending == [] then [] else [acc.pending])) == pending + messages
  {
    var acc := Accumulate(pending, minBatchSize, messages);
    AccumulateConserves(pending, minBatchSize, messages);
    if acc.pending != [] {
      FlattenAppend(acc.published, acc.pending);
    } else {
      assert acc.published + [] == acc.published;
    }
  }
}
