/**
 * The load test's end-to-end check: two recorded streams of message packets
 * are compared by how often each packet occurs in them.  A packet is any type
 * with equality (message identity is full-content equality); a recorded file
 * is the finite sequence of packets read from it.
 */
module Comparison {

  /**
   * What `compare` ends with.  Pass and Fail are the success and failure logs;
   * Abort is the branch for a key missing from the second histogram, which
   * logs the failure and then dereferences null.
   */
  datatype Verdict = Pass | Fail | Abort

  /** One more occurrence of `packet`: increment its count, or start it at 1. */
  function Record<P(==)>(histogram: map<P, nat>, packet: P): map<P, nat>
  {
    if packet in histogram then histogram[packet := histogram[packet] + 1]
    else histogram[packet := 1]
  }

  /** The histogram of a stream, built in reading order. */
  function HistogramOf<P(==)>(packets: seq<P>): (histogram: map<P, nat>)
    ensures forall p :: p in histogram ==> p in packets && histogram[p] >= 1
    decreases |packets|
  {
    if packets == [] then map[]
    else Record(HistogramOf(packets[..|packets| - 1]), packets[|packets| - 1])
  }

  /** The histogram holds exactly the packets of the stream, each with its number of occurrences. */
  lemma {:induction false} HistogramCounts<P>(packets: seq<P>)
    ensures forall p :: p in HistogramOf(packets) <==> p in packets
    ensures forall p :: p in HistogramOf(packets) ==> HistogramOf(packets)[p] == multiset(packets)[p]
    ensures forall p :: p in HistogramOf(packets) ==> HistogramOf(packets)[p] >= 1
    ensures packets == [] <==> HistogramOf(packets) == map[]
    decreases |packets|
  {
    if packets != [] {
      var front, last := packets[..|packets| - 1], packets[|packets| - 1];
      assert packets == front + [last];
      HistogramCounts(front);
      assert last in HistogramOf(packets);
    }
  }

  /** Reordering a stream does not change its histogram. */
  lemma HistogramPermutation<P>(packets: seq<P>, reordered: seq<P>)
    requires multiset(packets) == multiset(reordered)
    ensures HistogramOf(packets) == HistogramOf(reordered)
  {
    HistogramCounts(packets);
    HistogramCounts(reordered);
    forall p
      ensures p in HistogramOf(packets) <==> p in HistogramOf(reordered)
    {
      assert p in packets <==> p in multiset(packets);
      assert p in reordered <==> p in multiset(reordered);
    }
  }

  /** `createHistogram`: one pass over the stream, updating the map in place. */
  method CreateHistogram<P(==)>(packets: seq<P>) returns (histogram: map<P, nat>)
    ensures histogram == HistogramOf(packets)
    ensures forall p :: p in histogram <==> p in packets
    ensures forall p :: p in histogram ==> histogram[p] == multiset(packets)[p]
  {
    histogram := map[];
    var i := 0;
    while i < |packets|
      invariant 0 <= i <= |packets|
      invariant histogram == HistogramOf(packets[..i])
    {
      var packet := packets[i];
      assert packets[..i + 1][..i] == packets[..i];
      if packet in histogram {
        histogram := histogram[packet := histogram[packet] + 1];
      } else {
        histogram := histogram[packet := 1];
      }
      i := i + 1;
    }
    assert packets[..i] == packets;
    HistogramCounts(packets);
  }

  /**
   * The verdict `compare` passes on: both histograms non-empty and every key of
   * the first present in the second with an equal count.  Keys only in the
   * second histogram are not looked at.
   */
  predicate Passes<P(==)>(histogram1: map<P, nat>, histogram2: map<P, nat>)
    ensures Passes(histogram1, histogram2) ==>
      histogram1 != map[] && histogram2 != map[] && histogram1.Keys <= histogram2.Keys
  {
    |histogram1| > 0 && |histogram2| > 0 &&
    forall p :: p in histogram1 ==> p in histogram2 && histogram2[p] == histogram1[p]
  }

  /**
   * The verdict loop of `compare` over two finished histograms.  The key order
   * of a hash map is not specified, so the key visited next is chosen freely;
   * whether the verdict is Pass does not depend on that choice.
   */
  method CompareHistograms<P(==)>(histogram1: map<P, nat>, histogram2: map<P, nat>) returns (verdict: Verdict)
    ensures verdict == Pass <==> Passes(histogram1, histogram2)
    ensures |histogram1| == 0 || |histogram2| == 0 ==> verdict == Fail
    ensures verdict == Abort ==> exists p :: p in histogram1 && p !in histogram2
    ensures verdict == Fail && |histogram1| > 0 && |histogram2| > 0 ==>
      exists p :: p in histogram1 && p in histogram2 && histogram2[p] != histogram1[p]
  {
    if |histogram1| == 0 || |histogram2| == 0 {
      return Fail;
    }
    var keys := histogram1.Keys;
    while keys != {}
      invariant keys <= histogram1.Keys
      invariant forall p :: p in histogram1 && p !in keys ==> p in histogram2 && histogram2[p] == histogram1[p]
      decreases keys
    {
      var key :| key in keys;
      if key !in histogram2 {
        return Abort;
      }
      if histogram2[key] != histogram1[key] {
        return Fail;
      }
      keys := keys - {key};
    }
    return Pass;
  }

  /** `compare`: histogram both streams, then run the verdict loop. */
  method Compare<P(==)>(packets1: seq<P>, packets2: seq<P>) returns (verdict: Verdict)
    ensures verdict == Pass <==> Passes(HistogramOf(packets1), HistogramOf(packets2))
    ensures verdict == Pass <==>
      packets1 != [] && packets2 != [] &&
      forall p :: p in packets1 ==> multiset(packets2)[p] == multiset(packets1)[p]
    ensures packets1 == [] || packets2 == [] ==> verdict == Fail
    ensures verdict == Abort ==> exists p :: p in packets1 && p !in packets2
    ensures verdict == Fail && packets1 != [] && packets2 != [] ==>
      exists p :: p in packets1 && p in packets2 && multiset(packets2)[p] != multiset(packets1)[p]
  {
    var histogram1 := CreateHistogram(packets1);
    var histogram2 := CreateHistogram(packets2);
    PassesIffFrequenciesCovered(packets1, packets2);
    HistogramCounts(packets1);
    HistogramCounts(packets2);
    verdict := CompareHistograms(histogram1, histogram2);
  }

  /**
   * On streams, passing means both are non-empty and every packet of the
   * first occurs equally often in the second.
   */
  lemma PassesIffFrequenciesCovered<P>(packets1: seq<P>, packets2: seq<P>)
    ensures Passes(HistogramOf(packets1), HistogramOf(packets2)) <==>
      packets1 != [] && packets2 != [] &&
      forall p :: p in packets1 ==> multiset(packets2)[p] == multiset(packets1)[p]
  {
    HistogramCounts(packets1);
    HistogramCounts(packets2);
    var h1, h2 := HistogramOf(packets1), HistogramOf(packets2);
    assert |h1| > 0 <==> packets1 != [] by {
      if packets1 != [] { assert packets1[0] in h1; assert h1.Keys != {}; }
    }
    assert |h2| > 0 <==> packets2 != [] by {
      if packets2 != [] { assert packets2[0] in h2; assert h2.Keys != {}; }
    }
    forall p | p in packets1
      ensures (p in h2 && h2[p] == h1[p]) <==> multiset(packets2)[p] == multiset(packets1)[p]
    {
      assert p in multiset(packets1);
      assert p in packets2 <==> p in multiset(packets2);
    }
  }

  /** Only frequencies matter: the verdict is the same for reordered streams. */
  lemma PassesOrderIndependent<P>(packets1: seq<P>, packets2: seq<P>, reordered1: seq<P>, reordered2: seq<P>)
    requires multiset(packets1) == multiset(reordered1)
    requires multiset(packets2) == multiset(reordered2)
    ensures Passes(HistogramOf(packets1), HistogramOf(packets2)) ==
            Passes(HistogramOf(reordered1), HistogramOf(reordered2))
  {
    HistogramPermutation(packets1, reordered1);
    HistogramPermutation(packets2, reordered2);
  }

  /** A pass says the first stream's multiset is contained in the second's, not that they are equal. */
  lemma PassesMeansContained<P>(packets1: seq<P>, packets2: seq<P>)
    requires Passes(HistogramOf(packets1), HistogramOf(packets2))
    ensures multiset(packets1) <= multiset(packets2)
  {
    PassesIffFrequenciesCovered(packets1, packets2);
    forall p
      ensures multiset(packets1)[p] <= multiset(packets2)[p]
    {
      if p !in packets1 {
        assert p !in multiset(packets1);
      }
    }
  }

  /** Comparing in both directions is multiset equality of two non-empty streams. */
  lemma PassesBothWaysIffSameMultiset<P>(packets1: seq<P>, packets2: seq<P>)
    ensures Passes(HistogramOf(packets1), HistogramOf(packets2)) &&
            Passes(HistogramOf(packets2), HistogramOf(packets1)) <==>
            packets1 != [] && multiset(packets1) == multiset(packets2)
  {
    PassesIffFrequenciesCovered(packets1, packets2);
    PassesIffFrequenciesCovered(packets2, packets1);
    if packets1 != [] && multiset(packets1) == multiset(packets2) {
      assert packets2 != [] by {
        assert packets1[0] in multiset(packets2);
      }
    }
    if Passes(HistogramOf(packets1), HistogramOf(packets2)) &&
       Passes(HistogramOf(packets2), HistogramOf(packets1)) {
      PassesMeansContained(packets1, packets2);
      PassesMeansContained(packets2, packets1);
    }
  }

  /** The check is directional: a packet only in the second stream goes unnoticed. */
  lemma DirectionalCheck<P>(m1: P, m2: P)
    requires m1 != m2
    ensures Passes(HistogramOf([m1]), HistogramOf([m1, m2]))
    ensures !Passes(HistogramOf([m1, m2]), HistogramOf([m1]))
  {
    PassesIffFrequenciesCovered([m1], [m1, m2]);
    PassesIffFrequenciesCovered([m1, m2], [m1]);
    assert m2 in [m1, m2];
  }

  /** A shared packet with different counts fails, here 2 against 1 for m1. */
  lemma CountMismatchFails<P>(m1: P, m2: P)
    requires m1 != m2
    ensures !Passes(HistogramOf([m1, m1, m2]), HistogramOf([m1, m2, m2]))
  {
    PassesIffFrequenciesCovered([m1, m1, m2], [m1, m2, m2]);
    assert m1 in [m1, m1, m2];
    assert multiset([m1, m1, m2])[m1] == 2;
    assert multiset([m1, m2, m2])[m1] == 1;
  }

  /** The count mismatch on m1 (2 against 1) ends `compare` with Fail, not Abort. */
  method CountMismatchVerdict<P(==)>(m1: P, m2: P) returns (verdict: Verdict)
    requires m1 != m2
    ensures verdict == Fail
  {
    verdict := Compare([m1, m1, m2], [m1, m2, m2]);
    CountMismatchFails(m1, m2);
    forall p | p in [m1, m1, m2]
      ensures p in [m1, m2, m2]
    {
    }
  }

  /**
   * The one-directional check on [m1] and [m1, m2]: Pass in one direction; in
   * the other, m2 is missing from the second histogram and `compare` aborts.
   */
  method DirectionalVerdicts<P(==)>(m1: P, m2: P) returns (forward: Verdict, backward: Verdict)
    requires m1 != m2
    ensures forward == Pass
    ensures backward == Abort
  {
    DirectionalCheck(m1, m2);
    forward := Compare([m1], [m1, m2]);
    backward := Compare([m1, m2], [m1]);
    forall p | p in [m1, m2] && p in [m1]
      ensures multiset([m1])[p] == multiset([m1, m2])[p]
    {
      assert p == m1;
      assert multiset([m1, m2])[m1] == 1;
    }
  }
}
