/**
 The combiner the job leaves switched off. Run on the map side, it would replace
 a batch of one key's view counts by their total alone, so the reducer, which
 divides by how many values it receives, would divide by the number of batches.
 Shipping a (sum, count) pair instead is exact, because pairs merge
 associatively and commutatively.
 */
module Combiner {
  import opened Sums
  import opened Reducer

  /** All values of a key, batch after batch. */
  function Flatten(batches: seq<seq<int>>): seq<int>
    decreases |batches|
  {
    if |batches| == 0 then [] else batches[0] + Flatten(batches[1..])
  }

  /** The combiner as written: one total per batch, the count dropped. Its
      outputs keep the total of all the values but hold one value per batch. */
  function CombinerOutputs(batches: seq<seq<int>>): (outputs: seq<int>)
    ensures |outputs| == |batches|
    ensures forall i :: 0 <= i < |batches| ==> outputs[i] == Sum(batches[i])
    ensures Sum(outputs) == Sum(Flatten(batches))
    decreases |batches|
  {
    if |batches| == 0 then []
    else
      var rest := CombinerOutputs(batches[1..]);
      SumAppend(batches[0], Flatten(batches[1..]));
      SumAppend([Sum(batches[0])], rest);
      assert forall i :: 1 <= i < |batches| ==> batches[i] == batches[1..][i - 1];
      [Sum(batches[0])] + rest
  }

  predicate NonEmptyBatches(batches: seq<seq<int>>) {
    forall i :: 0 <= i < |batches| ==> |batches[i]| > 0
  }

  predicate SingletonBatches(batches: seq<seq<int>>) {
    forall i :: 0 <= i < |batches| ==> |batches[i]| == 1
  }

  /** Non-empty batches hold at least one value each, and exactly one each
      only when there are as many values as batches. */
  lemma {:induction false} FlattenLength(batches: seq<seq<int>>)
    requires NonEmptyBatches(batches)
    ensures |Flatten(batches)| >= |batches|
    ensures |Flatten(batches)| == |batches| <==> SingletonBatches(batches)
    decreases |batches|
  {
    if |batches| > 0 {
      FlattenLength(batches[1..]);
      assert forall i :: 1 <= i < |batches| ==> batches[i] == batches[1..][i - 1];
      if SingletonBatches(batches[1..]) && |batches[0]| == 1 {
        forall i | 0 <= i < |batches| ensures |batches[i]| == 1 {
          if i > 0 {
            assert batches[i] == batches[1..][i - 1];
          }
        }
      }
    }
  }

  /** `total / k` and `total / n` agree exactly when the total is zero or the
      divisors are equal. */
  lemma QuotientsAgree(total: real, k: real, n: real)
    requires k > 0.0 && n > 0.0
    ensures total / k == total / n <==> total == 0.0 || k == n
  {
    if total / k == total / n {
      assert total * n == (total / k) * k * n;
      assert total * k == (total / n) * n * k;
      assert total * (n - k) == 0.0;
    }
  }

  /** Reducing the combiner's outputs for a key, split into batches in any
      order, gives the key's true average exactly when the values total zero or
      every batch held a single value: the reason the combiner is disabled. */
  lemma CombinerChangesAverage(countMap: CountMap, key: string, values: seq<int>, batches: seq<seq<int>>)
    requires |values| > 0 && NonEmptyBatches(batches)
    requires multiset(Flatten(batches)) == multiset(values)
    ensures |CombinerOutputs(batches)| > 0
    ensures Reduce(countMap, key, CombinerOutputs(batches))[key] == Reduce(countMap, key, values)[key]
        <==> Sum(values) == 0 || SingletonBatches(batches)
  {
    var flat := Flatten(batches);
    var outputs := CombinerOutputs(batches);
    FlattenLength(batches);
    assert |flat| == |values| by {
      assert |flat| == |multiset(flat)| == |multiset(values)| == |values|;
    }
    assert |outputs| > 0;
    SumPermutation(flat, values);
    QuotientsAgree(Sum(values) as real, |outputs| as real, |values| as real);
  }

  /** The batches of the combiner example: [10, 20] and [100]. */
  lemma CombinerExample()
    ensures Mean(CombinerOutputs([[10, 20], [100]])) == 65.0
    ensures Mean(Flatten([[10, 20], [100]])) == 130.0 / 3.0
  {
    assert CombinerOutputs([[10, 20], [100]]) == [30, 100];
    assert Flatten([[10, 20], [100]]) == [10, 20, 100];
  }

  /** The partial state a correct combiner would ship: a total and a count. */
  datatype Partial = Partial(sum: int, count: nat)

  const NoValues: Partial := Partial(0, 0)

  function Merge(a: Partial, b: Partial): Partial {
    Partial(a.sum + b.sum, a.count + b.count)
  }

  lemma MergeAssociative(a: Partial, b: Partial, c: Partial)
    ensures Merge(Merge(a, b), c) == Merge(a, Merge(b, c))
  {
  }

  lemma MergeCommutative(a: Partial, b: Partial)
    ensures Merge(a, b) == Merge(b, a)
  {
  }

  lemma MergeIdentity(a: Partial)
    ensures Merge(NoValues, a) == a && Merge(a, NoValues) == a
  {
  }

  /** The partial state of a run of values, one value at a time. */
  function Summarize(values: seq<int>): Partial
    decreases |values|
  {
    if |values| == 0 then NoValues else Merge(Partial(values[0], 1), Summarize(values[1..]))
  }

  /** The partial state is the pair the reducer's loop computes. */
  lemma {:induction false} SummarizeIsSumAndCount(values: seq<int>)
    ensures Summarize(values) == Partial(Sum(values), |values|)
    decreases |values|
  {
    if |values| > 0 {
      SummarizeIsSumAndCount(values[1..]);
    }
  }

  /** Summarizing two runs and merging equals summarizing them together. */
  lemma {:induction false} SummarizeConcat(a: seq<int>, b: seq<int>)
    ensures Summarize(a + b) == Merge(Summarize(a), Summarize(b))
    decreases |a|
  {
    if |a| == 0 {
      assert a + b == b;
    } else {
      assert (a + b)[0] == a[0] && (a + b)[1..] == a[1..] + b;
      SummarizeConcat(a[1..], b);
    }
  }

  /** A corrected combiner's outputs, one partial state per batch. */
  function Summaries(batches: seq<seq<int>>): seq<Partial>
    decreases |batches|
  {
    if |batches| == 0 then [] else [Summarize(batches[0])] + Summaries(batches[1..])
  }

  /** The reducer's side of a corrected combiner: merge the partial states. */
  function MergeAll(ps: seq<Partial>): Partial
    decreases |ps|
  {
    if |ps| == 0 then NoValues else Merge(ps[0], MergeAll(ps[1..]))
  }

  lemma {:induction false} MergeSummaries(batches: seq<seq<int>>)
    ensures MergeAll(Summaries(batches)) == Summarize(Flatten(batches))
    decreases |batches|
  {
    if |batches| > 0 {
      MergeSummaries(batches[1..]);
      SummarizeConcat(batches[0], Flatten(batches[1..]));
    }
  }

  function PartialMean(p: Partial): real
    requires p.count > 0
  {
    p.sum as real / p.count as real
  }

  /** Shipping (sum, count) pairs is exact: however a key's values are split into
      batches and in whatever order, merging the batches' pairs and dividing
      gives the average `reduce` computes from all the values at once. */
  lemma PairCombinerExact(countMap: CountMap, key: string, values: seq<int>, batches: seq<seq<int>>)
    requires |values| > 0
    requires multiset(Flatten(batches)) == multiset(values)
    ensures MergeAll(Summaries(batches)).count > 0
    ensures PartialMean(MergeAll(Summaries(batches))) == Reduce(countMap, key, values)[key]
  {
    var flat := Flatten(batches);
    MergeSummaries(batches);
    SummarizeIsSumAndCount(flat);
    assert |flat| == |values| by {
      assert |flat| == |multiset(flat)| == |multiset(values)| == |values|;
    }
    SumPermutation(flat, values);
  }
}
