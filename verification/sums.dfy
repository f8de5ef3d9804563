/**
 The arithmetic of the reducer: the total of a key's view counts, and their
 exact average (the job divides as doubles; here the quotient is a real).
 */
module Sums {
  import opened SeqFacts

  function Sum(s: seq<int>): int
    decreases |s|
  {
    if |s| == 0 then 0 else s[0] + Sum(s[1..])
  }

  lemma {:induction false} SumAppend(a: seq<int>, b: seq<int>)
    ensures Sum(a + b) == Sum(a) + Sum(b)
    decreases |a|
  {
    if |a| == 0 {
      assert a + b == b;
    } else {
      assert (a + b)[1..] == a[1..] + b;
      SumAppend(a[1..], b);
    }
  }

  /** The total of a run split around position `j`. */
  lemma SumAround(b: seq<int>, j: nat)
    requires j < |b|
    ensures Sum(b) == Sum(b[..j]) + b[j] + Sum(b[j + 1..])
  {
    assert b == b[..j] + b[j..];
    SumAppend(b[..j], b[j..]);
    assert b[j..][1..] == b[j + 1..];
  }

  /** The total does not depend on the order the values arrive in. */
  lemma {:induction false} SumPermutation(a: seq<int>, b: seq<int>)
    requires multiset(a) == multiset(b)
    ensures Sum(a) == Sum(b)
    decreases |a|
  {
    if |a| == 0 {
      assert |b| == |multiset(b)| == 0;
    } else {
      assert a[0] in multiset(b);
      var j :| 0 <= j < |b| && b[j] == a[0];
      RemoveAt(b, j);
      TailMultiset(a);
      SumPermutation(a[1..], b[..j] + b[j + 1..]);
      SumAround(b, j);
      SumAppend(b[..j], b[j + 1..]);
    }
  }

  /** The average of a non-empty run of values. */
  function Mean(s: seq<int>): real
    requires |s| > 0
  {
    Sum(s) as real / |s| as real
  }

  /** The values' order is irrelevant to their average. */
  lemma MeanPermutation(a: seq<int>, b: seq<int>)
    requires |a| > 0 && multiset(a) == multiset(b)
    ensures |b| > 0 && Mean(a) == Mean(b)
  {
    assert |a| == |multiset(a)| == |multiset(b)| == |b|;
    SumPermutation(a, b);
  }

  lemma {:induction false} SumBounds(s: seq<int>, lo: int, hi: int)
    requires forall i :: 0 <= i < |s| ==> lo <= s[i] <= hi
    ensures |s| * lo <= Sum(s) <= |s| * hi
    decreases |s|
  {
    if |s| > 0 {
      SumBounds(s[1..], lo, hi);
      assert |s| * lo == lo + (|s| - 1) * lo;
      assert |s| * hi == hi + (|s| - 1) * hi;
    }
  }

  lemma CastProduct(a: int, b: int)
    ensures (a * b) as real == b as real * a as real
  {
  }

  /** Dividing both sides of `lo * n <= total <= hi * n` by a positive `n`. */
  lemma QuotientBounds(total: real, n: real, lo: real, hi: real)
    requires n > 0.0 && lo * n <= total <= hi * n
    ensures lo <= total / n <= hi
  {
    assert total / n - lo == (total - lo * n) / n;
    assert hi - total / n == (hi * n - total) / n;
  }

  /** An average lies between the smallest and the largest of its values. */
  lemma MeanBounds(s: seq<int>, lo: int, hi: int)
    requires |s| > 0
    requires forall i :: 0 <= i < |s| ==> lo <= s[i] <= hi
    ensures lo as real <= Mean(s) <= hi as real
  {
    SumBounds(s, lo, hi);
    CastProduct(|s|, lo);
    CastProduct(|s|, hi);
    QuotientBounds(Sum(s) as real, |s| as real, lo as real, hi as real);
  }
}
