/**
 The reducer's `cleanup`: `sortByValues` copies the entries of `countMap` into a
 list in the HashMap's iteration order, sorts the list with a descending
 comparator on the average, and re-inserts the entries into a LinkedHashMap,
 whose iteration order is insertion order; `cleanup` then writes the first ten.
 The HashMap's iteration order is unspecified, so it is a parameter here.
 */
module Ranking {
  import opened SeqFacts
  import opened Reducer

  /** How many entries `cleanup` writes at most. */
  const TopCount: nat := 10

  /** One `countMap` entry: an article and its average. */
  datatype Entry = Entry(key: string, average: real)

  /** `order` lists each entry of `m` exactly once and nothing else: it is an
      iteration order of the HashMap holding `m`. */
  ghost predicate Enumerates(order: seq<Entry>, m: CountMap) {
    forall e :: multiset(order)[e] == (if e.key in m && m[e.key] == e.average then 1 else 0)
  }

  /** Non-increasing by average: the comparator `o2.compareTo(o1)` on values. */
  predicate Descending(es: seq<Entry>) {
    forall i, j :: 0 <= i < j < |es| ==> es[i].average >= es[j].average
  }

  /** Puts `e` into a descending list, ahead of every entry with an equal
      average, as a stable sort does when `e` came first. */
  function Insert(e: Entry, s: seq<Entry>): (r: seq<Entry>)
    requires Descending(s)
    ensures Descending(r)
    ensures multiset(r) == multiset(s) + multiset{e}
    ensures forall x :: x in r ==> x == e || x in s
    decreases |s|
  {
    if |s| == 0 then [e]
    else if s[0].average <= e.average then
      DescendingCons(e, s);
      [e] + s
    else
      var rest := Insert(e, s[1..]);
      InsertAfterHead(e, s, rest);
      [s[0]] + rest
  }

  /** Keeping the head of `s` in front of `e` inserted into its tail. */
  lemma InsertAfterHead(e: Entry, s: seq<Entry>, rest: seq<Entry>)
    requires Descending(s) && |s| > 0 && s[0].average > e.average
    requires Descending(rest) && multiset(rest) == multiset(s[1..]) + multiset{e}
    requires forall x :: x in rest ==> x == e || x in s[1..]
    ensures Descending([s[0]] + rest)
    ensures multiset([s[0]] + rest) == multiset(s) + multiset{e}
    ensures forall x :: x in [s[0]] + rest ==> x == e || x in s
  {
    assert s == [s[0]] + s[1..];
    DescendingCons(s[0], rest);
  }

  /** A head no smaller than every entry of a descending tail keeps it descending. */
  lemma DescendingCons(x: Entry, s: seq<Entry>)
    requires Descending(s)
    requires forall y :: y in s ==> y.average <= x.average
    ensures Descending([x] + s)
  {
    var r := [x] + s;
    forall i, j | 0 <= i < j < |r| ensures r[i].average >= r[j].average {
      assert r[j] == s[j - 1];
      if i > 0 {
        assert r[i] == s[i - 1];
      }
    }
  }

  /** `Collections.sort` with the descending comparator: the entries
      rearranged, none added, dropped or altered, into non-increasing order. */
  function InsertionSort(es: seq<Entry>): (r: seq<Entry>)
    ensures Descending(r)
    ensures multiset(r) == multiset(es)
    decreases |es|
  {
    if |es| == 0 then []
    else
      assert es == [es[0]] + es[1..];
      Insert(es[0], InsertionSort(es[1..]))
  }

  /** `sortByValues`: the iteration order of the returned LinkedHashMap. It holds
      exactly the pairs of `m`, each once, in non-increasing order of average. */
  function SortByValues(m: CountMap, order: seq<Entry>): (sorted: seq<Entry>)
    requires Enumerates(order, m)
    ensures Enumerates(sorted, m)
    ensures Descending(sorted)
  {
    InsertionSort(order)
  }

  /** A list that enumerates `m` holds each of its pairs and only those. */
  lemma EnumeratesEntries(order: seq<Entry>, m: CountMap)
    requires Enumerates(order, m)
    ensures forall k :: k in m ==> Entry(k, m[k]) in order
    ensures forall i :: 0 <= i < |order| ==> order[i].key in m && m[order[i].key] == order[i].average
  {
    forall k | k in m ensures Entry(k, m[k]) in order {
      assert multiset(order)[Entry(k, m[k])] == 1;
    }
    forall i | 0 <= i < |order|
      ensures order[i].key in m && m[order[i].key] == order[i].average
    {
      assert order[i] in multiset(order);
    }
  }

  /** A list that enumerates `m` never names a key twice, as a LinkedHashMap
      cannot. */
  lemma EnumeratesDistinctKeys(order: seq<Entry>, m: CountMap)
    requires Enumerates(order, m)
    ensures forall i, j :: 0 <= i < j < |order| ==> order[i].key != order[j].key
  {
    EnumeratesEntries(order, m);
    forall i, j | 0 <= i < j < |order| ensures order[i].key != order[j].key {
      if order[i].key == order[j].key {
        assert order[i] == order[j];
        TwoCopies(order, i, j);
        assert false;
      }
    }
  }

  /** The loop of `cleanup`: it stops when the counter, compared before being
      incremented, reaches ten, so it writes the first ten entries or all of them. */
  method Cleanup(sorted: seq<Entry>) returns (emitted: seq<Entry>)
    ensures |emitted| == if |sorted| < TopCount then |sorted| else TopCount
    ensures emitted == sorted[..|emitted|]
  {
    emitted := [];
    var counter := 0;
    var i := 0;
    while i < |sorted|
      invariant i <= |sorted| && i <= TopCount
      invariant counter == i
      invariant emitted == sorted[..i]
    {
      var tested := counter;
      counter := counter + 1;
      if tested == TopCount {
        break;
      }
      emitted := emitted + [sorted[i]];
      i := i + 1;
    }
  }

  /** A prefix of a descending enumeration of `m` is descending, holds pairs of
      `m`, no key twice, all of `m` when it is the whole list, and beats every
      pair of `m` it leaves out. */
  lemma PrefixDominates(m: CountMap, sorted: seq<Entry>, emitted: seq<Entry>)
    requires Enumerates(sorted, m) && Descending(sorted)
    requires |emitted| <= |sorted| && emitted == sorted[..|emitted|]
    ensures Descending(emitted)
    ensures forall i :: 0 <= i < |emitted| ==> emitted[i].key in m && m[emitted[i].key] == emitted[i].average
    ensures forall i, j :: 0 <= i < j < |emitted| ==> emitted[i].key != emitted[j].key
    ensures |emitted| == |sorted| ==> forall k :: k in m ==> Entry(k, m[k]) in emitted
    ensures forall k, i :: k in m && Entry(k, m[k]) !in emitted && 0 <= i < |emitted| ==> m[k] <= emitted[i].average
  {
    EnumeratesEntries(sorted, m);
    EnumeratesDistinctKeys(sorted, m);
    assert forall i :: 0 <= i < |emitted| ==> emitted[i] == sorted[i];
    assert sorted[..|sorted|] == sorted;
    forall k, i | k in m && Entry(k, m[k]) !in emitted && 0 <= i < |emitted|
      ensures m[k] <= emitted[i].average
    {
      var p :| 0 <= p < |sorted| && sorted[p] == Entry(k, m[k]);
    }
  }

  /** What a reduce task writes: its ten best articles. They are pairs of
      `countMap`, no key twice, in non-increasing order; fewer than ten only
      when the map has no more; and no article left out has a higher average
      than one written. `CleanupTask` shows the `cleanup` loop writes exactly
      this list. */
  function TopTen(m: CountMap, order: seq<Entry>): (emitted: seq<Entry>)
    requires Enumerates(order, m)
    ensures |emitted| <= TopCount
    ensures Descending(emitted)
    ensures forall i :: 0 <= i < |emitted| ==> emitted[i].key in m && m[emitted[i].key] == emitted[i].average
    ensures forall i, j :: 0 <= i < j < |emitted| ==> emitted[i].key != emitted[j].key
    ensures |emitted| < TopCount ==> forall k :: k in m ==> Entry(k, m[k]) in emitted
    ensures forall k, i :: k in m && Entry(k, m[k]) !in emitted && 0 <= i < |emitted| ==> m[k] <= emitted[i].average
  {
    var sorted := SortByValues(m, order);
    var n := if |sorted| < TopCount then |sorted| else TopCount;
    var emitted := sorted[..n];
    PrefixDominates(m, sorted, emitted);
    emitted
  }

  /** `cleanup` as a whole: the loop run over the `sortByValues` order writes
      exactly the entries `TopTen` describes. */
  method CleanupTask(m: CountMap, order: seq<Entry>) returns (emitted: seq<Entry>)
    requires Enumerates(order, m)
    ensures emitted == TopTen(m, order)
  {
    emitted := Cleanup(SortByValues(m, order));
  }

  /** The averages of a list of entries, in list order. */
  function Averages(es: seq<Entry>): seq<real> {
    seq(|es|, i requires 0 <= i < |es| => es[i].average)
  }

  /** Two lists that enumerate the same map are rearrangements of each other. */
  lemma EnumerationsPermute(o1: seq<Entry>, o2: seq<Entry>, m: CountMap)
    requires Enumerates(o1, m) && Enumerates(o2, m)
    ensures multiset(o1) == multiset(o2)
  {
    assert forall e :: multiset(o1)[e] == multiset(o2)[e];
  }

  /** The head of a descending list is at least as large as any of its entries. */
  lemma HeadIsTop(s: seq<Entry>, x: Entry)
    requires Descending(s) && x in multiset(s)
    ensures |s| > 0 && s[0].average >= x.average
  {
    var j :| 0 <= j < |s| && s[j] == x;
  }

  /** Leaving one entry out of a descending list keeps it descending. */
  lemma DescendingRemoveAt(s: seq<Entry>, j: nat)
    requires Descending(s) && j < |s|
    ensures Descending(s[..j] + s[j + 1..])
  {
    var r := s[..j] + s[j + 1..];
    forall a, b | 0 <= a < b < |r| ensures r[a].average >= r[b].average {
      var a', b' := if a < j then a else a + 1, if b < j then b else b + 1;
      assert r[a] == s[a'] && r[b] == s[b'];
    }
  }

  /** Leaving out of a descending list an entry tied with its head gives the
      averages of its tail. */
  lemma TiedRemoveAt(s: seq<Entry>, j: nat)
    requires Descending(s) && j < |s| && s[j].average == s[0].average
    ensures Averages(s[..j] + s[j + 1..]) == Averages(s[1..])
  {
    var r := s[..j] + s[j + 1..];
    forall i | 0 <= i < |r| ensures r[i].average == s[1..][i].average {
      if i < j {
        assert s[0].average >= s[i].average >= s[i + 1].average >= s[j].average;
      }
    }
  }

  lemma AveragesTail(s: seq<Entry>)
    requires |s| > 0
    ensures Averages(s)[0] == s[0].average && Averages(s)[1..] == Averages(s[1..])
  {
  }

  /** Two descending rearrangements of the same entries agree on their averages:
      only the order of tied entries can differ. */
  lemma {:induction false} DescendingPermutationsAgree(s: seq<Entry>, t: seq<Entry>)
    requires Descending(s) && Descending(t) && multiset(s) == multiset(t)
    ensures Averages(s) == Averages(t)
    decreases |s|
  {
    assert |s| == |t| by {
      assert |s| == |multiset(s)| == |multiset(t)| == |t|;
    }
    if |s| > 0 {
      var x := s[0];
      assert x in multiset(t);
      var j :| 0 <= j < |t| && t[j] == x;
      HeadIsTop(t, x);
      HeadIsTop(s, t[0]);
      var rest := t[..j] + t[j + 1..];
      RemoveAt(t, j);
      TailMultiset(s);
      DescendingRemoveAt(t, j);
      assert Descending(s[1..]);
      DescendingPermutationsAgree(s[1..], rest);
      TiedRemoveAt(t, j);
      AveragesTail(s);
      AveragesTail(t);
      SameHeadSameTail(Averages(s), Averages(t));
    }
  }

  /** Any two descending enumerations of `m` agree on their averages. */
  lemma SortedAveragesAgree(m: CountMap, s1: seq<Entry>, s2: seq<Entry>)
    requires Enumerates(s1, m) && Enumerates(s2, m) && Descending(s1) && Descending(s2)
    ensures Averages(s1) == Averages(s2)
  {
    EnumerationsPermute(s1, s2, m);
    DescendingPermutationsAgree(s1, s2);
  }

  lemma AveragesPrefix(s: seq<Entry>, n: nat)
    requires n <= |s|
    ensures Averages(s[..n]) == Averages(s)[..n]
  {
  }

  /** The averages a reduce task writes do not depend on the HashMap's iteration
      order: only which of several equally averaged articles appear, and in what
      order, can. */
  lemma TopAveragesDeterministic(m: CountMap, o1: seq<Entry>, o2: seq<Entry>)
    requires Enumerates(o1, m) && Enumerates(o2, m)
    ensures Averages(TopTen(m, o1)) == Averages(TopTen(m, o2))
  {
    var s1 := SortByValues(m, o1);
    var s2 := SortByValues(m, o2);
    SortedAveragesAgree(m, s1, s2);
    assert |s1| == |s2| by {
      assert |s1| == |Averages(s1)| == |Averages(s2)| == |s2|;
    }
    var n := if |s1| < TopCount then |s1| else TopCount;
    assert TopTen(m, o1) == s1[..n];
    assert TopTen(m, o2) == s2[..n];
    AveragesPrefix(s1, n);
    AveragesPrefix(s2, n);
  }

  /** When no two articles share an average, what a reduce task writes is fully
      determined. */
  lemma TopTenDeterministicWithoutTies(m: CountMap, o1: seq<Entry>, o2: seq<Entry>)
    requires Enumerates(o1, m) && Enumerates(o2, m)
    requires forall k1, k2 :: k1 in m && k2 in m && k1 != k2 ==> m[k1] != m[k2]
    ensures TopTen(m, o1) == TopTen(m, o2)
  {
    var t1 := TopTen(m, o1);
    var t2 := TopTen(m, o2);
    TopAveragesDeterministic(m, o1, o2);
    assert |t1| == |Averages(t1)| == |Averages(t2)| == |t2|;
    forall i | 0 <= i < |t1| ensures t1[i] == t2[i] {
      assert Averages(t1)[i] == Averages(t2)[i];
    }
  }
}
