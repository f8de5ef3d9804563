/**
 The reduce stage. The framework hands `reduce` one key together with every view
 count written for it; `reduce` totals and counts them, divides, and records the
 average in the reduce task's `countMap`, one entry per key.
 */
module Reducer {
  import opened Sums
  import opened Mapper

  /** One call of `reduce`: a key and the values grouped under it. */
  datatype Group = Group(key: string, values: seq<int>)

  /** The reducer's `countMap`: article to average views. */
  type CountMap = map<string, real>

  /** The loop of `reduce`: `views` totals the values, `count` counts them. */
  method SumAndCount(values: seq<int>) returns (views: int, count: nat)
    ensures views == Sum(values)
    ensures count == |values|
  {
    views := 0;
    count := 0;
    while count < |values|
      invariant count <= |values|
      invariant views == Sum(values[..count])
    {
      SumAppend(values[..count], [values[count]]);
      assert values[..count + 1] == values[..count] + [values[count]];
      views := views + values[count];
      count := count + 1;
    }
    assert values[..count] == values;
  }

  /** `reduce` for one key: the key's entry becomes the average of its values,
      i.e. the number that, taken once per value, gives the values' total; it
      lies within the values' range. Every other entry is left as it was. */
  function Reduce(countMap: CountMap, key: string, values: seq<int>): (r: CountMap)
    requires |values| > 0
    ensures r.Keys == countMap.Keys + {key}
    ensures r[key] == Mean(values)
    ensures r[key] * |values| as real == Sum(values) as real
    ensures forall k :: k in countMap && k != key ==> r[k] == countMap[k]
  {
    countMap[key := Mean(values)]
  }

  /** The keys of a run of groups. */
  function GroupKeys(groups: seq<Group>): set<string> {
    set i | 0 <= i < |groups| :: groups[i].key
  }

  /** No later group has the key of group `i`. */
  predicate LastFor(groups: seq<Group>, i: nat)
    requires i < |groups|
  {
    forall j :: i < j < |groups| ==> groups[j].key != groups[i].key
  }

  /** A reduce task: `reduce` called on each group in turn, starting from an empty
      `countMap`. The map holds exactly the keys seen, and each holds the average
      of the values of the last group with that key. */
  function ReduceTask(groups: seq<Group>): (r: CountMap)
    requires forall i :: 0 <= i < |groups| ==> |groups[i].values| > 0
    ensures r.Keys == GroupKeys(groups)
    ensures forall i :: 0 <= i < |groups| && LastFor(groups, i) ==> r[groups[i].key] == Mean(groups[i].values)
    decreases |groups|
  {
    if |groups| == 0 then map[]
    else
      var n := |groups| - 1;
      var prefix := groups[..n];
      var before := ReduceTask(prefix);
      var r := Reduce(before, groups[n].key, groups[n].values);
      GroupKeysLast(groups);
      ReduceLast(groups, before);
      r
  }

  /** The inductive step of `ReduceTask`: reducing the last group keeps the
      averages of the earlier keys it does not share. */
  lemma ReduceLast(groups: seq<Group>, before: CountMap)
    requires |groups| > 0 && forall i :: 0 <= i < |groups| ==> |groups[i].values| > 0
    requires forall i :: 0 <= i < |groups| - 1 && LastFor(groups[..|groups| - 1], i) ==>
      groups[i].key in before && before[groups[i].key] == Mean(groups[i].values)
    ensures var r := Reduce(before, groups[|groups| - 1].key, groups[|groups| - 1].values);
      forall i :: 0 <= i < |groups| && LastFor(groups, i) ==> groups[i].key in r && r[groups[i].key] == Mean(groups[i].values)
  {
    LastForPrefix(groups);
  }

  lemma GroupKeysLast(groups: seq<Group>)
    requires |groups| > 0
    ensures GroupKeys(groups) == GroupKeys(groups[..|groups| - 1]) + {groups[|groups| - 1].key}
  {
    var prefix := groups[..|groups| - 1];
    assert forall i :: 0 <= i < |prefix| ==> prefix[i] == groups[i];
  }

  lemma LastForPrefix(groups: seq<Group>)
    requires |groups| > 0
    ensures forall i :: 0 <= i < |groups| - 1 && LastFor(groups, i) ==> LastFor(groups[..|groups| - 1], i)
  {
  }

  /** The view counts written for `key`, in record order. */
  function ValuesFor(records: seq<Record>, key: string): (vs: seq<int>)
    ensures |vs| <= |records|
    decreases |records|
  {
    if |records| == 0 then []
    else (if records[0].article == key then [records[0].views] else []) + ValuesFor(records[1..], key)
  }

  function Articles(records: seq<Record>): set<string> {
    set i | 0 <= i < |records| :: records[i].article
  }

  lemma {:induction false} ValuesForPresent(records: seq<Record>, i: nat)
    requires i < |records|
    ensures |ValuesFor(records, records[i].article)| > 0
    decreases |records|
  {
    if i > 0 {
      assert records[1..][i - 1] == records[i];
      ValuesForPresent(records[1..], i - 1);
    }
  }

  /** What the shuffle guarantees the reducer: one group per article written by
      the mappers, and each group holds exactly that article's view counts, in
      some order. */
  predicate Shuffled(records: seq<Record>, groups: seq<Group>) {
    && GroupKeys(groups) == Articles(records)
    && (forall i, j :: 0 <= i < j < |groups| ==> groups[i].key != groups[j].key)
    && (forall i :: 0 <= i < |groups| ==> multiset(groups[i].values) == multiset(ValuesFor(records, groups[i].key)))
  }

  /** After a reduce task over the shuffled records, every article has one entry,
      and it is the total of that article's counts divided by how many there are,
      whatever order the values were delivered in. */
  lemma ShuffledAverages(records: seq<Record>, groups: seq<Group>)
    requires Shuffled(records, groups)
    ensures forall i :: 0 <= i < |groups| ==> |groups[i].values| > 0
    ensures ReduceTask(groups).Keys == Articles(records)
    ensures forall i :: 0 <= i < |records| ==>
      var vs := ValuesFor(records, records[i].article);
      |vs| > 0 && ReduceTask(groups)[records[i].article] == Sum(vs) as real / |vs| as real
  {
    forall i | 0 <= i < |groups| ensures |groups[i].values| > 0 {
      assert groups[i].key in Articles(records);
      var k :| 0 <= k < |records| && records[k].article == groups[i].key;
      ValuesForPresent(records, k);
      assert |groups[i].values| == |multiset(groups[i].values)| == |multiset(ValuesFor(records, groups[i].key))|;
    }
    var countMap := ReduceTask(groups);
    forall i | 0 <= i < |records|
      ensures var vs := ValuesFor(records, records[i].article);
              |vs| > 0 && countMap[records[i].article] == Sum(vs) as real / |vs| as real
    {
      var key := records[i].article;
      ValuesForPresent(records, i);
      assert key in GroupKeys(groups);
      var g :| 0 <= g < |groups| && groups[g].key == key;
      assert LastFor(groups, g);
      MeanPermutation(groups[g].values, ValuesFor(records, key));
    }
  }
}
