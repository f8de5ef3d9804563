/**
 Worked cases for the job: lines that parse and lines that fail, and one reduce
 task over the records A: 10, 20; B: 5, 15, 25; C: 100, whose averages are
 A = 15, B = 15 and C = 100.
 */
module Scenarios {
  import opened Results
  import opened Fields
  import opened Longs
  import opened Sums
  import opened Mapper
  import opened Reducer
  import opened Ranking

  /** Three fields joined by single delimiters. */
  lemma JoinThree(a: string, b: string, c: string)
    ensures Join([a, b, c]) == a + [Delimiter] + b + [Delimiter] + c
  {
    var ts := [a, b, c];
    assert ts[1..] == [b, c] && ts[1..][1..] == [c];
    assert Join([b, c]) == b + [Delimiter] + c;
  }

  /** A line `article,_,count` whose count parses. */
  lemma CountedLine(line: string, article: string, count: string)
    requires IsToken(article) && IsToken(count) && ParseLong(count).Success?
    requires line == article + ",_," + count
    ensures ParseLine(line) == Success(Record(article, ParseLong(count).value))
  {
    JoinThree(article, "_", count);
    assert article + ",_," + count == article + [Delimiter] + "_" + [Delimiter] + count;
    ParseLineOfFields([article, "_", count]);
  }

  /** A line `article,_,views` with the count in its shortest spelling. */
  lemma DatedLine(line: string, article: string, views: int)
    requires IsToken(article) && LongMin <= views <= LongMax
    requires line == article + ",_," + Decimal(views)
    ensures ParseLine(line) == Success(Record(article, views))
  {
    ParseDecimal(views);
    CountedLine(line, article, Decimal(views));
  }

  /** `Long.parseLong` takes a `+` and leading zeros, so `A,_,+010` counts 10. */
  lemma ExampleSignedCountParses()
    ensures ParseLine("A,_,+010") == Success(Record("A", 10))
  {
    PlusTen();
    CountedLine("A,_,+010", "A", "+010");
  }

  lemma PlusTen()
    ensures ParseLong("+010") == Success(10)
  {
    assert DigitsValue("10") == 10 by {
      assert "10"[..1] == "1" && "1"[..0] == [];
    }
    assert "0" + "10" == "010";
    LeadingZero("10");
    ParseLongAccepts("+", "010");
    assert "+" + "010" == "+010";
  }

  /** `-0` is a well-formed count: zero. */
  lemma ExampleNegativeZero()
    ensures ParseLong("-0") == Success(0)
  {
    assert DigitsValue("0") == 0 by {
      assert "0"[..0] == [];
    }
    ParseLongAccepts("-", "0");
    assert "-" + "0" == "-0";
  }

  /** A line missing its count field fails at index 2. */
  lemma ExampleLineFails()
    ensures ParseLine("A,_") == Failure(MissingField(2))
  {
    assert Join(["A", "_"]) == "A,_";
    ParseLineTooFewFields(["A", "_"]);
  }

  /** A line whose count is not a number fails with the field's text. */
  lemma ExampleCountFails()
    ensures ParseLine("A,_,abc") == Failure(BadNumber(NumberFormatError("abc")))
  {
    assert Join(["A", "_", "abc"]) == "A,_,abc";
    ParseLineBadNumber(["A", "_", "abc"]);
  }

  lemma ExampleLineParses()
    ensures ParseLine("A,_,10") == Success(Record("A", 10))
  {
    assert Decimal(10) == "10";
    DatedLine("A,_,10", "A", 10);
  }

  function ExampleRecords(): seq<Record> {
    [Record("A", 10), Record("A", 20), Record("B", 5), Record("B", 15), Record("B", 25), Record("C", 100)]
  }

  function ExampleGroups(): seq<Group> {
    [Group("A", [10, 20]), Group("B", [5, 15, 25]), Group("C", [100])]
  }

  function ExampleAverages(): CountMap {
    map["A" := 15.0, "B" := 15.0, "C" := 100.0]
  }

  lemma ExampleKeys()
    ensures Articles(ExampleRecords()) == {"A", "B", "C"}
    ensures GroupKeys(ExampleGroups()) == {"A", "B", "C"}
  {
    var records := ExampleRecords();
    var groups := ExampleGroups();
    assert records[0].article == "A" && records[2].article == "B" && records[5].article == "C";
    assert groups[0].key == "A" && groups[1].key == "B" && groups[2].key == "C";
  }

  lemma ExampleValues()
    ensures ValuesFor(ExampleRecords(), "A") == [10, 20]
    ensures ValuesFor(ExampleRecords(), "B") == [5, 15, 25]
    ensures ValuesFor(ExampleRecords(), "C") == [100]
  {
  }

  lemma ExampleDistinctKeys()
    ensures forall i, j :: 0 <= i < j < |ExampleGroups()| ==> ExampleGroups()[i].key != ExampleGroups()[j].key
  {
    var groups := ExampleGroups();
    forall i, j | 0 <= i < j < |groups| ensures groups[i].key != groups[j].key {
      assert groups[i].key[0] != groups[j].key[0];
    }
  }

  lemma ExampleGroupValues()
    ensures forall i :: 0 <= i < |ExampleGroups()| ==>
      multiset(ExampleGroups()[i].values) == multiset(ValuesFor(ExampleRecords(), ExampleGroups()[i].key))
  {
    var groups := ExampleGroups();
    ExampleValues();
    forall i | 0 <= i < |groups|
      ensures multiset(groups[i].values) == multiset(ValuesFor(ExampleRecords(), groups[i].key))
    {
      assert i == 0 || i == 1 || i == 2;
    }
  }

  /** The groups are a valid delivery of the records to one reducer. */
  lemma ExampleShuffle()
    ensures Shuffled(ExampleRecords(), ExampleGroups())
  {
    ExampleKeys();
    ExampleGroupValues();
    ExampleDistinctKeys();
  }

  /** The reduce task's `countMap` holds A = 15, B = 15 and C = 100. */
  lemma ExampleReduce()
    ensures ReduceTask(ExampleGroups()) == ExampleAverages()
  {
    assert Mean([10, 20]) == 15.0;
    assert Mean([5, 15, 25]) == 15.0;
    assert Mean([100]) == 100.0;
  }

  function ExampleOrder(): seq<Entry> {
    [Entry("A", 15.0), Entry("B", 15.0), Entry("C", 100.0)]
  }

  lemma ExampleOrderEnumerates()
    ensures Enumerates(ExampleOrder(), ExampleAverages())
  {
  }

  /** Listed as A, B, C, the entries are written as C, A, B. */
  lemma ExampleCleanup()
    ensures Enumerates(ExampleOrder(), ExampleAverages())
    ensures TopTen(ExampleAverages(), ExampleOrder()) == [Entry("C", 100.0), Entry("A", 15.0), Entry("B", 15.0)]
  {
    ExampleOrderEnumerates();
    SortThree(Entry("A", 15.0), Entry("B", 15.0), Entry("C", 100.0));
    TopTenShort(ExampleAverages(), ExampleOrder(), [Entry("C", 100.0), Entry("A", 15.0), Entry("B", 15.0)]);
  }

  /** Two tied entries ahead of a larger one: the larger moves to the front and
      the tied pair keeps its order. */
  lemma SortThree(a: Entry, b: Entry, c: Entry)
    requires a.average == b.average < c.average
    ensures InsertionSort([a, b, c]) == [c, a, b]
  {
    assert [a] + [b, c] == [a, b, c];
    SortCons(a, [b, c]);
    SortTwo(b, c);
    InsertSecond(a, c, b);
  }

  /** A smaller entry ahead of a larger one: the two swap. */
  lemma SortTwo(b: Entry, c: Entry)
    requires b.average < c.average
    ensures InsertionSort([b, c]) == [c, b]
  {
    assert [b] + [c] == [b, c];
    SortCons(b, [c]);
    SortOne(c);
    InsertLast(b, c);
  }

  /** A single entry is already sorted. */
  lemma SortOne(c: Entry)
    ensures InsertionSort([c]) == [c]
  {
    SortCons(c, []);
    InsertFront(c, []);
    assert [c] + [] == [c];
  }

  /** An entry smaller than the one entry of a list goes behind it. */
  lemma InsertLast(b: Entry, c: Entry)
    requires b.average < c.average
    ensures Insert(b, [c]) == [c, b]
  {
    InsertBehind(b, [c]);
    assert [c][1..] == [];
    InsertFront(b, []);
  }

  /** An entry between the two of a descending pair, tied with the second, goes
      between them. */
  lemma InsertSecond(a: Entry, c: Entry, b: Entry)
    requires b.average <= a.average < c.average
    ensures Insert(a, [c, b]) == [c, a, b]
  {
    InsertBehind(a, [c, b]);
    assert [c, b][1..] == [b];
    InsertFront(a, [b]);
  }

  /** The sort of a list takes its tail's sort and inserts the head. */
  lemma SortCons(e: Entry, s: seq<Entry>)
    ensures InsertionSort([e] + s) == Insert(e, InsertionSort(s))
  {
    assert ([e] + s)[1..] == s;
  }

  /** An entry no smaller than a list's head goes in front. */
  lemma InsertFront(e: Entry, s: seq<Entry>)
    requires Descending(s) && (|s| > 0 ==> s[0].average <= e.average)
    ensures Insert(e, s) == [e] + s
  {
  }

  /** An entry smaller than a list's head goes into its tail. */
  lemma InsertBehind(e: Entry, s: seq<Entry>)
    requires Descending(s) && |s| > 0 && s[0].average > e.average
    ensures Descending(s[1..]) && Insert(e, s) == [s[0]] + Insert(e, s[1..])
  {
  }

  /** Fewer entries than the cap are all written, in sorted order. */
  lemma TopTenShort(m: CountMap, order: seq<Entry>, sorted: seq<Entry>)
    requires Enumerates(order, m) && InsertionSort(order) == sorted && |sorted| < TopCount
    ensures TopTen(m, order) == sorted
  {
    assert sorted[..|sorted|] == sorted;
  }

  function SwappedOrder(): seq<Entry> {
    [Entry("B", 15.0), Entry("A", 15.0), Entry("C", 100.0)]
  }

  lemma SwappedOrderEnumerates()
    ensures Enumerates(SwappedOrder(), ExampleAverages())
  {
  }

  /** With no tie-break on keys, the tied articles come out in the order the
      HashMap happened to list them. */
  lemma SwappedCleanup()
    ensures Enumerates(SwappedOrder(), ExampleAverages())
    ensures TopTen(ExampleAverages(), SwappedOrder()) == [Entry("C", 100.0), Entry("B", 15.0), Entry("A", 15.0)]
  {
    SwappedOrderEnumerates();
    SortThree(Entry("B", 15.0), Entry("A", 15.0), Entry("C", 100.0));
    TopTenShort(ExampleAverages(), SwappedOrder(), [Entry("C", 100.0), Entry("B", 15.0), Entry("A", 15.0)]);
  }

  lemma ExampleCleanupAverages()
    ensures Enumerates(ExampleOrder(), ExampleAverages())
    ensures Averages(TopTen(ExampleAverages(), ExampleOrder())) == [100.0, 15.0, 15.0]
  {
    ExampleCleanup();
    AveragesOfThree(Entry("C", 100.0), Entry("A", 15.0), Entry("B", 15.0));
  }

  lemma AveragesOfThree(a: Entry, b: Entry, c: Entry)
    ensures Averages([a, b, c]) == [a.average, b.average, c.average]
  {
  }

  /** Whatever the HashMap's order, the averages written are 100, 15 and 15. */
  lemma ExampleAnyOrder(order: seq<Entry>)
    requires Enumerates(order, ExampleAverages())
    ensures Averages(TopTen(ExampleAverages(), order)) == [100.0, 15.0, 15.0]
  {
    ExampleCleanupAverages();
    TopAveragesDeterministic(ExampleAverages(), ExampleOrder(), order);
  }
}
