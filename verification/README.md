# Top-N average page views, modelled in Dafny

This project models the "top 10 articles by average daily page views" job of
`TopNAveragePageViews.java`, a Hadoop MapReduce program, and proves properties of the model.
Each input line is `article,date,views`. The job has these stages:

- **Map** (`TopNAveragePageViewsMap.map`): the line is split on `,` with Commons Lang's
  `StringUtils.split`, which treats adjacent delimiters as one and yields no empty tokens.
  Field 0 is the article and field 2 goes through `Long.parseLong`. A line with too few
  fields or a bad count throws, which ends the map task. No line is skipped.
- **Reduce** (`TopNAveragePageViewsReduce.reduce`): for each article, the view counts are
  totalled and counted, the total is divided by the count, and the average goes into the
  task's `countMap`.
- **Cleanup** (`TopNAveragePageViewsReduce.cleanup`): `sortByValues` orders the map's
  entries by average, descending, using a stable sort on a list taken in HashMap iteration
  order. The result goes into a LinkedHashMap, and the first ten entries are written.
- **Combiner** (`TopNAveragePageViewsCombiner`): switched off in the source, with a comment
  saying why. It would send only a sum per batch of values and drop the count.

Modules, one per stage: `Results` (success or exception), `Fields` (the tokenizer),
`Longs` (`Long.parseLong`), `Mapper`, `Sums` (totals and exact averages), `Reducer`,
`Ranking` (`sortByValues` and `cleanup`), `Combiner`, and `Scenarios` (worked cases).

How the model represents the program:

- Averages are exact `real` quotients, not doubles.
- The HashMap's iteration order is unspecified, so it is a parameter: a list
  `order` that lists every entry of `countMap` exactly once (`Ranking.Enumerates`).
- The framework's grouping of values by key is the relation `Reducer.Shuffled`, which
  the framework guarantees.

Two things the code does not do:

- **Ties.** The code has no tie-break. Equal averages keep their HashMap order, because
  `Collections.sort` is stable and the comparator looks only at the values.
  `Scenarios.SwappedCleanup` shows two tied articles coming out in either order.
  `Ranking.TopAveragesDeterministic` proves that only which of several tied keys appear,
  and in what order, can vary. The averages written do not.
- **Merging.** Each reduce task sorts its own whole `countMap` and writes a prefix. The
  code never merges the tasks' lists, so with several reduce tasks each writes its own ten.

## Model

| member | source | states |
|---|---|---|
| Fields.Split | TopNAveragePageViews.java:33-34 | every token is non-empty and has no `,`; laid end to end, the tokens are exactly the line's characters without its delimiters |
| Fields.SplitJoin | TopNAveragePageViews.java:33-34 | splitting non-empty, comma-free fields joined by single commas gives back exactly those fields |
| Fields.SplitCollapses | TopNAveragePageViews.java:33-34 | for every line, two adjacent commas anywhere split exactly like one comma, so an empty field yields no token |
| Fields.SplitRunCollapses | TopNAveragePageViews.java:33-34 | for every line, a run of one or more commas anywhere splits exactly like a single comma |
| Fields.SplitLeading | TopNAveragePageViews.java:33-34 | a comma at the start of a line yields no token: the line splits as it would without it |
| Fields.SplitTrailing | TopNAveragePageViews.java:33-34 | a comma at the end of a line yields no token: the line splits as it would without it |
| Fields.SplitNormalises | TopNAveragePageViews.java:34 | splitting is idempotent on its own output: re-joining a line's tokens with single commas and splitting again gives the same tokens |
| Longs.ParseLong | TopNAveragePageViews.java:36 | a successful parse gives a value in the 64-bit signed range. It only accepts non-empty text made of decimal digits, with an optional leading sign and at least one digit. A leading `-` gives a value ≤ 0 and no `-` gives a value ≥ 0 |
| Longs.ParseDecimal | TopNAveragePageViews.java:36 | every 64-bit value parses back from its decimal spelling |
| Longs.ParseLongAccepts | TopNAveragePageViews.java:36 | conversely, an optional `-` or `+` followed by one or more digits parses to the signed number the digits spell when that is a 64-bit value, and fails with a number-format error when it is not |
| Longs.LeadingZero | TopNAveragePageViews.java:36 | a leading zero does not change the number a run of digits spells, so zero-padded counts parse to the same value |
| Mapper.ParseLine | TopNAveragePageViews.java:32-37 | a record's article is a whole token of the line, and its view count is a 64-bit value |
| Mapper.ParseLineOfFields | TopNAveragePageViews.java:33-36 | a line of three or more fields whose third field parses as a count yields the record (field 0, that count), whatever the count's spelling |
| Mapper.ParseLineTooFewFields | TopNAveragePageViews.java:34-36 | a line of fewer than three fields fails with an index-out-of-bounds error at index 0 (no fields) or 2 (one or two fields) |
| Mapper.ParseLineBadNumber | TopNAveragePageViews.java:36 | a line whose third field is not a number fails with that field's number-format error |
| Mapper.EmptyFieldCollapses | TopNAveragePageViews.java:33-36 | `article,,views` with an empty middle field has only two tokens, so it fails at index 2 |
| Mapper.MapLines | TopNAveragePageViews.java:32-37 | a map task succeeds exactly when every line parses, and then yields one record per line in order. Otherwise it fails with the error of the first failing line |
| Sums.SumPermutation | TopNAveragePageViews.java:59-61 | the total is the same whatever order the values arrive in |
| Sums.MeanPermutation | TopNAveragePageViews.java:59-63 | the average is the same whatever order the values arrive in |
| Sums.MeanBounds | TopNAveragePageViews.java:63 | the average lies between the smallest and the largest of its values |
| Reducer.SumAndCount | TopNAveragePageViews.java:57-62 | the loop leaves `views` equal to the total of the values and `count` equal to how many values there are |
| Reducer.Reduce | TopNAveragePageViews.java:63-68 | the key's entry is the average (multiplied by the count it gives the total); the key is added if missing; every other entry is unchanged |
| Reducer.ReduceTask | TopNAveragePageViews.java:52-70 | after a run of `reduce` calls, `countMap` holds exactly the keys seen; each holds the average of the values of the last call for that key |
| Reducer.ShuffledAverages | TopNAveragePageViews.java:55-68 | after a reduce task over the grouped records, each article's entry equals the total of all its view counts divided by how many there are |
| Ranking.Insert | TopNAveragePageViews.java:108-114 | inserting into a descending list keeps it descending and adds exactly that entry |
| Ranking.InsertionSort | TopNAveragePageViews.java:106-114 | the sort result is a permutation of its input, non-increasing by average |
| Ranking.DescendingPermutationsAgree | TopNAveragePageViews.java:108-114 | two arrangements of the same entries that are both non-increasing by average have the same averages position by position: they can differ only in the order of tied entries |
| Ranking.SortByValues | TopNAveragePageViews.java:105-124 | the LinkedHashMap's order lists exactly the pairs of `countMap`, each once, non-increasing by average |
| Ranking.EnumeratesDistinctKeys | TopNAveragePageViews.java:118-122 | an order that lists the map's entries never names a key twice, so the LinkedHashMap loses nothing |
| Ranking.Cleanup | TopNAveragePageViews.java:76-83 | the loop, with its counter compared before the increment, writes the first min(10, n) entries of the sorted order, in order |
| Ranking.CleanupTask | TopNAveragePageViews.java:75-83 | running the `cleanup` loop over the `sortByValues` order writes exactly the entries `Ranking.TopTen` describes |
| Ranking.TopTen | TopNAveragePageViews.java:75-83 | at most 10 entries, all pairs of `countMap`, no key twice, non-increasing. Fewer than 10 only when every entry is written. No entry left out has a higher average than one written |
| Ranking.TopAveragesDeterministic | TopNAveragePageViews.java:105-122 | the averages written, in order, do not depend on the HashMap's iteration order |
| Ranking.TopTenDeterministicWithoutTies | TopNAveragePageViews.java:75-83 | when no two articles share an average, the output does not depend on the HashMap's order |
| Combiner.CombinerOutputs | TopNAveragePageViews.java:93-97 | the combiner writes one value per batch, that batch's total, so its outputs keep the total of all the values but not their count |
| Combiner.CombinerChangesAverage | TopNAveragePageViews.java:87-97 | reducing the combiner's outputs gives the true average if and only if the values total zero or every batch held a single value |
| Combiner.CombinerExample | TopNAveragePageViews.java:93-97 | batches [10, 20] and [100] would reduce to 65 instead of the true 130/3 |
| Combiner.MergeAssociative | TopNAveragePageViews.java:87 | merging (sum, count) pairs is associative |
| Combiner.MergeCommutative | TopNAveragePageViews.java:87 | merging (sum, count) pairs is commutative |
| Combiner.MergeIdentity | TopNAveragePageViews.java:87 | the empty pair (0, 0) is the identity of merging |
| Combiner.SummarizeIsSumAndCount | TopNAveragePageViews.java:57-62 | folding values one at a time into a pair gives the reducer's (views, count) |
| Combiner.SummarizeConcat | TopNAveragePageViews.java:87 | summarizing two runs of values and merging the pairs is the same as summarizing them together |
| Combiner.MergeSummaries | TopNAveragePageViews.java:87 | merging the pairs of every batch gives the pair of all the values |
| Combiner.PairCombinerExact | TopNAveragePageViews.java:87-97 | shipping (sum, count) pairs is exact: however the values are batched and ordered, merging and dividing gives the average `reduce` computes |
| Scenarios.ExampleLineParses | TopNAveragePageViews.java:33-37 | `A,_,10` yields the record (A, 10) |
| Scenarios.ExampleSignedCountParses | TopNAveragePageViews.java:33-37 | `A,_,+010` yields the record (A, 10): a `+` and leading zeros are accepted |
| Scenarios.ExampleNegativeZero | TopNAveragePageViews.java:36 | `-0` parses to 0 |
| Scenarios.ExampleLineFails | TopNAveragePageViews.java:34-36 | `A,_` fails at index 2 |
| Scenarios.ExampleCountFails | TopNAveragePageViews.java:36 | `A,_,abc` fails with a number-format error on `abc` |
| Scenarios.ExampleShuffle | TopNAveragePageViews.java:55 | the three groups A: [10, 20], B: [5, 15, 25] and C: [100] are a valid delivery of the six records |
| Scenarios.ExampleReduce | TopNAveragePageViews.java:55-68 | those groups give `countMap` = {A: 15, B: 15, C: 100} |
| Scenarios.ExampleCleanup | TopNAveragePageViews.java:75-83 | listed as A, B, C, the entries are written as C, A, B |
| Scenarios.SortThree | TopNAveragePageViews.java:108-114 | sorting two tied entries followed by a larger one moves the larger to the front and keeps the tied pair in its input order, as a stable sort does |
| Scenarios.SwappedCleanup | TopNAveragePageViews.java:108-122 | listed as B, A, C, the entries are written as C, B, A: ties follow iteration order, with no key tie-break |
| Scenarios.ExampleAnyOrder | TopNAveragePageViews.java:75-83 | in any iteration order, the averages written are 100, 15, 15 |

## Left out

- Job wiring and I/O: `main`, `Job` and `Configuration`, the hard-coded paths, `System.exit`,
  the empty `setup`, and `Context.write`. The Writable wrappers (`Text`, `LongWritable`,
  `DoubleWritable`) become plain strings, integers and reals. The output-class settings in
  `main` do not affect the logic.
- Averages are exact reals, not IEEE doubles. Rounding could make two doubles tie where the
  reals differ, or the other way round. The model does not cover this.
- Reducer.SumAndCount: `views` and `count` are unbounded integers. Java's `long`
  wrap-around on overflow is not modelled.
- Longs.ParseLong: accepts only the ASCII digits `0`-`9`. `Character.digit` also accepts
  other Unicode decimal digits. The 64-bit range check is modelled.
- Fields.Split: models `StringUtils.split` for the one delimiter `,`. A null input cannot
  occur here (`Text.toString` never returns null), so it is not modelled.
- Reducer.Reduce: requires at least one value. The framework never calls `reduce` with an
  empty value list, so the NaN from dividing 0 by 0 cannot arise.
- The HashMap's iteration order is a parameter (`order`), constrained only to list each entry
  once.
- Partitioning, the shuffle and parallel reduce tasks belong to the framework. The shuffle's
  guarantee is the precondition `Reducer.Shuffled`.
- A merge of several reduce tasks' top ten lists: the code has no such stage, so none is
  modelled.
- Combiner.CombinerChangesAverage: covers one combining pass over the batches of one key.
  The framework may run a combiner zero or more times, including on its own output. Repeated
  passes are not modelled.
- The mapper's key object reuse and the reducer's `new Text(key)` copy are aliasing details
  with no effect on values, so they are not modelled.
