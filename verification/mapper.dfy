/**
 The map stage: each input line `article,date,views` becomes one record holding
 the article (field 0, verbatim) and its view count (field 2). A line that cannot
 be read raises an exception, which ends the map task: no line is skipped.
 */
module Mapper {
  import opened Results
  import opened Fields
  import opened Longs

  const ArticleField: nat := 0
  const ViewsField: nat := 2

  /** What the mapper writes for one line. */
  datatype Record = Record(article: string, views: int)

  /** The exceptions a line can raise: indexing past the tokens the line has
      (ArrayIndexOutOfBoundsException at the index tried) or an unreadable count. */
  datatype MapError = MissingField(index: nat) | BadNumber(cause: NumberFormatError)

  /** `map` for one line. The article of a record is always a whole token and
      its count is a 64-bit value. */
  function ParseLine(line: string): (r: Result<Record, MapError>)
    ensures r.Success? ==> IsToken(r.value.article) && LongMin <= r.value.views <= LongMax
    ensures r.Success? ==> r.value.article in Split(line)
  {
    var fields := Split(line);
    if |fields| <= ArticleField then Failure(MissingField(ArticleField))
    else if |fields| <= ViewsField then Failure(MissingField(ViewsField))
    else
      match ParseLong(fields[ViewsField])
      case Success(views) => Success(Record(fields[ArticleField], views))
      case Failure(e) => Failure(BadNumber(e))
  }

  /** A line of three or more fields whose third parses as a count yields the
      first field and that count. */
  lemma ParseLineOfFields(ts: seq<string>)
    requires AllTokens(ts) && |ts| >= 3 && ParseLong(ts[ViewsField]).Success?
    ensures ParseLine(Join(ts)) == Success(Record(ts[ArticleField], ParseLong(ts[ViewsField]).value))
  {
    SplitJoin(ts);
  }

  /** A line of fewer than three fields fails, at the first index it lacks. */
  lemma ParseLineTooFewFields(ts: seq<string>)
    requires AllTokens(ts) && |ts| < 3
    ensures ParseLine(Join(ts)) == Failure(MissingField(if |ts| == 0 then ArticleField else ViewsField))
  {
    SplitJoin(ts);
  }

  /** A third field that is not a number fails the line with that field's error. */
  lemma ParseLineBadNumber(ts: seq<string>)
    requires AllTokens(ts) && |ts| >= 3 && ParseLong(ts[ViewsField]).Failure?
    ensures ParseLine(Join(ts)) == Failure(BadNumber(ParseLong(ts[ViewsField]).error))
  {
    SplitJoin(ts);
  }

  /** Because adjacent delimiters collapse, an empty date field shifts the count
      out of place and the line fails. */
  lemma EmptyFieldCollapses(article: string, views: string)
    requires IsToken(article) && IsToken(views)
    ensures ParseLine(article + [Delimiter, Delimiter] + views) == Failure(MissingField(ViewsField))
  {
    calc {
      Split(article + [Delimiter, Delimiter] + views);
      == { assert article + [Delimiter, Delimiter] + views == article + ([Delimiter] + ([Delimiter] + views)); }
      SplitFrom(article + ([Delimiter] + ([Delimiter] + views)), []);
      == { SplitFromWithin(article, [Delimiter] + ([Delimiter] + views), []); assert [] + article == article; }
      SplitFrom([Delimiter] + ([Delimiter] + views), article);
      == { SplitFromDelimiter([Delimiter] + views, article); }
      [article] + SplitFrom([Delimiter] + views, []);
      == { SplitFromDelimiter(views, []); }
      [article] + Split(views);
      == { SplitJoin([views]); }
      [article, views];
    }
  }

  /** A map task over its lines: all records in line order, or the error of
      the first line that fails, after which nothing further is read. */
  function MapLines(lines: seq<string>): (r: Result<seq<Record>, MapError>)
    ensures r.Success? <==> forall i :: 0 <= i < |lines| ==> ParseLine(lines[i]).Success?
    ensures r.Success? ==> |r.value| == |lines|
    ensures r.Success? ==> forall i :: 0 <= i < |lines| ==> ParseLine(lines[i]) == Success(r.value[i])
    ensures r.Failure? ==> exists i :: 0 <= i < |lines| && ParseLine(lines[i]) == Failure(r.error)
                                    && forall j :: 0 <= j < i ==> ParseLine(lines[j]).Success?
    decreases |lines|
  {
    if |lines| == 0 then Success([])
    else
      match ParseLine(lines[0])
      case Failure(e) => Failure(e)
      case Success(record) =>
        match MapLines(lines[1..])
        case Failure(e) =>
          ghost var i :| 0 <= i < |lines[1..]| && ParseLine(lines[1..][i]) == Failure(e)
                         && forall j :: 0 <= j < i ==> ParseLine(lines[1..][j]).Success?;
          FailureAfterSuccess(lines, i, e);
          Failure(e)
        case Success(rest) =>
          SuccessAfterSuccess(lines, record, rest);
          Success([record] + rest)
  }

  /** A line that fails after the first, with only successes before it. */
  lemma FailureAfterSuccess(lines: seq<string>, i: nat, e: MapError)
    requires 0 < |lines| && ParseLine(lines[0]).Success? && i < |lines| - 1
    requires ParseLine(lines[1..][i]) == Failure(e)
    requires forall j :: 0 <= j < i ==> ParseLine(lines[1..][j]).Success?
    ensures ParseLine(lines[i + 1]) == Failure(e)
    ensures forall j :: 0 <= j < i + 1 ==> ParseLine(lines[j]).Success?
  {
    forall j | 0 <= j < i + 1 ensures ParseLine(lines[j]).Success? {
      if j > 0 { assert lines[j] == lines[1..][j - 1]; }
    }
  }

  /** Records of the later lines, behind the record of the first. */
  lemma SuccessAfterSuccess(lines: seq<string>, record: Record, rest: seq<Record>)
    requires 0 < |lines| && ParseLine(lines[0]) == Success(record) && |rest| == |lines| - 1
    requires forall i :: 0 <= i < |lines[1..]| ==> ParseLine(lines[1..][i]) == Success(rest[i])
    ensures forall i :: 0 <= i < |lines| ==> ParseLine(lines[i]) == Success(([record] + rest)[i])
  {
    forall i | 0 <= i < |lines| ensures ParseLine(lines[i]) == Success(([record] + rest)[i]) {
      if i > 0 { assert lines[i] == lines[1..][i - 1]; }
    }
  }
}
