/**
 This module models the tokenizer the mapper calls, `StringUtils.split(line, ",")`
 from Commons Lang: the line is cut at every delimiter, adjacent delimiters count
 as one, and neither leading nor trailing delimiters produce empty tokens.
 */
module Fields {

  const Delimiter: char := ','

  /** A token as the tokenizer yields it: never empty, never holding a delimiter. */
  predicate IsToken(t: string) {
    |t| > 0 && Delimiter !in t
  }

  predicate AllTokens(ts: seq<string>) {
    forall i :: 0 <= i < |ts| ==> IsToken(ts[i])
  }

  /** The characters of `s` with every delimiter removed. */
  function Strip(s: string): string
    decreases |s|
  {
    if |s| == 0 then []
    else (if s[0] == Delimiter then [] else [s[0]]) + Strip(s[1..])
  }

  /** The tokens laid end to end. */
  function Concat(ts: seq<string>): string
    decreases |ts|
  {
    if |ts| == 0 then [] else ts[0] + Concat(ts[1..])
  }

  /** Splits `s`, where `pending` holds the characters of a token already read. */
  function SplitFrom(s: string, pending: string): (ts: seq<string>)
    requires Delimiter !in pending
    ensures AllTokens(ts)
    ensures Concat(ts) == pending + Strip(s)
    decreases |s|
  {
    if |s| == 0 then
      (if pending == [] then [] else [pending])
    else if s[0] == Delimiter then
      (if pending == [] then SplitFrom(s[1..], [])
       else
         var rest := SplitFrom(s[1..], []);
         assert ([pending] + rest)[1..] == rest;
         [pending] + rest)
    else
      assert Strip(s) == [s[0]] + Strip(s[1..]);
      SplitFrom(s[1..], pending + [s[0]])
  }

  /** `StringUtils.split(s, ",")`: every token is non-empty, free of delimiters,
      and together the tokens hold exactly the non-delimiter characters of `s`. */
  function Split(s: string): (ts: seq<string>)
    ensures AllTokens(ts)
    ensures Concat(ts) == Strip(s)
  {
    SplitFrom(s, [])
  }

  /** Writes tokens back out, one delimiter between neighbours. */
  function Join(ts: seq<string>): string
    decreases |ts|
  {
    if |ts| == 0 then []
    else if |ts| == 1 then ts[0]
    else ts[0] + [Delimiter] + Join(ts[1..])
  }

  /** Characters without a delimiter only extend the pending token. */
  lemma {:induction false} SplitFromWithin(t: string, rest: string, pending: string)
    requires Delimiter !in pending && Delimiter !in t
    ensures SplitFrom(t + rest, pending) == SplitFrom(rest, pending + t)
    decreases |t|
  {
    if |t| == 0 {
      assert t + rest == rest;
      assert pending + t == pending;
    } else {
      assert (t + rest)[0] == t[0];
      assert (t + rest)[1..] == t[1..] + rest;
      SplitFromWithin(t[1..], rest, pending + [t[0]]);
      assert pending + [t[0]] + t[1..] == pending + t;
    }
  }

  /** A delimiter ends the pending token, if there is one. */
  lemma SplitFromDelimiter(s: string, pending: string)
    requires Delimiter !in pending
    ensures SplitFrom([Delimiter] + s, pending) == (if pending == [] then [] else [pending]) + SplitFrom(s, [])
  {
    assert ([Delimiter] + s)[1..] == s;
  }

  /** Splitting a joined line gives back its tokens. */
  lemma {:induction false} SplitJoin(ts: seq<string>)
    requires AllTokens(ts)
    ensures Split(Join(ts)) == ts
    decreases |ts|
  {
    if |ts| == 0 {
    } else if |ts| == 1 {
      SplitFromWithin(ts[0], [], []);
      assert ts[0] + [] == ts[0];
      assert [] + ts[0] == ts[0];
    } else {
      var tail := [Delimiter] + Join(ts[1..]);
      calc {
        Split(Join(ts));
        == { assert Join(ts) == ts[0] + tail; }
        SplitFrom(ts[0] + tail, []);
        == { SplitFromWithin(ts[0], tail, []); assert [] + ts[0] == ts[0]; }
        SplitFrom(tail, ts[0]);
        == { SplitFromDelimiter(Join(ts[1..]), ts[0]); }
        [ts[0]] + Split(Join(ts[1..]));
        == { SplitJoin(ts[1..]); }
        [ts[0]] + ts[1..];
      }
      assert ts == [ts[0]] + ts[1..];
    }
  }

  /** After any pending token, two commas split like one. */
  lemma DoubleComma(b: string, pending: string)
    requires Delimiter !in pending
    ensures SplitFrom([Delimiter] + ([Delimiter] + b), pending) == SplitFrom([Delimiter] + b, pending)
  {
    SplitFromDelimiter([Delimiter] + b, pending);
    SplitFromDelimiter(b, []);
    SplitFromDelimiter(b, pending);
  }

  /** Behind any prefix, two commas split like one. */
  lemma {:induction false} PrefixDoubleComma(a: string, b: string, pending: string)
    requires Delimiter !in pending
    ensures SplitFrom(a + ([Delimiter] + ([Delimiter] + b)), pending) == SplitFrom(a + ([Delimiter] + b), pending)
    decreases |a|
  {
    var x, y := [Delimiter] + ([Delimiter] + b), [Delimiter] + b;
    if |a| == 0 {
      assert a + x == x && a + y == y;
      DoubleComma(b, pending);
    } else {
      assert (a + x)[0] == a[0] && (a + x)[1..] == a[1..] + x;
      assert (a + y)[0] == a[0] && (a + y)[1..] == a[1..] + y;
      if a[0] == Delimiter {
        PrefixDoubleComma(a[1..], b, []);
      } else {
        PrefixDoubleComma(a[1..], b, pending + [a[0]]);
      }
    }
  }

  /** Two adjacent commas anywhere in a line split like one. */
  lemma SplitCollapses(a: string, b: string)
    ensures Split(a + [Delimiter, Delimiter] + b) == Split(a + [Delimiter] + b)
  {
    PrefixDoubleComma(a, b, []);
    assert a + [Delimiter, Delimiter] + b == a + ([Delimiter] + ([Delimiter] + b));
    assert a + [Delimiter] + b == a + ([Delimiter] + b);
  }

  /** `k` commas in a row. */
  function Commas(k: nat): (s: string)
    ensures |s| == k && forall i :: 0 <= i < k ==> s[i] == Delimiter
  {
    seq(k, i => Delimiter)
  }

  /** Any run of one or more commas splits like a single comma. */
  lemma {:induction false} SplitRunCollapses(a: string, k: nat, b: string)
    requires k >= 1
    ensures Split(a + Commas(k) + b) == Split(a + [Delimiter] + b)
    decreases k
  {
    if k > 1 {
      var rest := Commas(k - 2) + b;
      assert a + Commas(k) + b == a + [Delimiter, Delimiter] + rest;
      SplitCollapses(a, rest);
      assert a + [Delimiter] + rest == a + Commas(k - 1) + b;
      SplitRunCollapses(a, k - 1, b);
    } else {
      assert Commas(1) == [Delimiter];
    }
  }

  /** A leading comma yields no token. */
  lemma SplitLeading(s: string)
    ensures Split([Delimiter] + s) == Split(s)
  {
    SplitFromDelimiter(s, []);
  }

  /** A trailing comma only ends the token being read. */
  lemma {:induction false} SplitFromTrailing(s: string, pending: string)
    requires Delimiter !in pending
    ensures SplitFrom(s + [Delimiter], pending) == SplitFrom(s, pending)
    decreases |s|
  {
    if |s| == 0 {
      assert s + [Delimiter] == [Delimiter] + [];
      SplitFromDelimiter([], pending);
    } else {
      assert (s + [Delimiter])[0] == s[0] && (s + [Delimiter])[1..] == s[1..] + [Delimiter];
      if s[0] == Delimiter {
        SplitFromTrailing(s[1..], []);
      } else {
        SplitFromTrailing(s[1..], pending + [s[0]]);
      }
    }
  }

  /** A trailing comma yields no token. */
  lemma SplitTrailing(s: string)
    ensures Split(s + [Delimiter]) == Split(s)
  {
    SplitFromTrailing(s, []);
  }

  /** Splitting is idempotent on its own output: a line and its tokens re-joined
      with single delimiters split alike. */
  lemma SplitNormalises(s: string)
    ensures Split(Join(Split(s))) == Split(s)
  {
    SplitJoin(Split(s));
  }
}
