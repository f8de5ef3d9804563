/**
 This module models `Long.parseLong`, which the mapper applies to the third
 field: an optional leading `-` or `+`, then one or more decimal digits, and a
 value inside the 64-bit signed range; anything else raises a
 NumberFormatException.
 */
module Longs {
  import opened Results

  const LongMin: int := -0x8000_0000_0000_0000
  const LongMax: int := 0x7fff_ffff_ffff_ffff

  predicate IsDigit(c: char) {
    '0' <= c <= '9'
  }

  predicate IsSign(c: char) {
    c == '-' || c == '+'
  }

  predicate AllDigits(s: string) {
    forall i :: 0 <= i < |s| ==> IsDigit(s[i])
  }

  function DigitValue(c: char): nat
    requires IsDigit(c)
  {
    (c as int) - ('0' as int)
  }

  /** The number a run of decimal digits spells, most significant first. */
  function DigitsValue(s: string): nat
    requires AllDigits(s)
    decreases |s|
  {
    if |s| == 0 then 0 else DigitsValue(s[..|s| - 1]) * 10 + DigitValue(s[|s| - 1])
  }

  /** The NumberFormatException, carrying the rejected text. */
  datatype NumberFormatError = NumberFormatError(input: string)

  /** `Long.parseLong(s)`. A success holds a 64-bit value; it only comes from a
      non-empty text whose every character is a digit, save a sign in front,
      with at least one digit present. */
  function ParseLong(s: string): (r: Result<int, NumberFormatError>)
    ensures r.Success? ==> LongMin <= r.value <= LongMax
    ensures r.Success? ==> forall i :: 0 <= i < |s| ==> IsDigit(s[i]) || (i == 0 && IsSign(s[i]))
    ensures r.Success? ==> exists i :: 0 <= i < |s| && IsDigit(s[i])
    ensures r.Success? && |s| > 0 && s[0] == '-' ==> r.value <= 0
    ensures r.Success? && |s| > 0 && s[0] != '-' ==> r.value >= 0
  {
    if |s| == 0 then Failure(NumberFormatError(s))
    else
      var start := if IsSign(s[0]) then 1 else 0;
      var digits := s[start..];
      if |digits| == 0 || !AllDigits(digits) then Failure(NumberFormatError(s))
      else
        assert IsDigit(s[start]) by { assert digits[0] == s[start]; }
        assert forall i :: start <= i < |s| ==> IsDigit(s[i]) by {
          forall i | start <= i < |s| ensures IsDigit(s[i]) {
            assert digits[i - start] == s[i];
          }
        }
        var magnitude: int := DigitsValue(digits);
        var v := if s[0] == '-' then -magnitude else magnitude;
        if v < LongMin || v > LongMax then Failure(NumberFormatError(s))
        else Success(v)
  }

  /** The converse of the contract of `ParseLong`: an optional sign and one or
      more digits parse, to the signed number they spell, whenever that number is
      a 64-bit value, and fail otherwise. Leading zeros and a `+` are accepted. */
  lemma ParseLongAccepts(sign: string, d: string)
    requires sign == "" || sign == "-" || sign == "+"
    requires |d| > 0 && AllDigits(d)
    ensures var v := if sign == "-" then -(DigitsValue(d) as int) else DigitsValue(d) as int;
            ParseLong(sign + d) == if LongMin <= v <= LongMax then Success(v) else Failure(NumberFormatError(sign + d))
  {
    var s := sign + d;
    if sign == "" {
      assert s == d && s[0..] == d;
      assert IsDigit(d[0]);
    } else {
      assert s[0] == sign[0] && s[1..] == d;
    }
  }

  /** A leading zero does not change the number a run of digits spells. */
  lemma {:induction false} LeadingZero(d: string)
    requires AllDigits(d)
    ensures AllDigits("0" + d) && DigitsValue("0" + d) == DigitsValue(d)
    decreases |d|
  {
    var z := "0" + d;
    assert AllDigits(z) by {
      forall i | 0 <= i < |z| ensures IsDigit(z[i]) {
        if i > 0 { assert z[i] == d[i - 1]; }
      }
    }
    if |d| == 0 {
      assert z[..0] == [];
    } else {
      var p := d[..|d| - 1];
      assert z[..|z| - 1] == "0" + p;
      assert z[|z| - 1] == d[|d| - 1];
      LeadingZero(p);
    }
  }

  function DigitChar(d: nat): (c: char)
    requires d < 10
    ensures IsDigit(c) && DigitValue(c) == d
  {
    ('0' as int + d) as char
  }

  /** The shortest decimal spelling of `n`. */
  function NatDigits(n: nat): (s: string)
    ensures |s| > 0 && AllDigits(s)
    ensures DigitsValue(s) == n
    decreases n
  {
    if n < 10 then
      var s := [DigitChar(n)];
      assert s[..0] == [];
      s
    else
      var prefix := NatDigits(n / 10);
      var s := prefix + [DigitChar(n % 10)];
      assert s[..|s| - 1] == prefix;
      s
  }

  /** The decimal spelling of `n`, with a `-` when it is negative. */
  function Decimal(n: int): string {
    if n < 0 then "-" + NatDigits(-n) else NatDigits(n)
  }

  /** Every 64-bit value parses back from its decimal spelling. */
  lemma ParseDecimal(n: int)
    requires LongMin <= n <= LongMax
    ensures ParseLong(Decimal(n)) == Success(n)
  {
    var s := Decimal(n);
    if n < 0 {
      assert s[1..] == NatDigits(-n);
    } else {
      assert IsDigit(s[0]);
      assert s[0..] == s;
    }
  }
}
