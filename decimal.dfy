/**
 * Base-10 rendering and parsing of integers, standing in for Go's `%d` verb
 * and `strconv.ParseInt(s, 10, 64)`.
 */
module Decimal {
  import opened Wrappers
  import opened Int64

  predicate IsDigit(c: char) {
    '0' <= c <= '9'
  }

  predicate AllDigits(s: string) {
    forall i :: 0 <= i < |s| ==> IsDigit(s[i])
  }

  function DigitValue(c: char): (d: nat)
    requires IsDigit(c)
    ensures d < 10
  {
    c as int - '0' as int
  }

  function DigitChar(d: nat): (c: char)
    requires d < 10
    ensures IsDigit(c) && DigitValue(c) == d
  {
    ('0' as int + d) as char
  }

  /** The number a string of decimal digits denotes, most significant digit first. */
  function DigitsValue(s: string): nat
    requires AllDigits(s)
  {
    if s == [] then 0 else DigitsValue(s[..|s| - 1]) * 10 + DigitValue(s[|s| - 1])
  }

  /** The decimal digits of `n`, without leading zeros. */
  function NatDigits(n: nat): (s: string)
    ensures |s| > 0 && AllDigits(s)
    ensures s[0] == '0' <==> n == 0
    ensures n < 10 <==> |s| == 1
    decreases n
  {
    if n < 10 then [DigitChar(n)] else NatDigits(n / 10) + [DigitChar(n % 10)]
  }

  /** `%d`: an optional minus sign followed by the digits of the magnitude. */
  function FormatInt(v: int): (s: string)
    ensures |s| > 0
    ensures s[0] == '-' <==> v < 0
    ensures IsCanonical(s)
  {
    if v < 0 then "-" + NatDigits(-v) else NatDigits(v)
  }

  /**
   * The numerals `%d` can produce: digits without a leading zero, optionally
   * preceded by a minus sign, and never "-0".
   */
  predicate IsCanonical(s: string) {
    if |s| > 0 && s[0] == '-' then
      |s| > 1 && AllDigits(s[1..]) && s[1] != '0'
    else
      |s| > 0 && AllDigits(s) && (|s| > 1 ==> s[0] != '0')
  }

  /** The numeral without its leading sign, if it has one. */
  function Unsigned(s: string): (b: string)
    ensures |b| <= |s|
  {
    if |s| > 0 && (s[0] == '+' || s[0] == '-') then s[1..] else s
  }

  /**
   * `strconv.ParseInt(s, 10, 64)`: an optional `+` or `-`, then one or more
   * ASCII digits (no underscores, no spaces), denoting a value in the int64 range.
   * Every other input is an error.
   */
  function ParseInt(s: string): (r: Option<int64>)
    ensures r.Some? ==> |Unsigned(s)| > 0 && AllDigits(Unsigned(s))
    ensures r.Some? && r.value < 0 ==> s[0] == '-'
  {
    var body := Unsigned(s);
    if |body| == 0 || !AllDigits(body) then None
    else
      var v := if s[0] == '-' then -(DigitsValue(body) as int) else DigitsValue(body);
      if IsInt64(v) then Some(v) else None
  }

  /**
   * Reference grammar for what ParseInt accepts: `s` is a non-empty digit
   * string `d`, or `d` after a `+`, or `d` after a `-`, and `v` is the value
   * it denotes.
   */
  ghost predicate Denotes(s: string, v: int) {
    exists d: string ::
      && |d| > 0
      && AllDigits(d)
      && ((s == d && v == DigitsValue(d))
          || (s == "+" + d && v == DigitsValue(d))
          || (s == "-" + d && v == -(DigitsValue(d) as int)))
  }

  /** ParseInt succeeds with `v` exactly when `s` denotes `v` by the grammar above and `v` fits in int64. */
  lemma ParseIntMeaning(s: string, v: int)
    ensures ParseInt(s) == Some(v) <==> Denotes(s, v) && IsInt64(v)
  {
    if ParseInt(s) == Some(v) {
      var d := Unsigned(s);
      if s[0] == '+' {
        assert s == "+" + d;
      } else if s[0] == '-' {
        assert s == "-" + d;
      } else {
        assert s == d;
      }
    }
    if Denotes(s, v) && IsInt64(v) {
      var d: string :| |d| > 0 && AllDigits(d)
        && ((s == d && v == DigitsValue(d))
            || (s == "+" + d && v == DigitsValue(d))
            || (s == "-" + d && v == -(DigitsValue(d) as int)));
      if s == d {
        assert IsDigit(s[0]);
        assert Unsigned(s) == d;
      } else {
        assert Unsigned(s) == d;
      }
    }
  }

  /** A character other than a digit anywhere past the optional sign makes ParseInt fail (so `_` is rejected). */
  lemma ParseIntRejectsNonDigit(s: string, i: nat)
    requires i < |s| && !IsDigit(s[i])
    requires i == 0 ==> s[0] != '+' && s[0] != '-'
    ensures ParseInt(s) == None
  {
  }

  /** Reading back the digits of `n` gives `n`. */
  lemma {:induction false} DigitsValueOfNatDigits(n: nat)
    ensures DigitsValue(NatDigits(n)) == n
    decreases n
  {
    var s := NatDigits(n);
    if n >= 10 {
      DigitsValueOfNatDigits(n / 10);
      assert s[..|s| - 1] == NatDigits(n / 10);
    }
  }

  /** A digit string with a non-zero leading digit denotes a positive number. */
  lemma {:induction false} LeadingDigitPositive(s: string)
    requires |s| > 0 && AllDigits(s) && s[0] != '0'
    ensures DigitsValue(s) > 0
    decreases |s|
  {
    if |s| > 1 {
      LeadingDigitPositive(s[..|s| - 1]);
    }
  }

  /** A digit string without leading zeros is exactly the rendering of the number it denotes. */
  lemma {:induction false} NatDigitsOfDigitsValue(s: string)
    requires |s| > 0 && AllDigits(s) && (|s| > 1 ==> s[0] != '0')
    ensures NatDigits(DigitsValue(s)) == s
    decreases |s|
  {
    if |s| > 1 {
      var p := s[..|s| - 1];
      LeadingDigitPositive(p);
      NatDigitsOfDigitsValue(p);
      var n := DigitsValue(s);
      assert n / 10 == DigitsValue(p) && n % 10 == DigitValue(s[|s| - 1]);
      assert DigitChar(n % 10) == s[|s| - 1];
      assert s == p + [s[|s| - 1]];
    } else {
      assert DigitChar(DigitValue(s[0])) == s[0];
    }
  }

  /** Parsing what `%d` prints gives back the value when it is an int64, and fails otherwise. */
  lemma ParseFormat(v: int)
    ensures ParseInt(FormatInt(v)) == if IsInt64(v) then Some(v) else None
  {
    var s := FormatInt(v);
    if v < 0 {
      var m: nat := -v;
      assert Unsigned(s) == NatDigits(m);
      DigitsValueOfNatDigits(m);
    } else {
      assert IsDigit(s[0]);
      assert Unsigned(s) == NatDigits(v);
      DigitsValueOfNatDigits(v);
    }
  }

  /** Printing what ParseInt read gives back the text exactly when the text was canonical. */
  lemma FormatParse(s: string)
    requires ParseInt(s).Some?
    ensures FormatInt(ParseInt(s).value) == s <==> IsCanonical(s)
  {
    var v := ParseInt(s).value;
    if IsCanonical(s) {
      var body := Unsigned(s);
      if s[0] == '-' {
        assert body == s[1..];
        LeadingDigitPositive(body);
        NatDigitsOfDigitsValue(body);
        assert s == "-" + body;
      } else {
        assert IsDigit(s[0]) && body == s;
        NatDigitsOfDigitsValue(body);
      }
    }
  }
}
