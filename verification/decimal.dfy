/**
 * Decimal rendering of Java integers (`String.valueOf(long)` and
 * `String.valueOf(int)`), with the parser that reads a rendering back.
 */
module Decimal {

  predicate IsDigit(c: char)
  {
    '0' <= c <= '9'
  }

  predicate AllDigits(s: string)
  {
    forall i :: 0 <= i < |s| ==> IsDigit(s[i])
  }

  function DigitChar(d: nat): (c: char)
    requires d < 10
    ensures IsDigit(c)
  {
    ('0' as int + d) as char
  }

  function DigitValue(c: char): (d: nat)
    requires IsDigit(c)
    ensures d < 10
  {
    c as int - '0' as int
  }

  /** Digits without a leading zero (a lone `0` is allowed). */
  predicate CanonicalNat(s: string)
  {
    |s| > 0 && AllDigits(s) && (|s| > 1 ==> s[0] != '0')
  }

  /** The form `String.valueOf` gives: canonical digits, or `-` and canonical digits other than `0`. */
  predicate Canonical(s: string)
  {
    if |s| > 0 && s[0] == '-' then CanonicalNat(s[1..]) && s[1] != '0'
    else CanonicalNat(s)
  }

  /** The digits of `n`, most significant first, without leading zeros. */
  function NatToString(n: nat): (s: string)
    ensures CanonicalNat(s)
    ensures s[0] == '0' <==> n == 0
  {
    if n < 10 then [DigitChar(n)]
    else NatToString(n / 10) + [DigitChar(n % 10)]
  }

  /**
   * `String.valueOf(n)`: a minus sign exactly for negative numbers, then
   * the digits; reading it back gives `n`.
   */
  function IntToString(n: int): (s: string)
    ensures Canonical(s)
    ensures s[0] == '-' <==> n < 0
    ensures ParseInt(s) == n
  {
    if n < 0 then
      var digits := NatToString(-n);
      assert ("-" + digits)[1..] == digits;
      ParseNatToString(-n);
      "-" + digits
    else
      ParseNatToString(n);
      NatToString(n)
  }

  function ParseNat(s: string): nat
    requires AllDigits(s)
  {
    if s == [] then 0
    else ParseNat(s[..|s| - 1]) * 10 + DigitValue(s[|s| - 1])
  }

  function ParseInt(s: string): int
  {
    if |s| > 0 && s[0] == '-' && AllDigits(s[1..]) then -(ParseNat(s[1..]) as int)
    else if AllDigits(s) then ParseNat(s)
    else 0
  }

  lemma {:induction false} ParseNatToString(n: nat)
    ensures ParseNat(NatToString(n)) == n
  {
    if n >= 10 {
      var s := NatToString(n);
      assert s[..|s| - 1] == NatToString(n / 10);
      ParseNatToString(n / 10);
    }
  }

  /** Distinct integers render differently. */
  lemma IntToStringInjective(a: int, b: int)
    requires IntToString(a) == IntToString(b)
    ensures a == b
  {
  }

  /** A rendered integer holds only a sign and digits, so never the given delimiter. */
  lemma IntToStringHasNoDelimiter(n: int, c: char)
    requires c != '-' && !IsDigit(c)
    ensures c !in IntToString(n)
  {
    var s := IntToString(n);
    if n < 0 {
      assert forall i :: 1 <= i < |s| ==> s[i] == NatToString(-n)[i - 1];
    }
  }

  /** Canonical digits that do not start with `0` denote a positive number. */
  lemma {:induction false} ParseNatPositive(s: string)
    requires AllDigits(s) && |s| > 0 && s[0] != '0'
    ensures ParseNat(s) > 0
  {
    if |s| > 1 {
      var front := s[..|s| - 1];
      assert front[0] == s[0];
      ParseNatPositive(front);
    }
  }

  /** Canonical digits are the rendering of the number they denote. */
  lemma {:induction false} NatToStringParseNat(s: string)
    requires CanonicalNat(s)
    ensures NatToString(ParseNat(s)) == s
  {
    if |s| == 1 {
      assert s == [s[0]];
    } else {
      var front := s[..|s| - 1];
      assert front[0] == s[0];
      ParseNatPositive(front);
      NatToStringParseNat(front);
      var n := ParseNat(s);
      assert n / 10 == ParseNat(front) && n % 10 == DigitValue(s[|s| - 1]);
      assert s == front + [s[|s| - 1]];
    }
  }

  /**
   * The canonical form is unique: a canonical string that reads as `n` is
   * `String.valueOf(n)` itself.
   */
  lemma CanonicalIsRendering(s: string, n: int)
    requires Canonical(s) && ParseInt(s) == n
    ensures s == IntToString(n)
  {
    if s[0] == '-' {
      var digits := s[1..];
      ParseNatPositive(digits);
      NatToStringParseNat(digits);
      assert s == "-" + digits;
    } else {
      NatToStringParseNat(s);
    }
  }
}
