/**
 * Decimal rendering of integers as Go's `fmt.Sprintf("%d", n)` produces it:
 * an optional '-' followed by the digits of the magnitude, without leading
 * zeros. A parser is given as its inverse.
 */
module Decimal {
  import opened Options

  predicate IsDigit(c: char) {
    '0' <= c <= '9'
  }

  predicate AllDigits(s: string) {
    forall i | 0 <= i < |s| :: IsDigit(s[i])
  }

  /** A digit string as `%d` renders a natural number: non-empty, no leading zero except "0". */
  predicate Canonical(s: string) {
    |s| > 0 && AllDigits(s) && (|s| > 1 ==> s[0] != '0')
  }

  function DigitChar(d: nat): (c: char)
    requires d < 10
    ensures IsDigit(c) && c as int - '0' as int == d
  {
    ('0' as int + d) as char
  }

  /** The digits of `n`, most significant first. */
  function FormatNat(n: nat): (s: string)
    ensures Canonical(s)
    ensures s[0] == '0' <==> n == 0
    decreases n
  {
    if n < 10 then [DigitChar(n)] else FormatNat(n / 10) + [DigitChar(n % 10)]
  }

  /** The number a digit string denotes. */
  function DigitsValue(s: string): nat
    requires AllDigits(s)
    decreases |s|
  {
    if s == [] then 0 else DigitsValue(s[..|s| - 1]) * 10 + (s[|s| - 1] as int - '0' as int)
  }

  /** `%d` applied to an integer. */
  function FormatInt(i: int): (s: string)
    ensures |s| > 0
    ensures s[0] == '-' <==> i < 0
    ensures i >= 0 ==> Canonical(s)
  {
    if i < 0 then "-" + FormatNat(-i) else FormatNat(i)
  }

  /** Reads back an integer written by `FormatInt`; `None` for anything that is not a decimal integer. */
  function ParseInt(s: string): Option<int> {
    if |s| > 0 && s[0] == '-' then
      if |s| > 1 && AllDigits(s[1..]) then (var v: int := DigitsValue(s[1..]); Some(-v)) else None
    else if |s| > 0 && AllDigits(s) then (var v: int := DigitsValue(s); Some(v))
    else None
  }

  lemma {:induction false} DigitsValueOfFormatNat(n: nat)
    ensures DigitsValue(FormatNat(n)) == n
    decreases n
  {
    if n >= 10 {
      DigitsValueOfFormatNat(n / 10);
      var s := FormatNat(n / 10);
      assert (s + [DigitChar(n % 10)])[..|s|] == s;
    }
  }

  lemma {:induction false} LeadingDigitPositive(s: string)
    requires |s| > 0 && AllDigits(s) && s[0] != '0'
    ensures DigitsValue(s) > 0
    decreases |s|
  {
    if |s| > 1 {
      LeadingDigitPositive(s[..|s| - 1]);
    }
  }

  /** Every canonical digit string is the rendering of the number it denotes. */
  lemma {:induction false} FormatNatOfDigitsValue(s: string)
    requires Canonical(s)
    ensures FormatNat(DigitsValue(s)) == s
    decreases |s|
  {
    var d := s[|s| - 1] as int - '0' as int;
    if |s| == 1 {
      assert DigitsValue(s) == d;
    } else {
      var front := s[..|s| - 1];
      LeadingDigitPositive(front);
      FormatNatOfDigitsValue(front);
      var v := DigitsValue(front);
      assert DigitsValue(s) == v * 10 + d;
      assert (v * 10 + d) / 10 == v && (v * 10 + d) % 10 == d;
      assert s == front + [s[|s| - 1]];
    }
  }

  /** Parsing undoes `%d`: the rendering of an integer identifies it. */
  lemma ParseFormatInt(i: int)
    ensures ParseInt(FormatInt(i)) == Some(i)
  {
    if i < 0 {
      var digits := FormatNat(-i);
      assert FormatInt(i)[1..] == digits;
      DigitsValueOfFormatNat(-i);
    } else {
      DigitsValueOfFormatNat(i);
    }
  }

  /** Distinct integers render as distinct strings. */
  lemma FormatIntInjective(i: int, j: int)
    ensures FormatInt(i) == FormatInt(j) <==> i == j
  {
    ParseFormatInt(i);
    ParseFormatInt(j);
  }
}
