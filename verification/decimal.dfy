/**
 * Decimal rendering of integers, as Python's `str(int)` and f-string
 * interpolation produce it, together with the parser that inverts it.
 * The rendering is used inside the block-hash preimage and the threat DNA.
 */
module Decimal {

  import opened Wrappers

  predicate IsDigit(c: char) {
    '0' <= c <= '9'
  }

  predicate AllDigits(s: string) {
    forall k :: 0 <= k < |s| ==> IsDigit(s[k])
  }

  function DigitChar(d: nat): (c: char)
    requires d < 10
    ensures IsDigit(c)
  {
    ('0' as int + d) as char
  }

  function DigitValue(c: char): (d: nat)
    requires IsDigit(c)
    ensures d < 10 && DigitChar(d) == c
  {
    c as int - '0' as int
  }

  /** `str(i)`: a leading '-' for negative numbers, then the digits of |i|, most
      significant first, with no leading zero. */
  function IntToDecimal(i: int): string
    decreases if i < 0 then 1 - i else i
  {
    if i < 0 then "-" + IntToDecimal(-i)
    else if i < 10 then [DigitChar(i)]
    else IntToDecimal(i / 10) + [DigitChar(i % 10)]
  }

  /** The rendering of a natural number is a non-empty run of digits without a
      leading zero. */
  lemma {:induction false} NaturalShape(n: nat)
    ensures IntToDecimal(n) != [] && AllDigits(IntToDecimal(n))
    ensures |IntToDecimal(n)| > 1 ==> IntToDecimal(n)[0] != '0'
  {
    if n >= 10 {
      NaturalShape(n / 10);
    }
  }

  /** A rendered integer is a non-empty run of digits, possibly after a leading '-'. */
  lemma IntToDecimalShape(i: int)
    ensures IntToDecimal(i) != []
    ensures forall k :: 0 <= k < |IntToDecimal(i)| ==> IsDigit(IntToDecimal(i)[k]) || (k == 0 && IntToDecimal(i)[k] == '-')
  {
    if i < 0 {
      NaturalShape(-i);
    } else {
      NaturalShape(i);
    }
  }

  /** No character other than a digit or '-' occurs in a rendered integer. */
  lemma IntToDecimalAvoids(i: int, c: char)
    requires !IsDigit(c) && c != '-'
    ensures c !in IntToDecimal(i)
  {
    IntToDecimalShape(i);
  }

  function DigitsToNat(s: string): nat
    requires AllDigits(s)
  {
    if s == [] then 0 else 10 * DigitsToNat(s[..|s| - 1]) + DigitValue(s[|s| - 1])
  }

  /** Reads an optional '-' followed by at least one digit; anything else is rejected. */
  function ParseDecimal(s: string): Option<int> {
    if |s| > 1 && s[0] == '-' && AllDigits(s[1..]) then Some(0 - DigitsToNat(s[1..]) as int)
    else if s != [] && AllDigits(s) then Some(DigitsToNat(s))
    else None
  }

  /** Reading back the digits of a natural number gives the number. */
  lemma {:induction false} NaturalRoundTrip(n: nat)
    ensures AllDigits(IntToDecimal(n)) && DigitsToNat(IntToDecimal(n)) == n
  {
    NaturalShape(n);
    if n >= 10 {
      var s := IntToDecimal(n);
      assert s[..|s| - 1] == IntToDecimal(n / 10);
      NaturalRoundTrip(n / 10);
    }
  }

  lemma NaturalParses(n: nat)
    ensures ParseDecimal(IntToDecimal(n)) == Some(n)
  {
    var s := IntToDecimal(n);
    NaturalShape(n);
    NaturalRoundTrip(n);
    assert s[0] != '-' by {
      assert IsDigit(s[0]);
    }
  }

  lemma NegativeParses(i: int)
    requires i < 0
    ensures ParseDecimal(IntToDecimal(i)) == Some(i)
  {
    var digits := IntToDecimal(-i);
    var s := IntToDecimal(i);
    assert s == "-" + digits;
    assert s[1..] == digits;
    NaturalShape(-i);
    NaturalRoundTrip(-i);
    assert |s| > 1 && s[0] == '-' && AllDigits(s[1..]);
  }

  /** Parsing a rendered integer gives the integer back. */
  lemma IntToDecimalRoundTrip(i: int)
    ensures ParseDecimal(IntToDecimal(i)) == Some(i)
  {
    if i < 0 {
      NegativeParses(i);
    } else {
      NaturalParses(i);
    }
  }

  /** Distinct integers render to distinct strings. */
  lemma IntToDecimalInjective(i: int, j: int)
    ensures IntToDecimal(i) == IntToDecimal(j) ==> i == j
  {
    IntToDecimalRoundTrip(i);
    IntToDecimalRoundTrip(j);
  }

}
