/**
 * Decimal rendering of integers, as `String.valueOf(int)` produces it for the
 * partition attribute, with the parser that inverts it.
 */
module Decimal {
  import opened Wrappers

  /** The character of one decimal digit. */
  function DigitChar(d: nat): (c: char)
    requires d < 10
    ensures '0' <= c <= '9'
    ensures c as int - '0' as int == d
  {
    ('0' as int + d) as char
  }

  /** The value of one decimal digit character. */
  function DigitValue(c: char): nat
    requires '0' <= c <= '9'
  {
    c as int - '0' as int
  }

  /** A non-empty run of decimal digits. */
  predicate IsDigits(s: string)
  {
    |s| > 0 && forall i :: 0 <= i < |s| ==> '0' <= s[i] <= '9'
  }

  /** Digits of a natural number, most significant first, without leading zeros. */
  function NatToString(n: nat): string
    decreases n
  {
    if n < 10 then [DigitChar(n)] else NatToString(n / 10) + [DigitChar(n % 10)]
  }

  /** The rendering of a natural number is a run of digits with no leading zero. */
  lemma {:induction false} NatToStringDigits(n: nat)
    ensures IsDigits(NatToString(n))
    ensures |NatToString(n)| > 1 ==> NatToString(n)[0] != '0'
    decreases n
  {
    if n >= 10 {
      NatToStringDigits(n / 10);
      var front := NatToString(n / 10);
      assert NatToString(n) == front + [DigitChar(n % 10)];
      assert |front| > 1 || front[0] != '0';
    }
  }

  /** `String.valueOf(int)`: a leading minus sign for negative values. */
  function IntToString(i: int): (s: string)
    ensures |s| > 0 && (i < 0 <==> s[0] == '-')
  {
    if i < 0 then NatToStringDigits(-i); "-" + NatToString(-i)
    else NatToStringDigits(i); NatToString(i)
  }

  /** The value of a run of decimal digits. */
  function ParseNat(s: string): nat
    requires IsDigits(s)
    decreases |s|
  {
    if |s| == 1 then DigitValue(s[0])
    else 10 * ParseNat(s[..|s| - 1]) + DigitValue(s[|s| - 1])
  }

  /** Reads back a decimal integer, optionally negative; None for anything else. */
  function ParseInt(s: string): Option<int>
  {
    if |s| > 1 && s[0] == '-' && IsDigits(s[1..]) then Some(0 - ParseNat(s[1..]) as int)
    else if IsDigits(s) then Some(ParseNat(s) as int)
    else None
  }

  lemma {:induction false} ParseNatToString(n: nat)
    ensures IsDigits(NatToString(n)) && ParseNat(NatToString(n)) == n
    decreases n
  {
    NatToStringDigits(n);
    if n >= 10 {
      var s := NatToString(n);
      assert s[..|s| - 1] == NatToString(n / 10);
      ParseNatToString(n / 10);
    }
  }

  /** A minus sign followed by digits parses as the negated value of the digits. */
  lemma ParseIntNegative(digits: string)
    requires IsDigits(digits)
    ensures ParseInt("-" + digits) == Some(0 - ParseNat(digits) as int)
  {
    var s := "-" + digits;
    assert s[1..] == digits;
  }

  /** Digits alone parse as their value. */
  lemma ParseIntDigits(digits: string)
    requires IsDigits(digits)
    ensures ParseInt(digits) == Some(ParseNat(digits) as int)
  {
    assert digits[0] != '-';
  }

  /** Every rendered integer reads back as itself, so the rendering loses nothing. */
  lemma ParseIntToString(i: int)
    ensures ParseInt(IntToString(i)) == Some(i)
  {
    if i < 0 {
      ParseNatToString(-i);
      ParseIntNegative(NatToString(-i));
    } else {
      ParseNatToString(i);
      ParseIntDigits(NatToString(i));
    }
  }

  /** Distinct partitions get distinct attribute values. */
  lemma IntToStringInjective(i: int, j: int)
    requires IntToString(i) == IntToString(j)
    ensures i == j
  {
    ParseIntToString(i);
    ParseIntToString(j);
  }
}
