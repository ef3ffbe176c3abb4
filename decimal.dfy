/**
 * Swift's `Int` text conversions: `Int(_: String)`, which parses an optional
 * sign followed by decimal digits into a 64-bit integer, and the decimal text
 * that string interpolation (`"\(n)"`) produces for an `Int`.
 */
module Decimal {
  import opened Common

  /** The range of Swift's 64-bit `Int`. */
  const IntMin: int := -0x8000_0000_0000_0000
  const IntMax: int := 0x7FFF_FFFF_FFFF_FFFF

  predicate IsDigit(c: char) {
    '0' <= c <= '9'
  }

  predicate AllDigits(s: string) {
    forall i :: 0 <= i < |s| ==> IsDigit(s[i])
  }

  function DigitValue(c: char): (d: nat)
    requires IsDigit(c)
    ensures d < 10
  {
    (c as int) - ('0' as int)
  }

  function DigitChar(d: nat): (c: char)
    requires d < 10
    ensures IsDigit(c) && DigitValue(c) == d
  {
    (('0' as int) + d) as char
  }

  /** The number a string of decimal digits denotes (leading zeros allowed). */
  function DigitsValue(s: string): nat
    requires AllDigits(s)
  {
    if s == [] then 0 else DigitsValue(s[..|s| - 1]) * 10 + DigitValue(s[|s| - 1])
  }

  /**
   * `Int(s)`: an optional `+` or `-`, then one or more ASCII digits and
   * nothing else; `None` for any other text and for values outside `Int`.
   */
  function ParseInt(s: string): (r: Option<int>)
    ensures r.Some? ==> IntMin <= r.value <= IntMax
  {
    var signed := |s| > 0 && (s[0] == '+' || s[0] == '-');
    var digits := if signed then s[1..] else s;
    if |digits| == 0 || !AllDigits(digits) then None
    else
      var n: int := if signed && s[0] == '-' then 0 - DigitsValue(digits) as int else DigitsValue(digits);
      if IntMin <= n <= IntMax then Some(n) else None
  }

  /** The decimal digits of `n`, without leading zeros. */
  function NatToString(n: nat): (s: string)
    ensures |s| > 0 && AllDigits(s)
  {
    if n < 10 then [DigitChar(n)] else NatToString(n / 10) + [DigitChar(n % 10)]
  }

  /** `"\(n)"` for an `Int` `n`. */
  function IntToString(n: int): string {
    if n < 0 then "-" + NatToString(-n) else NatToString(n)
  }

  lemma {:induction false} NatToStringValue(n: nat)
    ensures DigitsValue(NatToString(n)) == n
  {
    if n >= 10 {
      NatToStringValue(n / 10);
      var s := NatToString(n);
      assert s[..|s| - 1] == NatToString(n / 10);
    }
  }

  /** Parsing the text interpolation gives for an `Int` gives the `Int` back. */
  lemma ParseIntToString(n: int)
    requires IntMin <= n <= IntMax
    ensures ParseInt(IntToString(n)) == Some(n)
  {
    if n < 0 {
      var s := IntToString(n);
      assert s[1..] == NatToString(-n);
      NatToStringValue(-n);
    } else {
      var s := NatToString(n);
      NatToStringValue(n);
      assert s[0] != '+' && s[0] != '-' by { assert IsDigit(s[0]); }
    }
  }

  /** `Int` also accepts an explicit leading `+`. */
  lemma ParseIntPlus(n: nat)
    requires n <= IntMax
    ensures ParseInt("+" + NatToString(n)) == Some(n)
  {
    var s := "+" + NatToString(n);
    assert s[1..] == NatToString(n);
    NatToStringValue(n);
  }

  /**
   * `Int` accepts nothing but one or more ASCII digits, possibly after one
   * sign; an unsigned or `+` text gives a non-negative value.
   */
  lemma ParseIntShape(s: string)
    ensures ParseInt(s).Some? ==>
      exists d :: d != [] && AllDigits(d) && (s == d || s == "+" + d || s == "-" + d)
    ensures ParseInt(s).Some? && (s == [] || s[0] != '-') ==> ParseInt(s).value >= 0
  {
    if ParseInt(s).Some? {
      var signed := |s| > 0 && (s[0] == '+' || s[0] == '-');
      var digits := if signed then s[1..] else s;
      if signed {
        assert s == [s[0]] + digits;
        assert s == "+" + digits || s == "-" + digits;
      }
    }
  }
}
