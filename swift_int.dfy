/**
  The decimal text that Swift's string interpolation `"\(x)"` produces for an `Int`,
  and a parser that reads it back. The parser is the partner of the printer: the
  round-trip lemmas below show that no two integers print alike.
 */
module SwiftInt {
  import opened Wrappers

  predicate IsDigit(c: char) {
    '0' <= c <= '9'
  }

  predicate AllDigits(s: string) {
    forall i :: 0 <= i < |s| ==> IsDigit(s[i])
  }

  function DigitChar(d: nat): (c: char)
    requires d < 10
    ensures IsDigit(c) && c as int - '0' as int == d
  {
    ('0' as int + d) as char
  }

  /** Decimal digits of a natural number, most significant first, no leading zero. */
  function NatText(n: nat): (s: string)
    ensures 1 <= |s| && AllDigits(s)
    ensures |s| > 1 ==> s[0] != '0'
    decreases n
  {
    if n < 10 then [DigitChar(n)] else NatText(n / 10) + [DigitChar(n % 10)]
  }

  /** `"\(x)"` for a Swift `Int`: a minus sign before the digits of a negative value. */
  function IntText(x: int): (s: string)
    ensures 1 <= |s|
    ensures forall i :: 0 <= i < |s| ==> IsDigit(s[i]) || s[i] == '-'
    ensures x >= 0 <==> AllDigits(s)
    ensures x >= 0 && |s| > 1 ==> s[0] != '0'
    ensures x < 0 ==> s[0] == '-' && 2 <= |s| && (|s| > 2 ==> s[1] != '0')
  {
    if x < 0 then
      var s := "-" + NatText(-x);
      assert !IsDigit(s[0]);
      s
    else NatText(x)
  }

  /** Value of a string of decimal digits. */
  function DigitsValue(s: string): nat
    requires AllDigits(s)
  {
    if s == [] then 0 else DigitsValue(s[..|s| - 1]) * 10 + (s[|s| - 1] as int - '0' as int)
  }

  /** Reads back what IntText prints: an optional minus sign and at least one digit. */
  function ParseInt(s: string): Option<int> {
    if 2 <= |s| && s[0] == '-' && AllDigits(s[1..]) then Some(0 - DigitsValue(s[1..]) as int)
    else if 1 <= |s| && AllDigits(s) then Some(DigitsValue(s))
    else None
  }

  lemma {:induction false} NatTextValue(n: nat)
    ensures DigitsValue(NatText(n)) == n
    decreases n
  {
    if n >= 10 {
      NatTextValue(n / 10);
      var s := NatText(n);
      assert s[..|s| - 1] == NatText(n / 10);
    }
  }

  /** Printing an Int and parsing the text gives the Int back. */
  lemma IntTextRoundTrip(x: int)
    ensures ParseInt(IntText(x)) == Some(x)
  {
    if x < 0 {
      var s := IntText(x);
      assert s[1..] == NatText(-x);
      NatTextValue(-x);
    } else {
      NatTextValue(x);
    }
  }

  /** Two Ints print alike only when they are equal. */
  lemma IntTextInjective(x: int, y: int)
    requires IntText(x) == IntText(y)
    ensures x == y
  {
    IntTextRoundTrip(x);
    IntTextRoundTrip(y);
  }
}
