/**
 * Decimal rendering of integers, as JavaScript's number-to-string conversion
 * produces it for integral values (an optional '-' and digits with no leading
 * zero), and the parser that reads such a rendering back.
 */
module Decimal {

  predicate IsDigit(c: char) {
    '0' <= c <= '9'
  }

  /**
   * A canonical decimal numeral: an optional '-' and at least one digit, with
   * no leading zero, and no '-' before a zero.
   */
  predicate IsNumeral(s: string) {
    if |s| > 0 && s[0] == '-' then
      |s| > 1 && s[1] != '0' && forall k | 1 <= k < |s| :: IsDigit(s[k])
    else
      |s| > 0 && (s[0] == '0' ==> s == "0") && forall k | 0 <= k < |s| :: IsDigit(s[k])
  }

  function DigitValue(c: char): int {
    c as int - '0' as int
  }

  function Digit(d: nat): (c: char)
    requires d < 10
    ensures IsDigit(c) && DigitValue(c) == d
  {
    ('0' as int + d) as char
  }

  /** The digits of `n`, most significant first. */
  function NatToString(n: nat): (r: string)
    ensures |r| > 0
    ensures forall i | 0 <= i < |r| :: IsDigit(r[i])
    ensures r[0] == '0' <==> n == 0
    decreases n
  {
    if n < 10 then [Digit(n)] else NatToString(n / 10) + [Digit(n % 10)]
  }

  /** `String(i)` for an integral JavaScript number. */
  function IntToString(i: int): (r: string)
    ensures IsNumeral(r)
    ensures |r| > 0 && (IsDigit(r[0]) || r[0] == '-')
    ensures forall k | 1 <= k < |r| :: IsDigit(r[k])
    ensures r[0] == '-' <==> i < 0
    ensures r[0] == '0' ==> r == "0"
    ensures r[0] == '-' ==> |r| > 1 && r[1] != '0'
  {
    if i < 0 then "-" + NatToString(-i) else NatToString(i)
  }

  /** Reads a string of digits as a natural number. */
  function ParseNat(s: string): int
    decreases |s|
  {
    if s == [] then 0 else ParseNat(s[..|s| - 1]) * 10 + DigitValue(s[|s| - 1])
  }

  /** Reads an optionally negative decimal numeral. */
  function ParseInt(s: string): int {
    if |s| > 0 && s[0] == '-' then -ParseNat(s[1..]) else ParseNat(s)
  }

  lemma {:induction false} NatToStringRoundTrip(n: nat)
    ensures ParseNat(NatToString(n)) == n
    decreases n
  {
    if n >= 10 {
      var prefix := NatToString(n / 10);
      NatToStringRoundTrip(n / 10);
      assert (prefix + [Digit(n % 10)])[..|prefix|] == prefix;
    }
  }

  /** The rendering determines the number: parsing it gives the number back. */
  lemma IntToStringRoundTrip(i: int)
    ensures ParseInt(IntToString(i)) == i
  {
    if i < 0 {
      var digits := NatToString(-i);
      NatToStringRoundTrip(-i);
      assert ("-" + digits)[1..] == digits;
    } else {
      NatToStringRoundTrip(i);
    }
  }
}
