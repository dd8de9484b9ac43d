/**
 * The two string helpers of the base utilities: CharToString renders a
 * `char` for messages, either quoted when printable or as
 * "[character <code>]"; IntToString renders a 32-bit int in decimal, as a
 * `std::stringstream` does in the default ("C") locale.
 *
 * A `char` is a signed 8-bit integer here, as on the usual targets. The
 * rendering is proved to invert under the decimal parser below.
 */
module KaldiUtils {

  newtype Int8 = x: int | -128 <= x < 128
  newtype Int32 = x: int | -0x8000_0000 <= x < 0x8000_0000

  /** `std::isprint` in the "C" locale: the codes 32 (space) to 126 ('~'). */
  predicate IsPrint(c: Int8) {
    32 <= c <= 126
  }

  predicate IsDigit(ch: char) {
    '0' <= ch <= '9'
  }

  predicate AllDigits(s: string) {
    forall k :: 0 <= k < |s| ==> IsDigit(s[k])
  }

  function DigitChar(d: nat): (ch: char)
    requires d < 10
    ensures IsDigit(ch) && ch as int - '0' as int == d
  {
    ('0' as int + d) as char
  }

  function DigitValue(ch: char): (d: nat)
    requires IsDigit(ch)
    ensures d < 10
  {
    ch as int - '0' as int
  }

  function Pow10(k: nat): (r: nat)
    ensures r >= 1
  {
    if k == 0 then 1 else 10 * Pow10(k - 1)
  }

  /** The decimal digits of n, most significant first; "0" for 0. */
  function NatToDecimal(n: nat): (s: string)
    ensures 1 <= |s| && AllDigits(s)
    ensures s[0] == '0' ==> n == 0 && |s| == 1
  {
    if n < 10 then [DigitChar(n)] else NatToDecimal(n / 10) + [DigitChar(n % 10)]
  }

  /** The decimal rendering of an integer: a '-' for negatives, then the digits of the magnitude. */
  function IntToDecimal(i: int): (s: string)
  {
    if i < 0 then "-" + NatToDecimal(-i) else NatToDecimal(i)
  }

  /** The value of a string of decimal digits. */
  function ParseDigits(s: string): (n: nat)
    requires AllDigits(s)
  {
    if |s| == 0 then 0 else 10 * ParseDigits(s[..|s| - 1]) + DigitValue(s[|s| - 1])
  }

  /** The value of an optionally '-'-signed decimal string. */
  function ParseInt(s: string): (i: int)
    requires |s| >= 1 && (if s[0] == '-' then AllDigits(s[1..]) else AllDigits(s))
  {
    if s[0] == '-' then -(ParseDigits(s[1..]) as int) else ParseDigits(s)
  }

  /** Parsing the digits of n gives back n. */
  lemma {:induction false} NatToDecimalRoundTrip(n: nat)
    ensures ParseDigits(NatToDecimal(n)) == n
  {
    var s := NatToDecimal(n);
    if n >= 10 {
      NatToDecimalRoundTrip(n / 10);
      assert s[..|s| - 1] == NatToDecimal(n / 10);
    }
  }

  /** A number below 10^k has at most k digits (at least one, for 0). */
  lemma {:induction false} NatToDecimalLength(n: nat, k: nat)
    requires k >= 1 && n < Pow10(k)
    ensures |NatToDecimal(n)| <= k
  {
    if n >= 10 {
      assert k > 1 && n / 10 < Pow10(k - 1);
      NatToDecimalLength(n / 10, k - 1);
    }
  }

  /**
   * CharToString: a printable character c becomes the three characters
   * 'c' (quotes included); any other becomes "[character " followed by its
   * signed code in decimal, written as IntToString writes it, and "]". The
   * text always fits the 20-byte buffer with its terminating NUL.
   */
  function CharToString(c: Int8): (s: string)
    ensures 3 <= |s| <= 16
    ensures s[0] == '\'' <==> IsPrint(c)
    ensures IsPrint(c) ==> |s| == 3 && s[2] == '\'' && s[1] as int == c as int
    ensures !IsPrint(c) ==>
      && |s| >= 13 && s[..11] == "[character " && s[|s| - 1] == ']'
      && var code := s[11..|s| - 1];
         |code| >= 1 && (if code[0] == '-' then AllDigits(code[1..]) else AllDigits(code))
         && ParseInt(code) == c as int
         && code == IntToString(c as int as Int32)
  {
    if IsPrint(c) then
      ['\'', c as int as char, '\'']
    else
      var code := IntToDecimal(c as int);
      CharCodeFacts(c);
      "[character " + code + "]"
  }

  /** The code of a char renders in 1..4 characters and parses back. */
  lemma CharCodeFacts(c: Int8)
    ensures var code := IntToDecimal(c as int);
      1 <= |code| <= 4
      && (if code[0] == '-' then AllDigits(code[1..]) else AllDigits(code))
      && ParseInt(code) == c as int
  {
    IntToDecimalFacts(c as int);
    var m: nat := if c < 0 then -(c as int) else c as int;
    assert Pow10(3) == 1000;
    NatToDecimalLength(m, 3);
  }

  /** The rendering of any integer: sign, digits, and the value parsed back. */
  lemma IntToDecimalFacts(i: int)
    ensures var s := IntToDecimal(i);
      && |s| >= 1
      && (s[0] == '-' <==> i < 0)
      && (if s[0] == '-' then AllDigits(s[1..]) else AllDigits(s))
      && ParseInt(s) == i
  {
    var s := IntToDecimal(i);
    if i < 0 {
      NatToDecimalRoundTrip(-i);
      assert s[1..] == NatToDecimal(-i);
    } else {
      NatToDecimalRoundTrip(i);
    }
  }

  /**
   * IntToString: the decimal text of a 32-bit int. It is '-' followed by
   * digits exactly when i is negative, has no leading zero (so 0 is "0"),
   * is at most 11 characters long, and parses back to i.
   */
  function IntToString(i: Int32): (s: string)
    ensures 1 <= |s| <= 11
    ensures s[0] == '-' <==> i < 0
    ensures var digits := if i < 0 then s[1..] else s;
      && |digits| >= 1 && AllDigits(digits)
      && (digits[0] == '0' ==> i == 0 && s == "0")
      && ParseInt(s) == i as int
  {
    var s := IntToDecimal(i as int);
    IntToDecimalFacts(i as int);
    var m: nat := if i < 0 then -(i as int) else i as int;
    assert Pow10(10) == 10000000000;
    NatToDecimalLength(m, 10);
    assert i < 0 ==> s[1..] == NatToDecimal(m);
    s
  }

  /** Distinct ints render differently. */
  lemma IntToStringInjective(a: Int32, b: Int32)
    requires IntToString(a) == IntToString(b)
    ensures a == b
  {
  }
}
