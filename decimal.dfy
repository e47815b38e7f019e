/**
 * Decimal numerals of integers, as Python writes them: `str(n)` for a
 * non-negative `n`, and `'{:0{width}d}'.format(n)`, the sign-aware
 * zero-padded form whose width is a minimum, never a maximum.
 * `NumeralValue` reads such a numeral back; it is the partner against which
 * the formatting is proved.
 */
module Decimal {

  predicate IsDigit(c: char) {
    '0' <= c <= '9'
  }

  predicate AllDigits(s: string) {
    forall i :: 0 <= i < |s| ==> IsDigit(s[i])
  }

  function DigitValue(c: char): (d: nat)
    requires IsDigit(c)
    ensures d < 10
  {
    c as int - '0' as int
  }

  function DigitChar(d: nat): (c: char)
    requires d < 10
    ensures IsDigit(c) && DigitValue(c) == d
  {
    ('0' as int + d) as char
  }

  function Pow10(k: nat): (p: nat)
    ensures p >= 1
  {
    if k == 0 then 1 else 10 * Pow10(k - 1)
  }

  /** `str(n)`: the shortest numeral of `n`, most significant digit first. */
  function DecimalString(n: nat): (r: string)
    ensures |r| >= 1 && AllDigits(r)
  {
    if n < 10 then [DigitChar(n)] else DecimalString(n / 10) + [DigitChar(n % 10)]
  }

  /**
   * `str(n)` has no leading zero (except for 0 itself) and exactly as many
   * digits as `n` needs: 10^(len-1) <= n < 10^len.
   */
  lemma {:induction false} DecimalStringLength(n: nat)
    ensures DecimalString(n)[0] == '0' <==> n == 0
    ensures n < Pow10(|DecimalString(n)|)
    ensures |DecimalString(n)| == 1 || Pow10(|DecimalString(n)| - 1) <= n
  {
    if n >= 10 {
      DecimalStringLength(n / 10);
    }
  }

  /** The value of a string of digits, read most significant digit first. */
  function DigitsValue(s: string): nat
    requires AllDigits(s)
  {
    if s == [] then 0 else 10 * DigitsValue(s[..|s| - 1]) + DigitValue(s[|s| - 1])
  }

  function Zeros(k: nat): (r: string)
    ensures |r| == k && AllDigits(r)
    ensures forall i :: 0 <= i < k ==> r[i] == '0'
  {
    if k == 0 then "" else "0" + Zeros(k - 1)
  }

  /** How many fill characters bring `used` characters up to `width`. */
  function PadCount(width: nat, used: nat): nat {
    if used < width then width - used else 0
  }

  /**
   * `'{:0{width}d}'.format(n)`: the sign (only for negative `n`), then
   * `'0'` fill up to `width` characters in all, then the digits of |n|.
   */
  function ZeroPadded(n: int, width: nat): string {
    var digits := DecimalString(if n < 0 then -n else n);
    if n < 0 then "-" + Zeros(PadCount(width, 1 + |digits|)) + digits
    else Zeros(PadCount(width, |digits|)) + digits
  }

  /** `'{:03d}'.format(n)`, the numeric field of the voltage and current frames. */
  function Pad3(n: int): string {
    ZeroPadded(n, 3)
  }

  /** An optional `'-'` and then one or more digits, leading zeros allowed. */
  predicate IsNumeral(s: string) {
    (|s| >= 2 && s[0] == '-' && AllDigits(s[1..])) || (|s| >= 1 && AllDigits(s))
  }

  /**
   * The integer a numeral denotes. This reads only the forms the formatter
   * emits; Python's `int()` also accepts '+', surrounding whitespace and '_'.
   */
  function NumeralValue(s: string): int
    requires IsNumeral(s)
  {
    if s[0] == '-' then -(DigitsValue(s[1..]) as int) else DigitsValue(s)
  }

  lemma {:induction false} DecimalStringValue(n: nat)
    ensures DigitsValue(DecimalString(n)) == n
  {
    if n >= 10 {
      var r := DecimalString(n);
      assert r[..|r| - 1] == DecimalString(n / 10);
      DecimalStringValue(n / 10);
    }
  }

  lemma {:induction false} ZerosValue(k: nat)
    ensures DigitsValue(Zeros(k)) == 0
  {
    if k > 0 {
      var z := Zeros(k);
      assert z[..k - 1] == Zeros(k - 1);
      ZerosValue(k - 1);
    }
  }

  /** Leading zeros change neither that a string is a numeral nor its value. */
  lemma {:induction false} LeadingZerosValue(k: nat, s: string)
    requires AllDigits(s)
    ensures AllDigits(Zeros(k) + s)
    ensures DigitsValue(Zeros(k) + s) == DigitsValue(s)
  {
    var t := Zeros(k) + s;
    if s == [] {
      assert t == Zeros(k);
      ZerosValue(k);
    } else {
      assert t[..|t| - 1] == Zeros(k) + s[..|s| - 1];
      assert t[|t| - 1] == s[|s| - 1];
      LeadingZerosValue(k, s[..|s| - 1]);
    }
  }

  lemma NonNegativeNumeral(k: nat, digits: string)
    requires |digits| >= 1 && AllDigits(digits)
    ensures IsNumeral(Zeros(k) + digits)
    ensures NumeralValue(Zeros(k) + digits) == DigitsValue(digits)
  {
    var t := Zeros(k) + digits;
    LeadingZerosValue(k, digits);
    assert IsDigit(t[0]);
  }

  lemma NegativeNumeral(k: nat, digits: string)
    requires |digits| >= 1 && AllDigits(digits)
    ensures IsNumeral("-" + Zeros(k) + digits)
    ensures NumeralValue("-" + Zeros(k) + digits) == -(DigitsValue(digits) as int)
  {
    var t := Zeros(k) + digits;
    LeadingZerosValue(k, digits);
    var s := "-" + t;
    assert "-" + Zeros(k) + digits == s;
    assert s[1..] == t;
  }

  /** Every zero-padded numeral reads back as the integer it was made from. */
  lemma ZeroPaddedRoundTrip(n: int, width: nat)
    ensures IsNumeral(ZeroPadded(n, width)) && NumeralValue(ZeroPadded(n, width)) == n
  {
    var m: nat := if n < 0 then -n else n;
    var digits := DecimalString(m);
    DecimalStringValue(m);
    if n < 0 {
      NegativeNumeral(PadCount(width, 1 + |digits|), digits);
    } else {
      NonNegativeNumeral(PadCount(width, |digits|), digits);
    }
  }

  /** A zero-padded numeral is made of digits and, for a negative value, one leading minus sign. */
  lemma ZeroPaddedChars(n: int, width: nat)
    ensures forall i :: 0 <= i < |ZeroPadded(n, width)| ==> IsDigit(ZeroPadded(n, width)[i]) || (i == 0 && n < 0)
    ensures n < 0 <==> ZeroPadded(n, width)[0] == '-'
  {
  }

  /**
   * The width is a minimum: the result is never shorter than `width`, is
   * exactly `width` long when the sign and digits fit, and is the bare
   * numeral, neither cut nor wrapped, when they do not.
   */
  lemma ZeroPaddedWidth(n: int, width: nat)
    ensures |ZeroPadded(n, width)| >= width
    ensures n >= 0 && |DecimalString(n)| <= width ==> |ZeroPadded(n, width)| == width
    ensures n >= 0 && |DecimalString(n)| >= width ==> ZeroPadded(n, width) == DecimalString(n)
    ensures n < 0 && 1 + |DecimalString(-n)| <= width ==> |ZeroPadded(n, width)| == width
    ensures n < 0 && 1 + |DecimalString(-n)| >= width ==> ZeroPadded(n, width) == "-" + DecimalString(-n)
  {
  }

  lemma Pad3OneDigit(n: nat)
    requires n < 10
    ensures Pad3(n) == ['0', '0', DigitChar(n)]
  {
    assert DecimalString(n) == [DigitChar(n)];
    assert Zeros(2) == "00";
  }

  lemma Pad3TwoDigits(n: nat)
    requires 10 <= n < 100
    ensures Pad3(n) == ['0', DigitChar(n / 10), DigitChar(n % 10)]
  {
    assert DecimalString(n / 10) == [DigitChar(n / 10)];
    assert DecimalString(n) == [DigitChar(n / 10), DigitChar(n % 10)];
    assert Zeros(1) == "0";
  }

  lemma Pad3ThreeDigits(n: nat)
    requires 100 <= n < 1000
    ensures Pad3(n) == [DigitChar(n / 100), DigitChar(n / 10 % 10), DigitChar(n % 10)]
  {
    assert DecimalString(n / 100) == [DigitChar(n / 100)];
    assert DecimalString(n / 10) == [DigitChar(n / 100), DigitChar(n / 10 % 10)];
    assert DecimalString(n) == [DigitChar(n / 100), DigitChar(n / 10 % 10), DigitChar(n % 10)];
    assert Zeros(0) == "";
  }

  /** A non-negative field below 1000 is exactly three digits: hundreds, tens, units. */
  lemma Pad3Small(n: int)
    requires 0 <= n < 1000
    ensures Pad3(n) == [DigitChar(n / 100), DigitChar(n / 10 % 10), DigitChar(n % 10)]
    ensures |Pad3(n)| == 3 && AllDigits(Pad3(n)) && DigitsValue(Pad3(n)) == n
  {
    if n < 10 {
      Pad3OneDigit(n);
      assert DigitChar(0) == '0';
    } else if n < 100 {
      Pad3TwoDigits(n);
      assert DigitChar(0) == '0';
    } else {
      Pad3ThreeDigits(n);
    }
    ZeroPaddedRoundTrip(n, 3);
  }

  /** From 1000 up the field is the full numeral: longer than three, and not reduced modulo 1000. */
  lemma Pad3Wide(n: int)
    requires n >= 1000
    ensures Pad3(n) == DecimalString(n) && |Pad3(n)| > 3
    ensures AllDigits(Pad3(n)) && DigitsValue(Pad3(n)) == n
  {
    var r := DecimalString(n);
    DecimalStringLength(n);
    assert Pow10(1) == 10 && Pow10(2) == 100 && Pow10(3) == 1000;
    assert |r| > 3;
    ZeroPaddedWidth(n, 3);
    DecimalStringValue(n);
  }

  /** A negative field starts with a minus sign, so it is not a digit field. */
  lemma Pad3Negative(n: int)
    requires n < 0
    ensures Pad3(n)[0] == '-' && !AllDigits(Pad3(n))
    ensures -100 < n ==> |Pad3(n)| == 3
    ensures n <= -100 ==> Pad3(n) == "-" + DecimalString(-n)
  {
    var r := DecimalString(-n);
    DecimalStringLength(-n);
    assert Pow10(1) == 10 && Pow10(2) == 100;
    assert -100 < n ==> |r| <= 2;
    assert n <= -100 ==> |r| >= 3;
    ZeroPaddedWidth(n, 3);
    assert !IsDigit(Pad3(n)[0]);
  }

  lemma Pad3Examples()
    ensures Pad3(5) == "005"
    ensures Pad3(123) == "123"
    ensures Pad3(1234) == "1234"
    ensures Pad3(-5) == "-05"
  {
    Pad3Small(5);
    Pad3Small(123);
    assert DecimalString(1) == "1";
    assert DecimalString(12) == "12";
    assert DecimalString(123) == "123";
    assert DecimalString(1234) == "1234";
    Pad3Wide(1234);
    assert DecimalString(5) == "5";
  }
}
