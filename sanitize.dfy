/**
 * The step that turns the caller's number into the integer field of a
 * frame: `int(voltage * 10)` (tungsten_lamp.py:40) and, as written,
 * `int(current)` (tungsten_lamp.py:50). Numbers are exact reals here, so
 * `int` is truncation toward zero of the exact product; the binary
 * rounding of Python floats is not modelled, and neither are NaN and the
 * infinities, on which `int` raises ValueError and OverflowError.
 */
module Sanitize {
  import opened Decimal
  import opened CommandFrames

  /** `int(x)` on the exact value `x`: the integer part, truncated toward zero. */
  function TruncateTowardZero(x: real): (r: int)
    ensures 0.0 <= x ==> 0 <= r && r as real <= x < r as real + 1.0
    ensures x < 0.0 ==> r <= 0 && r as real - 1.0 < x <= r as real
  {
    if x >= 0.0 then x.Floor else -((-x).Floor)
  }

  /** `int(voltage * 10)`: the voltage in whole tenths of a volt, the fraction of a tenth dropped. */
  function VoltField(voltage: real): (r: int)
    ensures 0.0 <= voltage ==> 0 <= r && r as real / 10.0 <= voltage < (r + 1) as real / 10.0
    ensures voltage < 0.0 ==> r <= 0 && (r - 1) as real / 10.0 < voltage <= r as real / 10.0
  {
    TruncateTowardZero(voltage * 10.0)
  }

  /** `int(current)` as the code has it: whole amps, with no scaling. */
  function CurrentFieldAsWritten(current: real): (r: int)
    ensures 0.0 <= current ==> 0 <= r && r as real <= current < (r + 1) as real
    ensures current < 0.0 ==> r <= 0 && (r - 1) as real < current <= r as real
  {
    TruncateTowardZero(current)
  }

  /**
   * The scaling the comment beside the code describes: whole hundredths of an
   * amp, on the exact value. On floats this needs rounding, not `int`, since
   * the float product can fall just below the whole number.
   */
  function CurrentFieldIntended(current: real): (r: int)
    ensures 0.0 <= current ==> 0 <= r && r as real / 100.0 <= current < (r + 1) as real / 100.0
    ensures current < 0.0 ==> r <= 0 && (r - 1) as real / 100.0 < current <= r as real / 100.0
  {
    TruncateTowardZero(current * 100.0)
  }

  /** A voltage given in tenths keeps all of its digits. */
  lemma VoltTenths(k: int)
    ensures VoltField(k as real / 10.0) == k
  {
    assert (k as real / 10.0) * 10.0 == k as real;
  }

  /** Voltages from 0 up to (not including) 100 V give a ten-character frame whose field is the tenths. */
  lemma VoltInRange(voltage: real)
    requires 0.0 <= voltage < 100.0
    ensures 0 <= VoltField(voltage) < 1000
    ensures |VoltFrame(VoltField(voltage))| == 10
  {
    NumericFrameLayout(SetVoltage(VoltField(voltage)));
  }

  /** From 100 V up nothing is wrapped or refused: the field has four or more digits. */
  lemma VoltNotWrapped(voltage: real)
    requires voltage >= 100.0
    ensures VoltField(voltage) >= 1000
    ensures |VoltFrame(VoltField(voltage))| > 10
  {
    WideNumericFrame(SetVoltage(VoltField(voltage)));
  }

  /** The example in the comment of `volt`: 12.3 V is sent as `VOLT00123\r`. */
  lemma VoltCommentExample()
    ensures VoltField(12.3) == 123
    ensures VoltFrame(VoltField(12.3)) == "VOLT00123\r"
  {
    VoltTenths(123);
    assert 12.3 == 123 as real / 10.0;
    FrameExamples();
  }

  /** As written, a current given in hundredths loses its two decimal places. */
  lemma CurrentAsWrittenDropsHundredths(k: nat)
    ensures CurrentFieldAsWritten(k as real / 100.0) == k / 100
    ensures CurrentFieldAsWritten(k as real / 100.0) == k <==> k == 0
  {
    var x := k as real / 100.0;
    var q := k / 100;
    assert k == 100 * q + k % 100;
    assert q as real <= x < q as real + 1.0;
  }

  /** The comment of `current` promises `CURR00456\r` for 4.56 A; the code sends `CURR00004\r`. */
  lemma CurrentCommentCounterexample()
    ensures CurrentFieldAsWritten(4.56) == 4
    ensures CurrFrame(CurrentFieldAsWritten(4.56)) == "CURR00004\r"
    ensures CurrFrame(CurrentFieldAsWritten(4.56)) != "CURR00456\r"
  {
    CurrentAsWrittenDropsHundredths(456);
    assert 4.56 == 456 as real / 100.0;
    FrameExamples();
  }

  /** With the intended scaling a current given in hundredths keeps all of its digits. */
  lemma CurrentIntendedHundredths(k: int)
    ensures CurrentFieldIntended(k as real / 100.0) == k
  {
    assert (k as real / 100.0) * 100.0 == k as real;
  }

  /**
   * With the intended scaling, currents 0.00 through 9.99 A give a
   * ten-character frame whose three digits read back as the hundredths.
   */
  lemma CurrentIntendedLayout(k: int)
    requires 0 <= k < 1000
    ensures var f := CurrFrame(CurrentFieldIntended(k as real / 100.0));
      |f| == 10 && AllDigits(f[6..9]) && DigitsValue(f[6..9]) == k
  {
    CurrentIntendedHundredths(k);
    NumericFrameLayout(SetCurrent(k));
  }

  /** With the intended scaling, on the exact value 4.56, the example in the comment holds. */
  lemma CurrentIntendedExample()
    ensures CurrFrame(CurrentFieldIntended(4.56)) == "CURR00456\r"
  {
    CurrentIntendedHundredths(456);
    assert 4.56 == 456 as real / 100.0;
    FrameExamples();
  }
}
