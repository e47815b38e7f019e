/**
 * The ASCII command frames of the tungsten-lamp power supply
 * (tungsten_lamp.py, `off`, `on`, `volt`, `current`, `get_settings`).
 * Every frame is one carriage-return-terminated string. The numeric field
 * of the voltage and current frames is `'{:03d}'` of the already-truncated
 * integer, so it is three digits wide only for values 0 through 999.
 * `Parse` is the reading side: it is not part of the driver, and is here
 * to state that the frames are unambiguous.
 */
module CommandFrames {
  import opened Decimal

  datatype Option<T> = None | Some(value: T)

  /** One lamp operation; `field` is the integer already truncated by the caller of the frame. */
  datatype Command =
    | PowerOff
    | PowerOn
    | SetVoltage(field: int)
    | SetCurrent(field: int)
    | GetSettings

  function OffFrame(): string { "SOUT001\r" }

  function OnFrame(): string { "SOUT000\r" }

  function GetsFrame(): string { "GETS00\r" }

  /** `'VOLT00{:03d}\r'.format(n)`. */
  function VoltFrame(n: int): string { "VOLT00" + Pad3(n) + "\r" }

  /** `'CURR00{:03d}\r'.format(n)`. */
  function CurrFrame(n: int): string { "CURR00" + Pad3(n) + "\r" }

  function Encode(c: Command): string {
    match c
    case PowerOff => OffFrame()
    case PowerOn => OnFrame()
    case SetVoltage(n) => VoltFrame(n)
    case SetCurrent(n) => CurrFrame(n)
    case GetSettings => GetsFrame()
  }

  /** Exactly one command: the last character is the only carriage return. */
  predicate IsOneFrame(s: string) {
    |s| >= 1 && s[|s| - 1] == '\r' && forall i :: 0 <= i < |s| - 1 ==> s[i] != '\r'
  }

  /** Reads a frame back into the command it encodes, if it encodes one. */
  function Parse(frame: string): Option<Command> {
    if |frame| == 0 || frame[|frame| - 1] != '\r' then None
    else
      var body := frame[..|frame| - 1];
      if body == "SOUT001" then Some(PowerOff)
      else if body == "SOUT000" then Some(PowerOn)
      else if body == "GETS00" then Some(GetSettings)
      else if |body| >= 6 && body[..6] == "VOLT00" && IsNumeral(body[6..]) then
        Some(SetVoltage(NumeralValue(body[6..])))
      else if |body| >= 6 && body[..6] == "CURR00" && IsNumeral(body[6..]) then
        Some(SetCurrent(NumeralValue(body[6..])))
      else None
  }

  lemma NumericFrameSplit(head: string, n: int)
    requires |head| == 6
    ensures var f := head + Pad3(n) + "\r";
      |f| == 7 + |Pad3(n)| && f[..6] == head && f[6..|f| - 1] == Pad3(n) && f[|f| - 1] == '\r'
  {
  }

  lemma VoltFrameParse(n: int)
    ensures Parse(VoltFrame(n)) == Some(SetVoltage(n))
  {
    var f := VoltFrame(n);
    NumericFrameSplit("VOLT00", n);
    ZeroPaddedRoundTrip(n, 3);
    var body := f[..|f| - 1];
    assert body[..6] == "VOLT00" && body[6..] == Pad3(n);
    assert body[0] == 'V';
  }

  lemma CurrFrameParse(n: int)
    ensures Parse(CurrFrame(n)) == Some(SetCurrent(n))
  {
    var f := CurrFrame(n);
    NumericFrameSplit("CURR00", n);
    ZeroPaddedRoundTrip(n, 3);
    var body := f[..|f| - 1];
    assert body[..6] == "CURR00" && body[6..] == Pad3(n);
    assert body[0] == 'C';
  }

  /** Every command's frame reads back as that command, for every integer field. */
  lemma EncodeParse(c: Command)
    ensures Parse(Encode(c)) == Some(c)
  {
    match c
    case SetVoltage(n) =>
      VoltFrameParse(n);
    case SetCurrent(n) =>
      CurrFrameParse(n);
    case PowerOff =>
      assert OffFrame()[..7] == "SOUT001";
    case PowerOn =>
      assert OnFrame()[..7] == "SOUT000";
    case GetSettings =>
      assert GetsFrame()[..6] == "GETS00";
  }

  /** Different commands never share a frame. */
  lemma EncodeInjective(c: Command, d: Command)
    requires Encode(c) == Encode(d)
    ensures c == d
  {
    EncodeParse(c);
    EncodeParse(d);
  }

  lemma NumericFrameIsOneFrame(head: string, n: int)
    requires |head| == 6 && forall i :: 0 <= i < 6 ==> head[i] != '\r'
    ensures IsOneFrame(head + Pad3(n) + "\r")
  {
    NumericFrameSplit(head, n);
    ZeroPaddedChars(n, 3);
    var f := head + Pad3(n) + "\r";
    forall i | 6 <= i < |f| - 1
      ensures f[i] != '\r'
    {
      assert f[i] == Pad3(n)[i - 6];
    }
  }

  /** Every frame is one command terminated by its only carriage return. */
  lemma EncodeIsOneFrame(c: Command)
    ensures IsOneFrame(Encode(c))
  {
    match c
    case SetVoltage(n) =>
      NumericFrameIsOneFrame("VOLT00", n);
    case SetCurrent(n) =>
      NumericFrameIsOneFrame("CURR00", n);
    case _ =>
  }

  /**
   * For a field 0 through 999 a voltage or current frame is ten characters:
   * six of opcode, three ASCII digits whose value is the field, the terminator.
   */
  lemma NumericFrameLayout(c: Command)
    requires c.SetVoltage? || c.SetCurrent?
    requires 0 <= c.field < 1000
    ensures var f := Encode(c);
      && |f| == 10
      && f[..6] == (if c.SetVoltage? then "VOLT00" else "CURR00")
      && AllDigits(f[6..9]) && DigitsValue(f[6..9]) == c.field
      && f[9] == '\r'
  {
    NumericFrameSplit(if c.SetVoltage? then "VOLT00" else "CURR00", c.field);
    Pad3Small(c.field);
  }

  lemma WideField(head: string, n: int)
    requires |head| == 6 && n >= 1000
    ensures var f := head + Pad3(n) + "\r";
      |f| > 10 && f[6..|f| - 1] == DecimalString(n) && DigitsValue(f[6..|f| - 1]) == n
  {
    NumericFrameSplit(head, n);
    Pad3Wide(n);
  }

  /** From 1000 up the field is neither cut, wrapped nor refused: the frame just grows. */
  lemma WideNumericFrame(c: Command)
    requires c.SetVoltage? || c.SetCurrent?
    requires c.field >= 1000
    ensures var f := Encode(c);
      && |f| > 10
      && f[6..|f| - 1] == DecimalString(c.field)
      && DigitsValue(f[6..|f| - 1]) == c.field
  {
    if c.SetVoltage? {
      WideField("VOLT00", c.field);
    } else {
      WideField("CURR00", c.field);
    }
  }

  /** The fixed frames are eight (output switch) and seven (query) characters long. */
  lemma FixedFrameLengths()
    ensures |OffFrame()| == 8 && |OnFrame()| == 8 && |GetsFrame()| == 7
  {
  }

  lemma FrameExamples()
    ensures VoltFrame(123) == "VOLT00123\r"
    ensures CurrFrame(456) == "CURR00456\r"
    ensures CurrFrame(4) == "CURR00004\r"
    ensures VoltFrame(1234) == "VOLT001234\r"
    ensures VoltFrame(-5) == "VOLT00-05\r"
  {
    Pad3Examples();
    Pad3Small(456);
    Pad3Small(4);
    assert DigitChar(4) == '4' && DigitChar(5) == '5' && DigitChar(6) == '6' && DigitChar(0) == '0';
  }
}
