# Tungsten-lamp command frames, in Dafny

This project models the command side of the `TungstenLamp` driver of the
QE-bench instrument-control code. The driver controls the power supply of
the tungsten lamp. Each lamp operation turns into one carriage-return
terminated ASCII frame, and that frame is handed to the transport hook
`_send_message`:

| operation | frame |
|---|---|
| `off` | `SOUT001\r` |
| `on` | `SOUT000\r` |
| `volt(voltage)` | `VOLT00` + `'{:03d}'` of `int(voltage * 10)` + `\r` |
| `current(current)` | `CURR00` + `'{:03d}'` of `int(current)` + `\r` |
| `get_settings` | `GETS00\r`, then one call of the receive hook |

Files:

- `decimal.dfy` (module `Decimal`). Python's `str(n)` and `'{:0{width}d}'` as
  functions, plus `IsNumeral`/`NumeralValue`, the reader they are proved against. The
  zero-padded form is sign-aware (`-5` gives `-05`). Its width is a minimum,
  so values from 1000 up keep all their digits.
- `frames.dfy` (module `CommandFrames`). The five frames, a `Command` datatype
  for the five operations, and `Parse`, the reading side. `Parse` is not in the
  driver. It is there to prove that every frame reads back as its own command.
- `sanitize.dfy` (module `Sanitize`). The truncation `int(x)` applied to exact
  real numbers, and the field each operation derives from its argument. Its
  lemmas state the range of voltages that fit three digits (`VoltInRange`),
  what happens above that range (`VoltNotWrapped`), the examples in the
  comments, and the scaling bug of `current` (see Findings).
- `tungsten_lamp.dfy` (module `Lamp`). The `TungstenLamp` class. Its `trace`
  field records every call to the two stubbed hooks, in order.
  `SendMessage`/`ReceiveMessage` append to it. Each operation method states
  its whole new trace. A ghost `history` with `Valid()` ties the trace to the
  operations called so far, so `Sent()` is always exactly their frames.

What the code does, where it is easy to assume otherwise:
- Frames are not all the same length. `SOUT001\r`/`SOUT000\r` are 8
  characters and `GETS00\r` is 7. For fields 0-999, `VOLT00ddd\r`/`CURR00ddd\r`
  are 10 (`CommandFrames.FixedFrameLengths`, `CommandFrames.NumericFrameLayout`).
- `int()` truncates toward zero; it does not round (`Sanitize.TruncateTowardZero`).
- `'{:03d}'` is a minimum width. Nothing is reduced modulo 1000, so fields
  from 1000 up are sent with all their digits (`Decimal.Pad3Wide`,
  `CommandFrames.WideNumericFrame`, `Sanitize.VoltNotWrapped`).
- `current` does not scale its argument, although its own comment at
  tungsten_lamp.py:46-49 describes a field in hundredths of an amp (see
  Findings).

## Model

| member | source | states |
|---|---|---|
| `Decimal.ZeroPadded` | tungsten_lamp.py:41-51 | computes `'{:0{width}d}'`: the sign for negative n, '0' fill up to the width, then the digits of abs(n); its contract is stated by `ZeroPaddedRoundTrip`, `ZeroPaddedChars` and `ZeroPaddedWidth` |
| `Decimal.Pad3` | tungsten_lamp.py:41-51 | computes `'{:03d}'`, the zero-padded form of width 3; its contract is stated by `Pad3Small`, `Pad3Wide`, `Pad3Negative` and `Pad3Examples` |
| `Decimal.DecimalString` | tungsten_lamp.py:41 | the decimal numeral of n is a non-empty string of digits |
| `Decimal.DecimalStringLength` | tungsten_lamp.py:41 | str(n) has no leading zero except for 0, and exactly as many digits as n needs: 10^(len-1) <= n < 10^len |
| `Decimal.DecimalStringValue` | tungsten_lamp.py:41 | the digits of str(n) read back as n |
| `Decimal.LeadingZerosValue` | tungsten_lamp.py:41 | zero padding keeps a numeral all digits and keeps its value |
| `Decimal.ZeroPaddedRoundTrip` | tungsten_lamp.py:41 | for every integer n and width, the zero-padded numeral reads back as n (no truncation, wrap or loss) |
| `Decimal.ZeroPaddedChars` | tungsten_lamp.py:41 | the padded numeral is digits only, except one leading '-' exactly when n is negative |
| `Decimal.ZeroPaddedWidth` | tungsten_lamp.py:41 | the width is a minimum: never shorter, exactly the width when the numeral fits, the bare numeral when it does not |
| `Decimal.Pad3Small` | tungsten_lamp.py:41 | for 0 <= n < 1000, '{:03d}' is exactly the hundreds, tens and units digits of n, value n |
| `Decimal.Pad3Wide` | tungsten_lamp.py:41 | for n >= 1000, '{:03d}' is str(n), longer than 3 characters, value n, not reduced modulo 1000 |
| `Decimal.Pad3Negative` | tungsten_lamp.py:41 | for n < 0 the field starts with '-' and is not a digit field; 3 characters for -99..-1 |
| `Decimal.Pad3Examples` | tungsten_lamp.py:34-41 | 5 gives 005, 123 gives 123, 1234 gives 1234, -5 gives -05 |
| `CommandFrames.OffFrame` | tungsten_lamp.py:27 | the constant frame `SOUT001\r`; its length 8 is stated by `FixedFrameLengths`, its parse by `EncodeParse` |
| `CommandFrames.OnFrame` | tungsten_lamp.py:31 | the constant frame `SOUT000\r`; its length 8 is stated by `FixedFrameLengths`, its parse by `EncodeParse` |
| `CommandFrames.GetsFrame` | tungsten_lamp.py:58 | the constant frame `GETS00\r`; its length 7 is stated by `FixedFrameLengths`, its parse by `EncodeParse` |
| `CommandFrames.VoltFrame` | tungsten_lamp.py:41 | computes `VOLT00` + `Pad3(n)` + '\r'; its layout is stated by `NumericFrameLayout` and `WideNumericFrame`, its parse by `EncodeParse` |
| `CommandFrames.CurrFrame` | tungsten_lamp.py:51 | computes `CURR00` + `Pad3(n)` + '\r'; its layout is stated by `NumericFrameLayout` and `WideNumericFrame`, its parse by `EncodeParse` |
| `CommandFrames.Encode` | tungsten_lamp.py:26-58 | maps each command to the frame its operation sends; `EncodeParse`, `EncodeInjective` and `EncodeIsOneFrame` state its contract |
| `CommandFrames.EncodeParse` | tungsten_lamp.py:26-58 | every command's frame, for every integer field, parses back to that command |
| `CommandFrames.EncodeInjective` | tungsten_lamp.py:26-58 | two different operations or fields never produce the same frame |
| `CommandFrames.EncodeIsOneFrame` | tungsten_lamp.py:26-58 | every frame ends in '\r' and contains no other '\r' |
| `CommandFrames.NumericFrameLayout` | tungsten_lamp.py:41-51 | for a field 0..999 the volt/current frame is 10 characters: opcode VOLT00/CURR00, three digits at 6..8 whose value is the field, '\r' at 9 |
| `CommandFrames.WideNumericFrame` | tungsten_lamp.py:41-51 | for a field >= 1000 the frame is longer than 10 and its field is the full numeral of the value |
| `CommandFrames.FrameExamples` | tungsten_lamp.py:34-51 | VOLT00123\r for 123, CURR00004\r for 4, VOLT001234\r for 1234, VOLT00-05\r for -5 |
| `Sanitize.TruncateTowardZero` | tungsten_lamp.py:40-50 | int(x) is the integer part of x, truncated toward zero, for both signs |
| `Sanitize.VoltField` | tungsten_lamp.py:40 | the field is the voltage in whole tenths of a volt, truncated toward zero: r/10 <= v < (r+1)/10 for v >= 0, mirrored for v < 0 |
| `Sanitize.CurrentFieldAsWritten` | tungsten_lamp.py:50 | as written, the field is the current in whole amps, truncated toward zero: r <= c < r+1 for c >= 0, mirrored for c < 0 |
| `Sanitize.CurrentFieldIntended` | tungsten_lamp.py:46-49 | as the comment intends, the field is the current in whole hundredths of an amp, truncated toward zero: r/100 <= c < (r+1)/100 for c >= 0, mirrored for c < 0 |
| `Sanitize.VoltTenths` | tungsten_lamp.py:39-40 | a voltage of k tenths gives the field k |
| `Sanitize.VoltInRange` | tungsten_lamp.py:34-41 | voltages 0 <= v < 100 give a field 0..999 and a 10-character frame |
| `Sanitize.VoltNotWrapped` | tungsten_lamp.py:40-41 | voltages from 100 up give a field >= 1000 and a frame longer than 10 |
| `Sanitize.VoltCommentExample` | tungsten_lamp.py:34-41 | 12.3 V gives field 123 and frame VOLT00123\r, as the comment says |
| `Sanitize.CurrentAsWrittenDropsHundredths` | tungsten_lamp.py:50 | as written, a current of k hundredths gives field k / 100, which equals k only for k = 0 |
| `Sanitize.CurrentCommentCounterexample` | tungsten_lamp.py:45-51 | as written, 4.56 A gives CURR00004\r, not the CURR00456\r of the comment |
| `Sanitize.CurrentIntendedHundredths` | tungsten_lamp.py:45-49 | with the intended scaling, a current of k hundredths gives the field k |
| `Sanitize.CurrentIntendedLayout` | tungsten_lamp.py:45-51 | with the intended scaling, 0.00..9.99 A gives a 10-character frame whose digits read back as the hundredths |
| `Sanitize.CurrentIntendedExample` | tungsten_lamp.py:45-49 | with the intended scaling, 4.56 A gives CURR00456\r |
| `Lamp.OperationSendsOneFrame` | tungsten_lamp.py:26-64 | each operation makes one hook call, and get_settings makes two; the first call sends the operation's own frame, and it is the only frame sent; get_settings's second call is receive with '' |
| `Lamp.RunSends` | tungsten_lamp.py:26-58 | after any sequence of operations the send log is exactly their frames, one each, in call order |
| `Lamp.TungstenLamp.constructor` | tungsten_lamp.py:7-14 | a new driver has made no hook calls |
| `Lamp.TungstenLamp.SendMessage` | tungsten_lamp.py:20-21 | the send hook records its frame and nothing else |
| `Lamp.TungstenLamp.ReceiveMessage` | tungsten_lamp.py:23-24 | the receive hook records its argument and nothing else |
| `Lamp.TungstenLamp.Off` | tungsten_lamp.py:26-28 | appends exactly SOUT001\r to the trace; the send log stays the frames of the operations so far |
| `Lamp.TungstenLamp.On` | tungsten_lamp.py:30-31 | appends exactly SOUT000\r to the trace; the send log stays the frames of the operations so far |
| `Lamp.TungstenLamp.Volt` | tungsten_lamp.py:33-43 | appends exactly VOLT00 + '{:03d}' of the truncated value + '\r' |
| `Lamp.TungstenLamp.Current` | tungsten_lamp.py:45-53 | appends exactly CURR00 + '{:03d}' of the truncated value + '\r' |
| `Lamp.TungstenLamp.GetSettings` | tungsten_lamp.py:55-67 | sends GETS00\r, then calls receive with ''; nothing else changes and nothing is decoded |

## Findings

| source | as written | input that shows it | evidently intended | confidence | as-written member | corrected member |
|---|---|---|---|---|---|---|
| tungsten_lamp.py:50 | `int(current)`: whole amps, no scaling | 4.56 A gives field 4 and frame `CURR00004\r` | the current in whole hundredths (456 for 4.56 A, `CURR00456\r`), as the comment at lines 45-49 says; a fix on floats must round, e.g. `round(current * 100)`, since `int(4.56 * 100)` is 455 | high that the comment and code disagree, not executed | `Sanitize.CurrentCommentCounterexample` | `Sanitize.CurrentIntendedLayout` |

`Lamp.TungstenLamp.Current` takes the truncated field itself, so it sends the
same frame under either reading; the two readings differ only in the
truncation step. `Sanitize.CurrentFieldAsWritten` is the code as written and
`Sanitize.CurrentFieldIntended` is the corrected step, stated on exact reals
(see Left out for what that means on floats).

## Left out

- Lamp.TungstenLamp.Volt: takes the already-truncated `int(voltage * 10)`
  rather than the float. `Sanitize.VoltField` models that step on exact reals.
  A binary float product can land just below the integer that the decimal
  input suggests, and would then truncate one lower. That is not modelled.
- Lamp.TungstenLamp.Current: takes the already-truncated `int(current)`, which
  `Sanitize.CurrentFieldAsWritten` models. That step has no float product,
  so the exact-real model agrees with Python on every finite float.
- Sanitize.CurrentFieldIntended: truncates the exact product `current * 100`.
  On Python floats, `int(current * 100)` can come out one lower: 4.56 * 100 is
  455.99999999999994, so 4.56 A would give 455. For an input given in whole
  hundredths, the intended float step is therefore `round(current * 100)`,
  and that gives the field this function gives.
- Non-finite inputs: `int()` raises ValueError for NaN and OverflowError for
  an infinity. Exact reals have neither, so these error paths are not modelled.
- Replies: `_recieve_message` is a stub, and `get_settings` decodes nothing.
  The `123456\rOK\r` reply shape is only a comment at lines 61-63, so no reply
  decoder is modelled. The receive hook is only recorded as called.
- Session frames `SESS00` and `SVOP00`: they appear only in comments at lines
  12-13 and are never sent.
- The connection: `__init__` sets nothing up, so the address and port are
  unused parameters.
- Error handling and logging: they appear only as comments, at lines 28, 43,
  53, 59 and 65, with no code behind them.
- controller.py and andorcam.py: pass-through wrappers over an external
  keyword service, with print side effects. qe_api.py and monochromator.py:
  every method is a stub. example.py calls functions that are not defined.
  bellowslifter.py: raw socket I/O at module level. None of these is part of
  this model.
