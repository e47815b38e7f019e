/**
 * The `TungstenLamp` driver object (tungsten_lamp.py). Its transport hooks
 * `_send_message` and `_recieve_message` are stubs in the source; here each
 * call to them is recorded, in order, in the `trace` field, so that what an
 * operation would put on the wire can be stated and proved.
 */
module Lamp {
  import opened CommandFrames

  /** One call to a transport hook: the frame handed to send, or the argument handed to receive. */
  datatype Event = SendCall(frame: string) | ReceiveCall(arg: string)

  /** The frame an event hands to the send hook, if any. */
  function FrameOf(e: Event): seq<string> {
    if e.SendCall? then [e.frame] else []
  }

  /** The frames handed to the send hook, in order. */
  function SentFrames(t: seq<Event>): seq<string> {
    if t == [] then [] else FrameOf(t[0]) + SentFrames(t[1..])
  }

  lemma {:induction false} SentFramesAppend(a: seq<Event>, b: seq<Event>)
    ensures SentFrames(a + b) == SentFrames(a) + SentFrames(b)
  {
    if a == [] {
      assert a + b == b;
    } else {
      var ab := a + b;
      assert ab[0] == a[0];
      assert ab[1..] == a[1..] + b;
      SentFramesAppend(a[1..], b);
      calc {
        SentFrames(ab);
        FrameOf(a[0]) + SentFrames(a[1..] + b);
        FrameOf(a[0]) + (SentFrames(a[1..]) + SentFrames(b));
        (FrameOf(a[0]) + SentFrames(a[1..])) + SentFrames(b);
      }
    }
  }

  /** The hook calls one operation makes: its frame, then, for the settings query only, one receive. */
  function OperationEvents(c: Command): seq<Event> {
    if c.GetSettings? then [SendCall(Encode(c)), ReceiveCall("")] else [SendCall(Encode(c))]
  }

  /** The hook calls of a sequence of operations, in call order. */
  function Run(ops: seq<Command>): seq<Event> {
    if ops == [] then [] else Run(ops[..|ops| - 1]) + OperationEvents(ops[|ops| - 1])
  }

  function EncodeAll(ops: seq<Command>): (r: seq<string>)
    ensures |r| == |ops|
    ensures forall i :: 0 <= i < |ops| ==> r[i] == Encode(ops[i])
  {
    if ops == [] then [] else EncodeAll(ops[..|ops| - 1]) + [Encode(ops[|ops| - 1])]
  }

  /**
   * Every operation sends exactly its own frame, one carriage-return
   * terminated command, and sends it before it calls the receive hook.
   */
  lemma OperationSendsOneFrame(c: Command)
    ensures |OperationEvents(c)| == if c.GetSettings? then 2 else 1
    ensures SentFrames(OperationEvents(c)) == [Encode(c)]
    ensures OperationEvents(c)[0] == SendCall(Encode(c))
    ensures forall i :: 1 <= i < |OperationEvents(c)| ==> OperationEvents(c)[i] == ReceiveCall("")
    ensures IsOneFrame(Encode(c))
  {
    EncodeIsOneFrame(c);
    if c.GetSettings? {
      var e := OperationEvents(c);
      assert e[1..][1..] == [];
      assert SentFrames(e[1..]) == [];
    }
  }

  /** After any sequence of operations the send log holds exactly their frames, one each, in order. */
  lemma {:induction false} RunSends(ops: seq<Command>)
    ensures SentFrames(Run(ops)) == EncodeAll(ops)
  {
    if ops != [] {
      var last := ops[|ops| - 1];
      RunSends(ops[..|ops| - 1]);
      SentFramesAppend(Run(ops[..|ops| - 1]), OperationEvents(last));
      OperationSendsOneFrame(last);
    }
  }

  lemma RunAppend(ops: seq<Command>, c: Command)
    ensures Run(ops + [c]) == Run(ops) + OperationEvents(c)
  {
    assert (ops + [c])[..|ops|] == ops;
  }

  class TungstenLamp {
    /** Every call made to the transport hooks, oldest first. */
    var trace: seq<Event>
    /** The operations called so far, oldest first. */
    ghost var history: seq<Command>

    ghost predicate Valid()
      reads this
    {
      trace == Run(history)
    }

    /** The frames sent so far. */
    function Sent(): seq<string>
      reads this
    {
      SentFrames(trace)
    }

    /** The source's constructor sets nothing up; the address and port are unused. */
    constructor (ipAddress: string, port: int)
      ensures Valid() && history == [] && trace == []
    {
      trace := [];
      history := [];
    }

    method SendMessage(outputString: string)
      modifies this`trace
      ensures trace == old(trace) + [SendCall(outputString)]
    {
      trace := trace + [SendCall(outputString)];
    }

    method ReceiveMessage(inputString: string)
      modifies this`trace
      ensures trace == old(trace) + [ReceiveCall(inputString)]
    {
      trace := trace + [ReceiveCall(inputString)];
    }

    /** Records operation `c` in the ghost history once its hook calls are in the trace. */
    ghost method Record(c: Command)
      requires trace == Run(history) + OperationEvents(c)
      modifies this`history
      ensures Valid() && history == old(history) + [c]
      ensures Sent() == EncodeAll(history)
    {
      RunAppend(history, c);
      history := history + [c];
      RunSends(history);
    }

    method Off()
      requires Valid()
      modifies this
      ensures Valid() && history == old(history) + [PowerOff]
      ensures trace == old(trace) + [SendCall("SOUT001\r")]
      ensures Sent() == old(Sent()) + ["SOUT001\r"] == EncodeAll(history)
    {
      SendMessage(OffFrame());
      Record(PowerOff);
      SentFramesAppend(old(trace), OperationEvents(PowerOff));
    }

    method On()
      requires Valid()
      modifies this
      ensures Valid() && history == old(history) + [PowerOn]
      ensures trace == old(trace) + [SendCall("SOUT000\r")]
      ensures Sent() == old(Sent()) + ["SOUT000\r"] == EncodeAll(history)
    {
      SendMessage(OnFrame());
      Record(PowerOn);
      SentFramesAppend(old(trace), OperationEvents(PowerOn));
    }

    /** `sanitizedInput` is `int(voltage * 10)`, the voltage in tenths of a volt. */
    method Volt(sanitizedInput: int)
      requires Valid()
      modifies this
      ensures Valid() && history == old(history) + [SetVoltage(sanitizedInput)]
      ensures trace == old(trace) + [SendCall(VoltFrame(sanitizedInput))]
      ensures Sent() == old(Sent()) + [VoltFrame(sanitizedInput)] == EncodeAll(history)
    {
      var command := VoltFrame(sanitizedInput);
      SendMessage(command);
      Record(SetVoltage(sanitizedInput));
      SentFramesAppend(old(trace), OperationEvents(SetVoltage(sanitizedInput)));
    }

    /** `sanitizedInput` is `int(current)`, the current in whole amps. */
    method Current(sanitizedInput: int)
      requires Valid()
      modifies this
      ensures Valid() && history == old(history) + [SetCurrent(sanitizedInput)]
      ensures trace == old(trace) + [SendCall(CurrFrame(sanitizedInput))]
      ensures Sent() == old(Sent()) + [CurrFrame(sanitizedInput)] == EncodeAll(history)
    {
      var command := CurrFrame(sanitizedInput);
      SendMessage(command);
      Record(SetCurrent(sanitizedInput));
      SentFramesAppend(old(trace), OperationEvents(SetCurrent(sanitizedInput)));
    }

    /** Sends the query, then calls the receive hook with an empty string; nothing is decoded. */
    method GetSettings()
      requires Valid()
      modifies this
      ensures Valid() && history == old(history) + [Command.GetSettings]
      ensures trace == old(trace) + [SendCall("GETS00\r"), ReceiveCall("")]
      ensures Sent() == old(Sent()) + ["GETS00\r"] == EncodeAll(history)
    {
      var rawOutputStr := "";
      SendMessage(GetsFrame());
      ReceiveMessage(rawOutputStr);
      Record(Command.GetSettings);
      SentFramesAppend(old(trace), OperationEvents(Command.GetSettings));
    }
  }
}
