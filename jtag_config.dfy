/** The adapter side of openocd_jtag_fast.py's JtagServer: the four pin
    numbers and their range check, the adapter calls the server makes (GPIO
    direction and pull, and the `openocd_jtag` bit-bang transfer), and the
    GPIO configuration those calls leave behind. The adapter itself is a
    recorded log of calls; what the hardware answers to a transfer is a
    function of everything sent to it so far, given from outside. */
module JtagConfig {
  import opened Base

  /** The four JTAG signals, in the order the constructor checks them. */
  datatype PinRole = Tdi | Tdo | Tms | Tck

  /** The pin numbers given to the constructor. */
  datatype Pins = Pins(tdi: int, tdo: int, tms: int, tck: int)

  /** The ValueError the constructor raises: "<role> pin out of range". */
  datatype PinError = PinOutOfRange(role: PinRole)

  datatype PinDirection = Input | Output

  /** The pull mode the server sets (PinPullMode.NONE; the other modes are
      never used here). */
  datatype PinPullMode = PullNone

  /** One call on the adapter object `pt`. */
  datatype AdapterCall =
    | SetDirection(pin: int, direction: PinDirection)
    | SetPull(pin: int, pull: PinPullMode)
    | Transfer(pins: Pins, data: seq<byte>)

  /** The adapter exposes GPIO pins 0 to 3. */
  predicate PinInRange(pin: int)
  {
    0 <= pin <= 3
  }

  /** The constructor's four range checks, TDI, TDO, TMS, TCK in that order;
      the first pin out of range decides the error. The pins need not be
      distinct. */
  function ValidatePins(p: Pins): (r: Outcome<PinError>)
    ensures r == Pass <==> PinInRange(p.tdi) && PinInRange(p.tdo) && PinInRange(p.tms) && PinInRange(p.tck)
    ensures !PinInRange(p.tdi) ==> r == Fail(PinOutOfRange(Tdi))
    ensures PinInRange(p.tdi) && !PinInRange(p.tdo) ==> r == Fail(PinOutOfRange(Tdo))
    ensures PinInRange(p.tdi) && PinInRange(p.tdo) && !PinInRange(p.tms) ==> r == Fail(PinOutOfRange(Tms))
    ensures PinInRange(p.tdi) && PinInRange(p.tdo) && PinInRange(p.tms) && !PinInRange(p.tck) ==> r == Fail(PinOutOfRange(Tck))
  {
    if !PinInRange(p.tdi) then Fail(PinOutOfRange(Tdi))
    else if !PinInRange(p.tdo) then Fail(PinOutOfRange(Tdo))
    else if !PinInRange(p.tms) then Fail(PinOutOfRange(Tms))
    else if !PinInRange(p.tck) then Fail(PinOutOfRange(Tck))
    else Pass
  }

  /** The GPIO calls of the constructor, in order: TDI, TMS and TCK as
      outputs, then TDO as an input without pull. */
  function SetupCalls(p: Pins): seq<AdapterCall>
  {
    [SetDirection(p.tdi, Output), SetDirection(p.tms, Output), SetDirection(p.tck, Output),
     SetDirection(p.tdo, Input), SetPull(p.tdo, PullNone)]
  }

  /** The `openocd_jtag` calls that forward `chunks`, one per chunk, in order. */
  function TransferCalls(p: Pins, chunks: seq<seq<byte>>): (calls: seq<AdapterCall>)
    ensures |calls| == |chunks|
    ensures forall i :: 0 <= i < |chunks| ==> calls[i] == Transfer(p, chunks[i])
  {
    if chunks == [] then [] else TransferCalls(p, chunks[..|chunks| - 1]) + [Transfer(p, chunks[|chunks| - 1])]
  }

  /** The direction a pin was last set to by `calls`, if any. */
  function DirectionOf(calls: seq<AdapterCall>, pin: int): Option<PinDirection>
  {
    if calls == [] then None
    else
      var last := calls[|calls| - 1];
      if last.SetDirection? && last.pin == pin then Some(last.direction)
      else DirectionOf(calls[..|calls| - 1], pin)
  }

  /** The pull mode a pin was last set to by `calls`, if any. */
  function PullOf(calls: seq<AdapterCall>, pin: int): Option<PinPullMode>
  {
    if calls == [] then None
    else
      var last := calls[|calls| - 1];
      if last.SetPull? && last.pin == pin then Some(last.pull)
      else PullOf(calls[..|calls| - 1], pin)
  }

  /** A later call on a pin overrides earlier ones; pins the later calls do
      not set keep their earlier setting. */
  lemma {:induction false} SettingsAppend(calls: seq<AdapterCall>, more: seq<AdapterCall>, pin: int)
    ensures DirectionOf(calls + more, pin) == if DirectionOf(more, pin).Some? then DirectionOf(more, pin) else DirectionOf(calls, pin)
    ensures PullOf(calls + more, pin) == if PullOf(more, pin).Some? then PullOf(more, pin) else PullOf(calls, pin)
    decreases |more|
  {
    if more != [] {
      var init := more[..|more| - 1];
      assert (calls + more)[..|calls + more| - 1] == calls + init;
      SettingsAppend(calls, init, pin);
    } else {
      assert calls + more == calls;
    }
  }

  /** Transfers never touch the GPIO configuration. */
  lemma {:induction false} TransfersKeepSettings(p: Pins, chunks: seq<seq<byte>>, pin: int)
    ensures DirectionOf(TransferCalls(p, chunks), pin) == None
    ensures PullOf(TransferCalls(p, chunks), pin) == None
    decreases |chunks|
  {
    if chunks != [] {
      var calls := TransferCalls(p, chunks);
      assert calls[..|calls| - 1] == TransferCalls(p, chunks[..|chunks| - 1]);
      TransfersKeepSettings(p, chunks[..|chunks| - 1], pin);
    }
  }

  /** The settings the five setup calls make on their own. */
  lemma SetupSettings(p: Pins, pin: int)
    ensures DirectionOf(SetupCalls(p), pin) ==
      if pin == p.tdo then Some(Input)
      else if pin == p.tdi || pin == p.tms || pin == p.tck then Some(Output)
      else None
    ensures PullOf(SetupCalls(p), pin) == if pin == p.tdo then Some(PullNone) else None
  {
    var c0 := [];
    var c1 := c0 + [SetDirection(p.tdi, Output)];
    var c2 := c1 + [SetDirection(p.tms, Output)];
    var c3 := c2 + [SetDirection(p.tck, Output)];
    var c4 := c3 + [SetDirection(p.tdo, Input)];
    var c5 := c4 + [SetPull(p.tdo, PullNone)];
    assert c5 == SetupCalls(p);
    assert c5[..4] == c4 && c4[..3] == c3 && c3[..2] == c2 && c2[..1] == c1 && c1[..0] == c0;
    assert DirectionOf(c5, pin) == DirectionOf(c4, pin);
    assert DirectionOf(c3, pin) == if pin == p.tck then Some(Output) else DirectionOf(c2, pin);
    assert DirectionOf(c2, pin) == if pin == p.tms then Some(Output) else DirectionOf(c1, pin);
    assert DirectionOf(c1, pin) == if pin == p.tdi then Some(Output) else None;
    assert PullOf(c4, pin) == None by {
      assert PullOf(c4, pin) == PullOf(c3, pin) == PullOf(c2, pin) == PullOf(c1, pin) == PullOf(c0, pin);
    }
  }

  /** Whatever the adapter was used for before, and however many chunks have
      been forwarded since, TDO is an input without pull and TDI, TMS and TCK
      are outputs, except that a pin shared with TDO ends up an input: the
      TDO call comes last and the pins are never checked for distinctness.
      Pins the server does not use keep their earlier setting. */
  lemma ConfiguredPins(before: seq<AdapterCall>, p: Pins, chunks: seq<seq<byte>>)
    ensures var calls := before + SetupCalls(p) + TransferCalls(p, chunks);
      && DirectionOf(calls, p.tdo) == Some(Input)
      && PullOf(calls, p.tdo) == Some(PullNone)
      && (p.tdi != p.tdo ==> DirectionOf(calls, p.tdi) == Some(Output))
      && (p.tms != p.tdo ==> DirectionOf(calls, p.tms) == Some(Output))
      && (p.tck != p.tdo ==> DirectionOf(calls, p.tck) == Some(Output))
      && (p.tdi == p.tdo ==> DirectionOf(calls, p.tdi) == Some(Input))
      && forall pin :: pin != p.tdi && pin != p.tdo && pin != p.tms && pin != p.tck ==>
           DirectionOf(calls, pin) == DirectionOf(before, pin) && PullOf(calls, pin) == PullOf(before, pin)
  {
    var calls := before + SetupCalls(p) + TransferCalls(p, chunks);
    forall pin
      ensures DirectionOf(calls, pin) == DirectionOf(before + SetupCalls(p), pin)
      ensures PullOf(calls, pin) == PullOf(before + SetupCalls(p), pin)
      ensures DirectionOf(before + SetupCalls(p), pin) == if DirectionOf(SetupCalls(p), pin).Some? then DirectionOf(SetupCalls(p), pin) else DirectionOf(before, pin)
      ensures PullOf(before + SetupCalls(p), pin) == if PullOf(SetupCalls(p), pin).Some? then PullOf(SetupCalls(p), pin) else PullOf(before, pin)
    {
      TransfersKeepSettings(p, chunks, pin);
      SettingsAppend(before + SetupCalls(p), TransferCalls(p, chunks), pin);
      SettingsAppend(before, SetupCalls(p), pin);
    }
    forall pin
      ensures DirectionOf(SetupCalls(p), pin) ==
        if pin == p.tdo then Some(Input)
        else if pin == p.tdi || pin == p.tms || pin == p.tck then Some(Output)
        else None
      ensures PullOf(SetupCalls(p), pin) == if pin == p.tdo then Some(PullNone) else None
    {
      SetupSettings(p, pin);
    }
  }

  /** TDI and TDO on the same pin pass the range checks. */
  lemma SharedPinsAccepted()
    ensures ValidatePins(Pins(0, 0, 1, 2)) == Pass
  {
  }

  /** The USB adapter as the server sees it: the log of calls made on it, and
      the hardware's answer to a transfer, which may depend on everything the
      adapter was sent before. An answer of None is a transfer that raised
      (the library's CommandExecutionFailedException or
      CommandExecutionTimeoutException). */
  class Adapter {
    var calls: seq<AdapterCall>
    const respond: seq<AdapterCall> -> Option<seq<byte>>

    constructor (respond: seq<AdapterCall> -> Option<seq<byte>>)
      ensures calls == [] && this.respond == respond
    {
      calls := [];
      this.respond := respond;
    }

    /** `gpio_set_direction`. */
    method GpioSetDirection(pin: int, direction: PinDirection)
      modifies this
      ensures calls == old(calls) + [SetDirection(pin, direction)]
    {
      calls := calls + [SetDirection(pin, direction)];
    }

    /** `gpio_set_pull`. */
    method GpioSetPull(pin: int, pull: PinPullMode)
      modifies this
      ensures calls == old(calls) + [SetPull(pin, pull)]
    {
      calls := calls + [SetPull(pin, pull)];
    }

    /** `openocd_jtag`: one bit-bang transfer on the four pins; the call is
        made (and logged) even when it raises. */
    method OpenocdJtag(pins: Pins, data: seq<byte>) returns (response: Option<seq<byte>>)
      modifies this
      ensures calls == old(calls) + [Transfer(pins, data)]
      ensures response == respond(calls)
    {
      calls := calls + [Transfer(pins, data)];
      response := respond(calls);
    }
  }
}
