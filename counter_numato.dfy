/** The pulse water counter read through a Numato board's GPIO pin
    (icomputer/counter_numato.py). Each reading of the pin is a parameter;
    the count goes up by one on every change from off to on. */
module CounterNumato {
  import opened Wrappers

  type Byte = b: int | 0 <= b < 256

  /** Reading the reply's second element fails on a reply shorter than two. */
  datatype ReplyError = IndexOutOfRange

  /** `str(voltage_pin)`: None becomes the text "None". */
  function PinText(voltagePin: Option<string>): string {
    if voltagePin.Some? then voltagePin.value else "None"
  }

  /** The GPIO commands, built from the voltage pin in both cases. */
  function GpioSetCommand(voltagePin: string): string {
    "gpio set " + voltagePin + "\n\r"
  }

  function GpioReadCommand(voltagePin: string): string {
    "gpio read " + voltagePin + "\n\r"
  }

  /** `get_current_value` as written: the reply is bytes, so `response[1]` is
      a number and never equals the text 'n'; every reply reads as off. */
  function ReplyReadingAsWritten(reply: seq<Byte>): Result<bool, ReplyError> {
    if |reply| < 2 then Failure(IndexOutOfRange) else Success(false)
  }

  /** The reading as intended: on exactly when the reply's second byte is the
      letter 'n' (as in "on"). */
  function ReplyReading(reply: seq<Byte>): Result<bool, ReplyError> {
    if |reply| < 2 then Failure(IndexOutOfRange) else Success(reply[1] == 'n' as int)
  }

  /** The reply "on" shows the difference. */
  lemma AsWrittenMissesOn()
    ensures ReplyReadingAsWritten(['o' as int, 'n' as int]) == Success(false)
    ensures ReplyReading(['o' as int, 'n' as int]) == Success(true)
  {
  }

  datatype CounterState = CounterState(count: int, lastVal: bool)

  /** `update` with the current reading. */
  function Updated(s: CounterState, reading: bool): CounterState {
    if reading == s.lastVal then s
    else CounterState(if reading then s.count + 1 else s.count, reading)
  }

  function UpdatedAll(s: CounterState, readings: seq<bool>): CounterState
    decreases |readings|
  {
    if readings == [] then s else UpdatedAll(Updated(s, readings[0]), readings[1..])
  }

  /** The number of off-to-on changes in `readings`, starting from `last`. */
  function RisingEdges(last: bool, readings: seq<bool>): nat
    decreases |readings|
  {
    if readings == [] then 0
    else (if !last && readings[0] then 1 else 0) + RisingEdges(readings[0], readings[1..])
  }

  /** Over any run of readings the counter adds exactly the rising edges and
      remembers the last reading. */
  lemma {:induction false} UpdatesCountRisingEdges(s: CounterState, readings: seq<bool>)
    ensures UpdatedAll(s, readings).count == s.count + RisingEdges(s.lastVal, readings)
    ensures UpdatedAll(s, readings).lastVal == if readings == [] then s.lastVal else readings[|readings| - 1]
    decreases |readings|
  {
    if readings != [] {
      UpdatesCountRisingEdges(Updated(s, readings[0]), readings[1..]);
    }
  }

  /** One update adds one exactly on an off-to-on change and never lowers the count. */
  lemma UpdateStep(s: CounterState, reading: bool)
    ensures Updated(s, reading).count == s.count + (if !s.lastVal && reading then 1 else 0)
    ensures Updated(s, reading).count >= s.count
    ensures Updated(s, reading).lastVal == reading
  {
  }

  /** With the written reply check every reading is off, so the count never
      moves, whatever the pin does. */
  lemma {:induction false} AsWrittenNeverCounts(s: CounterState, replies: seq<seq<Byte>>)
    requires !s.lastVal
    requires forall i :: 0 <= i < |replies| ==> ReplyReadingAsWritten(replies[i]).Success?
    ensures UpdatedAll(s, seq(|replies|, i requires 0 <= i < |replies| => ReplyReadingAsWritten(replies[i]).value)) == s
    decreases |replies|
  {
    var readings := seq(|replies|, i requires 0 <= i < |replies| => ReplyReadingAsWritten(replies[i]).value);
    if replies != [] {
      var rest := seq(|replies| - 1, i requires 0 <= i < |replies| - 1 => ReplyReadingAsWritten(replies[1..][i]).value);
      assert readings[1..] == rest;
      AsWrittenNeverCounts(s, replies[1..]);
    }
  }

  /** With the intended reply check the counter counts: a counter that read
      off and then gets the replies "off" and "on" goes up by one. */
  lemma IntendedCountsOn(s: CounterState)
    requires !s.lastVal
    ensures ReplyReading(['o' as int, 'f' as int, 'f' as int]) == Success(false)
    ensures ReplyReading(['o' as int, 'n' as int]) == Success(true)
    ensures UpdatedAll(s, [false, true]).count == s.count + 1
  {
    UpdatesCountRisingEdges(s, [false, true]);
    assert [false, true][1..] == [true];
  }

  class CounterNumato {
    const iopin: string
    const portName: string
    const voltagePin: string
    var lastVal: bool
    var count: int
    /** The commands written to the board's serial port, in order. */
    var sent: seq<string>

    function State(): CounterState
      reads this
    {
      CounterState(count, lastVal)
    }

    /** A new counter starts at zero with the pin's current reading. The
        voltage pin is kept as text; when one is given it is set first, and
        the first reading reads the voltage pin, not `iopin`. */
    constructor (iopin: string, reading: bool, voltagePin: Option<string> := None,
                 portName: string := "/dev/tty.usbmodem1421")
      ensures this.iopin == iopin && this.portName == portName
      ensures this.voltagePin == PinText(voltagePin)
      ensures State() == CounterState(0, reading)
      ensures sent == (if voltagePin.Some? then [GpioSetCommand(voltagePin.value)] else [])
                      + [GpioReadCommand(PinText(voltagePin))]
    {
      this.iopin := iopin;
      this.portName := portName;
      this.voltagePin := PinText(voltagePin);
      sent := if voltagePin.Some? then [GpioSetCommand(voltagePin.value)] else [];
      sent := sent + [GpioReadCommand(PinText(voltagePin))];
      lastVal := reading;
      count := 0;
    }

    /** `update`: one reading of the voltage pin, counted on a rising edge. */
    method Update(reading: bool)
      modifies this
      ensures State() == Updated(old(State()), reading)
      ensures sent == old(sent) + [GpioReadCommand(voltagePin)]
    {
      sent := sent + [GpioReadCommand(voltagePin)];
      if reading == lastVal {
        return;
      }
      lastVal := reading;
      if reading {
        count := count + 1;
      }
    }

    /** `reset`: the count is cleared and the voltage pin read again. */
    method Reset(reading: bool)
      modifies this
      ensures State() == CounterState(0, reading)
      ensures sent == old(sent) + [GpioReadCommand(voltagePin)]
    {
      sent := sent + [GpioReadCommand(voltagePin)];
      count := 0;
      lastVal := reading;
    }
  }
}
