/** A faucet driven by a Numato USB relay board (numatofaucet.py). It embeds
    the base faucet of faucet.py and only records a state change that the
    board accepted. Serial traffic is an abstract outcome. */
module NumatoFaucet {
  import opened Wrappers
  import opened Text
  import opened FaucetTypes
  import FaucetLegacy

  /** Why a relay number has no index: the undefined name `relayNum`
      (NameError), a code point past the Unicode range (ValueError from
      `chr`), or a surrogate code point, which a Dafny `char` cannot hold. */
  datatype RelayError = UndefinedName | CodePointTooLarge | SurrogateCodePoint

  /** `chr(55 + n)` for n >= 10. */
  function RelayChar(n: int): (r: Result<string, RelayError>)
    requires n >= 10
    ensures r.Success? <==> 55 + n <= 0x10FFFF && !(0xD800 <= 55 + n < 0xE000)
    ensures 55 + n > 0x10FFFF ==> r == Failure(CodePointTooLarge)
    ensures r.Success? ==> |r.value| == 1 && r.value[0] as int == 55 + n
  {
    var k := 55 + n;
    if k > 0x10FFFF then Failure(CodePointTooLarge)
    else if 0xD800 <= k < 0xE000 then Failure(SurrogateCodePoint)
    else Success([k as char])
  }

  /** `relay_idx_from_num` as written: the branch for numbers below 10 names
      `relayNum`, which is not defined, so it always raises. */
  function RelayIdxFromNumAsWritten(n: int): Result<string, RelayError> {
    if n < 10 then Failure(UndefinedName) else RelayChar(n)
  }

  /** `relay_idx_from_num` as intended: the decimal digits below 10, the
      letters from 'A' (for 10) on. */
  function RelayIdxFromNum(n: int): Result<string, RelayError> {
    if n < 10 then Success(DecimalString(n)) else RelayChar(n)
  }

  /** The board's name for relay 0..15: one hexadecimal digit, upper case. */
  function HexValue(s: string): Option<int> {
    if |s| != 1 then None
    else if '0' <= s[0] <= '9' then Some(s[0] as int - '0' as int)
    else if 'A' <= s[0] <= 'F' then Some(s[0] as int - 'A' as int + 10)
    else None
  }

  /** Every relay number of a 16-relay board gets the one-digit hexadecimal
      name that the board decodes back to that number. */
  lemma {:induction false} RelayIdxIsHexDigit(n: int)
    requires 0 <= n <= 15
    ensures RelayIdxFromNum(n).Success?
    ensures HexValue(RelayIdxFromNum(n).value) == Some(n)
  {
    if n < 10 {
      assert DecimalString(n) == [Digit(n)];
    }
  }

  /** As written, relay numbers 0..9 cannot be converted (relay 3 is one). */
  lemma AsWrittenRejectsLowRelays()
    ensures RelayIdxFromNumAsWritten(3) == Failure(UndefinedName)
    ensures RelayIdxFromNum(3) == Success("3")
  {
    assert DecimalString(3) == [Digit(3)];
  }

  /** From 10 on, the written and the intended conversions agree. */
  lemma AsWrittenAgreesFromTen(n: int)
    requires n >= 10
    ensures RelayIdxFromNumAsWritten(n) == RelayIdxFromNum(n)
  {
  }

  /** The serial command that switches a relay (`write_relay`). */
  function WriteRelayCommand(cmd: string, idx: string): string {
    "relay " + cmd + " " + idx + "\n\r"
  }

  /** The serial command that reads a relay (`read_relay`). */
  function ReadRelayCommand(idx: string): string {
    "relay read " + idx + "\n\r"
  }

  /** The board's reading of a relay command: verb and relay index. */
  function ParseRelayCommand(s: string): Option<(string, string)> {
    if |s| < 8 || s[..6] != "relay " || s[|s| - 2..] != "\n\r" then None
    else
      var fields := Split(s[6..|s| - 2], ' ');
      if |fields| == 2 then Some((fields[0], fields[1])) else None
  }

  /** The board recovers verb and index from every switch command whose verb
      and index contain no space. */
  lemma WriteCommandRoundTrip(cmd: string, idx: string)
    requires ' ' !in cmd && ' ' !in idx
    ensures ParseRelayCommand(WriteRelayCommand(cmd, idx)) == Some((cmd, idx))
  {
    var s := WriteRelayCommand(cmd, idx);
    assert s[..6] == "relay ";
    assert s[|s| - 2..] == "\n\r";
    assert s[6..|s| - 2] == cmd + [' '] + idx;
    SplitAtFirst(cmd, ' ', idx);
    SplitWithoutSep(idx, ' ');
  }

  /** A read command is the switch command with the verb "read". */
  lemma ReadIsReadVerb(idx: string)
    ensures ReadRelayCommand(idx) == WriteRelayCommand("read", idx)
  {
  }

  /** The board reads back verb "read" and the relay from every read
      command that `read_relay` sends for an index without a space. */
  lemma ReadCommandRoundTrip(relayIdx: RelayIdx, link: SerialLink, reply: string)
    requires relayIdx.RelayName? && ' ' !in relayIdx.text
    requires ReadRelay(relayIdx, link, reply).sent.Some?
    ensures ParseRelayCommand(ReadRelay(relayIdx, link, reply).sent.value) == Some(("read", relayIdx.text))
  {
    ReadIsReadVerb(relayIdx.text);
    WriteCommandRoundTrip("read", relayIdx.text);
  }

  /** The three serial steps of one exchange: opening the port, writing (and
      reading), closing. Each either succeeds or raises. */
  datatype SerialLink = SerialLink(opens: bool, writes: bool, closes: bool)

  /** What `write_relay` returns and which command reached the board. */
  datatype WriteOutcome = WriteOutcome(ok: bool, sent: Option<string>)

  function WriteRelay(relayIdx: RelayIdx, relayCmd: string, link: SerialLink): (r: WriteOutcome)
    ensures r.ok <==> link.opens && link.writes && link.closes
    ensures r.sent.Some? <==> link.opens && link.writes
    ensures r.sent.Some? ==> r.sent.value == WriteRelayCommand(relayCmd, RelayText(relayIdx))
  {
    var sent := if link.opens && link.writes then Some(WriteRelayCommand(relayCmd, RelayText(relayIdx))) else None;
    WriteOutcome(link.opens && link.writes && link.closes, sent)
  }

  /** What `read_relay` returns and which command reached the board. */
  datatype ReadOutcome = ReadOutcome(answer: Option<string>, sent: Option<string>)

  /** `read_relay`: the read command for the faucet's relay, then the first
      25 characters of the board's reply (`ser_port.read(25)`), or None when
      any step raises. A numeric relay index cannot be appended to the
      command text, so that step raises once the port is open. */
  function ReadRelay(relayIdx: RelayIdx, link: SerialLink, reply: string): (r: ReadOutcome)
    ensures r.sent.Some? <==> link.opens && relayIdx.RelayName? && link.writes
    ensures r.sent.Some? ==> r.sent.value == ReadRelayCommand(relayIdx.text)
    ensures r.answer.Some? <==> r.sent.Some? && link.closes
    ensures r.answer.Some? ==>
              |r.answer.value| == (if |reply| < 25 then |reply| else 25) && r.answer.value == reply[..|r.answer.value|]
  {
    var sent := if link.opens && relayIdx.RelayName? && link.writes then Some(ReadRelayCommand(relayIdx.text)) else None;
    var answer := if sent.Some? && link.closes then Some(if |reply| <= 25 then reply else reply[..25]) else None;
    ReadOutcome(answer, sent)
  }

  class NumatoFaucet {
    const base: FaucetLegacy.Faucet
    const portName: string

    constructor (base: FaucetLegacy.Faucet, portName: string)
      ensures this.base == base && this.portName == portName
    {
      this.base := base;
      this.portName := portName;
    }

    /** `NumatoFaucet.__init__`: the base faucet, with a numeric relay turned
        into its board name; a textual relay is kept as given. */
    static method Create(name: string, computerName: Option<string>,
                         faucetType: string := "generic", relay: RelayIdx := RelayName("0"),
                         portName: string := "/dev/ttyACM0")
      returns (r: Result<NumatoFaucet, RelayError>)
      ensures relay.RelayName? ==> r.Success? && r.value.base.relayIdx == relay
      ensures relay.RelayNumber? ==> r.Success? == RelayIdxFromNum(relay.number).Success?
      ensures relay.RelayNumber? && r.Success? ==>
                r.value.base.relayIdx == RelayName(RelayIdxFromNum(relay.number).value)
      ensures relay.RelayNumber? && relay.number >= 10 ==>
                r.Success? == RelayIdxFromNumAsWritten(relay.number).Success?
      ensures r.Success? ==> fresh(r.value) && fresh(r.value.base)
      ensures r.Success? ==> r.value.base.name == name && r.value.base.computerName == computerName
      ensures r.Success? ==> r.value.base.faucetType == faucetType && r.value.portName == portName
      ensures r.Success? ==> !r.value.base.isOpen
    {
      var idx := relay;
      if relay.RelayNumber? {
        var converted := RelayIdxFromNum(relay.number);
        if converted.Failure? {
          return Failure(converted.error);
        }
        idx := RelayName(converted.value);
      }
      var b := new FaucetLegacy.Faucet(name, computerName, faucetType, idx);
      var f := new NumatoFaucet(b, portName);
      r := Success(f);
    }

    /** Switch the relay on; the faucet counts as open only if the board
        took the command. */
    method Open(link: SerialLink) returns (res: bool)
      modifies base
      ensures res == WriteRelay(base.relayIdx, "on", link).ok
      ensures base.isOpen == (if res then true else old(base.isOpen))
    {
      res := WriteRelay(base.relayIdx, "on", link).ok;
      if res {
        base.Open();
      }
    }

    /** Switch the relay off; the faucet counts as closed only if the board
        took the command. */
    method Close(link: SerialLink) returns (res: bool)
      modifies base
      ensures res == WriteRelay(base.relayIdx, "off", link).ok
      ensures base.isOpen == (if res then false else old(base.isOpen))
    {
      res := WriteRelay(base.relayIdx, "off", link).ok;
      if res {
        base.Close();
      }
    }
  }
}
