/**
 * The wire protocol's code tables: the host's `Command` and `Response` enums and
 * welcome bytes, and the firmware's `#define`d codes, which must agree with them.
 */
module Protocol {
  import opened Bytes
  import opened Results

  /** The host's command opcodes (host to probe). */
  datatype Command =
    | StartStream | StopStream | SetDAC0 | SetDAC1 | GetADC
    | SetDAC0Buffer | SetDAC1Buffer | DisableDAC0Buffer | DisableDAC1Buffer

  /** The host's response codes (probe to host). */
  datatype Response = Ack | Error | Finish | Streaming | ErrorTooFast

  function CommandCode(c: Command): (b: Byte)
    ensures 0x30 <= b <= 0x38
  {
    match c
    case StartStream => 0x30
    case StopStream => 0x31
    case SetDAC0 => 0x32
    case SetDAC1 => 0x33
    case GetADC => 0x34
    case SetDAC0Buffer => 0x35
    case SetDAC1Buffer => 0x36
    case DisableDAC0Buffer => 0x37
    case DisableDAC1Buffer => 0x38
  }

  function ResponseCode(r: Response): (b: Byte)
    ensures b == 0x40 || 0x45 <= b <= 0x48
  {
    match r
    case Ack => 0x40
    case Error => 0x45
    case Finish => 0x46
    case Streaming => 0x47
    case ErrorTooFast => 0x48
  }

  /** Decodes a byte to the command it names (`Enum.IsDefined`), `None` for any other byte. */
  function CommandOf(b: Byte): (c: Option<Command>)
    ensures c.Some? <==> 0x30 <= b <= 0x38
    ensures c.Some? ==> CommandCode(c.value) == b
  {
    if b == 0x30 then Some(StartStream)
    else if b == 0x31 then Some(StopStream)
    else if b == 0x32 then Some(SetDAC0)
    else if b == 0x33 then Some(SetDAC1)
    else if b == 0x34 then Some(GetADC)
    else if b == 0x35 then Some(SetDAC0Buffer)
    else if b == 0x36 then Some(SetDAC1Buffer)
    else if b == 0x37 then Some(DisableDAC0Buffer)
    else if b == 0x38 then Some(DisableDAC1Buffer)
    else None
  }

  /** Decodes a byte to the response it names (`Enum.IsDefined`), `None` for any other byte. */
  function ResponseOf(b: Byte): (r: Option<Response>)
    ensures r.Some? <==> b == 0x40 || 0x45 <= b <= 0x48
    ensures r.Some? ==> ResponseCode(r.value) == b
  {
    if b == 0x40 then Some(Ack)
    else if b == 0x45 then Some(Error)
    else if b == 0x46 then Some(Finish)
    else if b == 0x47 then Some(Streaming)
    else if b == 0x48 then Some(ErrorTooFast)
    else None
  }

  /** Command codes are distinct: each code names exactly one command. */
  lemma CommandCodesDistinct(c: Command, d: Command)
    ensures CommandOf(CommandCode(c)) == Some(c)
    ensures CommandCode(c) == CommandCode(d) ==> c == d
  {
    assert CommandOf(CommandCode(d)) == Some(d);
  }

  /** Response codes are distinct and none of them is a command code. */
  lemma ResponseCodesDistinct(r: Response, s: Response, c: Command)
    ensures ResponseOf(ResponseCode(r)) == Some(r)
    ensures ResponseCode(r) == ResponseCode(s) ==> r == s
    ensures ResponseCode(r) != CommandCode(c)
  {
    assert ResponseOf(ResponseCode(s)) == Some(s);
  }

  /** `SetDAC0 + index` names the DAC channel's command for both channels. */
  lemma SetDACArithmetic(index: nat)
    requires index < 2
    ensures CommandCode(SetDAC0) + index == CommandCode(if index == 0 then SetDAC0 else SetDAC1)
    ensures CommandCode(SetDAC0Buffer) + index == CommandCode(if index == 0 then SetDAC0Buffer else SetDAC1Buffer)
    ensures CommandCode(DisableDAC0Buffer) + index == CommandCode(if index == 0 then DisableDAC0Buffer else DisableDAC1Buffer)
  {
  }

  // The firmware's codes.
  const StartStreamCommand: Byte := 0x30
  const StopStreamCommand: Byte := 0x31
  const SetDAC0Command: Byte := 0x32
  const SetDAC1Command: Byte := 0x33
  const GetADCCommand: Byte := 0x34
  const SetDAC0BufferCommand: Byte := 0x35
  const SetDAC1BufferCommand: Byte := 0x36
  const DisableDAC0BufferCommand: Byte := 0x37
  const DisableDAC1BufferCommand: Byte := 0x38
  const SetPoti0Command: Byte := 0x39
  const AckResponse: Byte := 0x40
  const ErrorResponse: Byte := 0x45
  const FinishResponse: Byte := 0x46
  const StreamingResponse: Byte := 0x47
  const ErrorTooFastResponse: Byte := 0x48

  /** The firmware's command codes in table order. */
  const FirmwareCommands: seq<Byte> := [
    StartStreamCommand, StopStreamCommand, SetDAC0Command, SetDAC1Command, GetADCCommand,
    SetDAC0BufferCommand, SetDAC1BufferCommand, DisableDAC0BufferCommand,
    DisableDAC1BufferCommand, SetPoti0Command]

  /** The host's commands in enum order. */
  const HostCommands: seq<Command> := [
    StartStream, StopStream, SetDAC0, SetDAC1, GetADC,
    SetDAC0Buffer, SetDAC1Buffer, DisableDAC0Buffer, DisableDAC1Buffer]

  /** The firmware's command codes run consecutively from 0x30 to 0x39. */
  lemma FirmwareCommandsConsecutive()
    ensures |FirmwareCommands| == 10
    ensures forall i :: 0 <= i < |FirmwareCommands| ==> FirmwareCommands[i] == 0x30 + i
  {
  }

  /** The firmware's first nine command codes equal the host enum's, member for member. */
  lemma FirmwareMatchesHostCommands()
    ensures |HostCommands| == 9
    ensures forall i :: 0 <= i < |HostCommands| ==> FirmwareCommands[i] == CommandCode(HostCommands[i])
  {
  }

  /**
   * `SetPoti0Command` (0x39) follows the host table; it is no host command code
   * and no response code, so it is free for the host's `SetPoti0`.
   */
  lemma SetPoti0CodeFree(c: Command, r: Response)
    ensures SetPoti0Command == CommandCode(DisableDAC1Buffer) + 1
    ensures SetPoti0Command != CommandCode(c) && SetPoti0Command != ResponseCode(r)
    ensures CommandOf(SetPoti0Command) == None && ResponseOf(SetPoti0Command) == None
  {
  }

  /** The firmware's response codes equal the host enum's and are no command codes. */
  lemma FirmwareMatchesHostResponses(c: Command)
    ensures AckResponse == ResponseCode(Ack) && ErrorResponse == ResponseCode(Error)
    ensures FinishResponse == ResponseCode(Finish) && StreamingResponse == ResponseCode(Streaming)
    ensures ErrorTooFastResponse == ResponseCode(ErrorTooFast)
    ensures forall i :: 0 <= i < |FirmwareCommands| ==>
      FirmwareCommands[i] !in {AckResponse, ErrorResponse, FinishResponse, StreamingResponse, ErrorTooFastResponse}
  {
  }

  /** `Encoding.ASCII.GetBytes`: characters above 0x7F become '?'. */
  function Ascii(s: string): (bs: seq<Byte>)
    ensures |bs| == |s|
    ensures forall i :: 0 <= i < |s| ==> bs[i] == if s[i] as int < 0x80 then s[i] as int else 0x3F
  {
    if s == [] then [] else [if s[0] as int < 0x80 then s[0] as int else 0x3F] + Ascii(s[1..])
  }

  /** The handshake the probe sends after reset. */
  const WelcomeText: string := "HELO PROBE\n"

  /** The host's `Magic.WelcomeBytes`. */
  const WelcomeBytes: seq<Byte> := Ascii(WelcomeText)

  /** The welcome bytes are the eleven ASCII codes of "HELO PROBE\n". */
  lemma WelcomeBytesValue()
    ensures |WelcomeBytes| == 11
    ensures WelcomeBytes == [0x48, 0x45, 0x4C, 0x4F, 0x20, 0x50, 0x52, 0x4F, 0x42, 0x45, 0x0A]
  {
  }
}
