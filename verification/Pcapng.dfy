// The pcapng stream parser: block framing in the byte order of the current
// section, the section's table of interfaces, and its enhanced packet blocks.

module Pcapng {
  import opened Bytes
  import opened Results
  import opened Frames

  const SECTION_HEADER_BLOCK: uint32 := 0x0A0D0D0A
  const INTERFACE_DESCRIPTION_BLOCK: uint32 := 1
  const ENHANCED_PACKET_BLOCK: uint32 := 6
  const BYTE_ORDER_MAGIC: uint32 := 0x1A2B3C4D
  const OPTION_END: uint16 := 0
  const OPTION_RESOLUTION: uint16 := 9
  const MICROSECONDS: Resolution := PowerOfTen(6)

  datatype Interface = Interface(linkType: uint16, resolution: Resolution)

  datatype ParseError =
    | FileTooSmall
    | TruncatedBlock(at: nat)
    | UnsupportedByteOrderMagic
    | NoSectionHeader
    | InvalidBlockLength(length: uint32, at: nat)
    | TrailerMismatch(at: nat)
    | TruncatedInterface
    | InvalidInterfaceOption
    | TruncatedPacket
    | UnknownInterface(id: uint32)
    | InvalidCapturedLength

  type Parsed = Result<seq<CapturedPacket>, ParseError>

  // -------------------------------------------------------- interface blocks

  function PaddedLength(length: nat): (padded: nat)
    ensures length <= padded < length + 4 && padded % 4 == 0
  {
    (length + 3) / 4 * 4
  }

  function ResolutionOf(value: byte): Resolution {
    if value < 0x80 then PowerOfTen(value) else PowerOfTwo(value - 0x80)
  }

  function Power(base: nat, exponent: nat): nat {
    if exponent == 0 then 1 else base * Power(base, exponent - 1)
  }

  /** Ticks in a second. */
  function TicksPerSecond(resolution: Resolution): nat {
    match resolution
    case PowerOfTen(exponent) => Power(10, exponent)
    case PowerOfTwo(exponent) => Power(2, exponent)
  }

  /** A clear top bit stands for a power of ten, a set one for a power of two; without the option it is 10^6. */
  lemma TicksOfOption(value: byte)
    ensures TicksPerSecond(ResolutionOf(value)) == if value < 0x80 then Power(10, value) else Power(2, value - 0x80)
    ensures TicksPerSecond(ResolutionOf(9)) == 1_000_000_000
    ensures TicksPerSecond(ResolutionOf(0x8A)) == 1024
    ensures TicksPerSecond(MICROSECONDS) == 1_000_000
  {
    assert Power(10, 3) == 1000 && Power(10, 6) == 1000 * Power(10, 3);
    assert Power(10, 9) == 1000 * Power(10, 6);
    assert Power(2, 5) == 32 && Power(2, 10) == 32 * Power(2, 5);
  }

  /** The timestamp resolution after the options in rest, given the one so far. */
  function ReadOptions(order: ByteOrder, rest: seq<byte>, resolution: Resolution): Result<Resolution, ParseError>
    decreases |rest|
  {
    if |rest| < 4 || Get16(order, rest, 0) == OPTION_END then
      Ok(resolution)
    else
      var length := Get16(order, rest, 2);
      if 4 + length > |rest| then
        Err(InvalidInterfaceOption)
      else
        ReadOptions(
          order,
          rest[Min(4 + PaddedLength(length), |rest|)..],
          if Get16(order, rest, 0) == OPTION_RESOLUTION && length == 1 then ResolutionOf(rest[4]) else resolution)
  }

  function ReadInterface(order: ByteOrder, block: seq<byte>): Result<Interface, ParseError> {
    if |block| < 20 then
      Err(TruncatedInterface)
    else
      match ReadOptions(order, block[16..|block| - 4], MICROSECONDS)
      case Err(error) => Err(error)
      case Ok(resolution) => Ok(Interface(Get16(order, block, 8), resolution))
  }

  lemma OptionFields(order: ByteOrder, block: seq<byte>, offset: nat, end: nat)
    requires offset + 4 <= end <= |block|
    ensures var rest := block[offset..end];
            && Get16(order, rest, 0) == Get16(order, block, offset)
            && Get16(order, rest, 2) == Get16(order, block, offset + 2)
            && (4 < |rest| ==> rest[4] == block[offset + 4])
  {
  }

  lemma FewBytes(order: ByteOrder, rest: seq<byte>, resolution: Resolution)
    ensures |rest| < 4 ==> ReadOptions(order, rest, resolution) == Ok(resolution)
  {
  }

  /** One option is read. */
  lemma OptionRead(order: ByteOrder, block: seq<byte>, offset: nat, end: nat, resolution: Resolution)
    requires offset + 4 <= end <= |block|
    ensures var code, length := Get16(order, block, offset), Get16(order, block, offset + 2);
            var next := Min(offset + 4 + PaddedLength(length), end);
            ReadOptions(order, block[offset..end], resolution)
            == if code == OPTION_END then Ok(resolution)
               else if offset + 4 + length > end then Err(InvalidInterfaceOption)
               else ReadOptions(
                      order, block[next..end],
                      if code == OPTION_RESOLUTION && length == 1 then ResolutionOf(block[offset + 4]) else resolution)
  {
    hide Get16, ReadOptions, PaddedLength;
    OptionFields(order, block, offset, end);
    OneOption(order, block[offset..end], resolution);
    var length := Get16(order, block, offset + 2);
    PaddingAdds(length);
    var next := Min(offset + 4 + PaddedLength(length), end);
    SliceOfSlice(block, offset, end, next - offset, end - offset);
  }

  lemma OneOption(order: ByteOrder, rest: seq<byte>, resolution: Resolution)
    requires 4 <= |rest|
    ensures var code, length := Get16(order, rest, 0), Get16(order, rest, 2);
            ReadOptions(order, rest, resolution)
            == if code == OPTION_END then Ok(resolution)
               else if 4 + length > |rest| then Err(InvalidInterfaceOption)
               else ReadOptions(
                      order, rest[Min(4 + PaddedLength(length), |rest|)..],
                      if code == OPTION_RESOLUTION && length == 1 then ResolutionOf(rest[4]) else resolution)
  {
    hide Get16, ResolutionOf;
  }

  lemma PaddingAdds(length: nat)
    ensures PaddedLength(length) >= length
  {
  }

  /** parsePCAPNGInterface, with its loop over options. */
  method ParseInterface(order: ByteOrder, block: seq<byte>) returns (r: Result<Interface, ParseError>)
    ensures r == ReadInterface(order, block)
  {
    hide Get16, ReadOptions;
    if |block| < 20 {
      return Err(TruncatedInterface);
    }
    var resolution := MICROSECONDS;
    var offset, end := 16, |block| - 4;
    while offset + 4 <= end
      invariant 16 <= offset
      invariant ReadOptions(order, block[16..end], MICROSECONDS)
             == ReadOptions(order, block[Min(offset, end)..end], resolution)
      decreases end - offset
    {
      OptionRead(order, block, offset, end, resolution);
      var code, length := Get16(order, block, offset), Get16(order, block, offset + 2);
      offset := offset + 4;
      if code == OPTION_END {
        return Ok(Interface(Get16(order, block, 8), resolution));
      }
      if offset + length > end {
        return Err(InvalidInterfaceOption);
      }
      if code == OPTION_RESOLUTION && length == 1 {
        resolution := ResolutionOf(block[offset]);
      }
      offset := offset + PaddedLength(length);
    }
    FewBytes(order, block[Min(offset, end)..end], resolution);
    return Ok(Interface(Get16(order, block, 8), resolution));
  }

  // ---------------------------------------------------------- packet blocks

  /** What an enhanced packet block hands to the frame dissector. */
  datatype CapturedFrame = CapturedFrame(
    linkType: uint16,
    frame: seq<byte>,
    originalLength: uint32,
    timestamp: Timestamp)

  function ReadCapturedFrame(order: ByteOrder, block: seq<byte>, interfaces: seq<Interface>)
    : Result<CapturedFrame, ParseError>
  {
    if |block| < 32 then
      Err(TruncatedPacket)
    else
      var interfaceId := Get32(order, block, 8);
      if interfaceId >= |interfaces| then
        Err(UnknownInterface(interfaceId))
      else
        var capturedLength := Get32(order, block, 20);
        if 28 + capturedLength > |block| - 4 then
          Err(InvalidCapturedLength)
        else
          Ok(CapturedFrame(
               interfaces[interfaceId].linkType,
               block[28..28 + capturedLength],
               Get32(order, block, 24),
               Timestamp(Get32(order, block, 12), Get32(order, block, 16), interfaces[interfaceId].resolution)))
  }

  /** The packet of a captured frame, or none if the dissector does not accept it. */
  function Accepted(f: CapturedFrame): seq<CapturedPacket> {
    match Dissect(f.linkType, f.frame, f.originalLength, f.timestamp)
    case None => []
    case Some(packet) => [packet]
  }

  // ------------------------------------------------------------ block framing

  predicate IsSectionHeader(rest: seq<byte>)
    requires |rest| >= 12
  {
    Get32(LittleEndian, rest, 0) == SECTION_HEADER_BLOCK
  }

  function SectionByteOrder(rest: seq<byte>): Result<ByteOrder, ParseError>
    requires |rest| >= 12
  {
    if Get32(LittleEndian, rest, 8) == BYTE_ORDER_MAGIC then Ok(LittleEndian)
    else if Get32(BigEndian, rest, 8) == BYTE_ORDER_MAGIC then Ok(BigEndian)
    else Err(UnsupportedByteOrderMagic)
  }

  /** The byte order the block at the start of rest is read in. */
  function BlockOrder(rest: seq<byte>, order: Option<ByteOrder>): Result<ByteOrder, ParseError>
    requires |rest| >= 12
  {
    if IsSectionHeader(rest) then SectionByteOrder(rest)
    else if order.None? then Err(NoSectionHeader)
    else Ok(order.value)
  }

  /** The length of the block at the start of rest, if header and trailer agree on it. */
  function BlockLength(rest: seq<byte>, at: nat, order: ByteOrder): (r: Result<nat, ParseError>)
    requires |rest| >= 12
    ensures r.Ok? ==> 12 <= r.value <= |rest|
  {
    var length := Get32(order, rest, 4);
    if length < 12 || length > |rest| then Err(InvalidBlockLength(length, at))
    else if Get32(order, rest, length - 4) != length then Err(TrailerMismatch(at))
    else Ok(length)
  }

  /** What one block does to the section's interface table, and the packets it contributes. */
  datatype Effect = Effect(interfaces: seq<Interface>, packets: seq<CapturedPacket>)

  function ReadBlock(order: ByteOrder, block: seq<byte>, interfaces: seq<Interface>): Result<Effect, ParseError>
    requires |block| >= 12
  {
    var kind := Get32(order, block, 0);
    if kind == INTERFACE_DESCRIPTION_BLOCK then
      match ReadInterface(order, block)
      case Err(error) => Err(error)
      case Ok(interface) => Ok(Effect(interfaces + [interface], []))
    else if kind == ENHANCED_PACKET_BLOCK then
      match ReadCapturedFrame(order, block, interfaces)
      case Err(error) => Err(error)
      case Ok(captured) => Ok(Effect(interfaces, Accepted(captured)))
    else
      Ok(Effect(interfaces, []))
  }

  /** The variables of the block loop. */
  datatype Stream = Stream(order: Option<ByteOrder>, interfaces: seq<Interface>, packets: seq<CapturedPacket>)

  /** The length of the block at the start of rest, and the variables behind it. */
  datatype Step = Step(length: nat, after: Stream)

  function ReadStep(rest: seq<byte>, at: nat, s: Stream): (r: Result<Step, ParseError>)
    ensures r.Ok? ==> 12 <= r.value.length <= |rest|
  {
    if |rest| < 12 then
      Err(TruncatedBlock(at))
    else
      match BlockOrder(rest, s.order)
      case Err(error) => Err(error)
      case Ok(order) =>
        match BlockLength(rest, at, order)
        case Err(error) => Err(error)
        case Ok(length) =>
          match ReadBlock(order, rest[..length], if IsSectionHeader(rest) then [] else s.interfaces)
          case Err(error) => Err(error)
          case Ok(effect) => Ok(Step(length, Stream(Some(order), effect.interfaces, s.packets + effect.packets)))
  }

  /** The specification of the block loop, from the block at index at on. */
  function ReadBlocks(rest: seq<byte>, at: nat, s: Stream): Parsed
    decreases |rest|
  {
    if rest == [] then
      Ok(s.packets)
    else
      match ReadStep(rest, at, s)
      case Err(error) => Err(error)
      case Ok(step) => ReadBlocks(rest[step.length..], at + step.length, step.after)
  }

  const START := Stream(None, [], [])

  function ReadFile(data: seq<byte>): Parsed {
    if |data| < 12 then Err(FileTooSmall) else ReadBlocks(data, 0, START)
  }

  /** One turn of the switch over block types. */
  method ParseBlock(order: ByteOrder, block: seq<byte>, interfaces: seq<Interface>)
    returns (r: Result<Effect, ParseError>)
    requires |block| >= 12
    ensures r == ReadBlock(order, block, interfaces)
  {
    var kind := Get32(order, block, 0);
    if kind == INTERFACE_DESCRIPTION_BLOCK {
      var parsed := ParseInterface(order, block);
      match parsed
      case Err(error) => return Err(error);
      case Ok(interface) => return Ok(Effect(interfaces + [interface], []));
    } else if kind == ENHANCED_PACKET_BLOCK {
      var captured := ReadCapturedFrame(order, block, interfaces);
      match captured
      case Err(error) => return Err(error);
      case Ok(f) =>
        var packet := ParseCapturedFrame(f.linkType, f.frame, f.originalLength, f.timestamp);
        return Ok(Effect(interfaces, if packet.Some? then [packet.value] else []));
    }
    return Ok(Effect(interfaces, []));
  }

  /** One turn of the block loop. */
  method ParseStep(rest: seq<byte>, at: nat, s: Stream) returns (r: Result<Step, ParseError>)
    ensures r == ReadStep(rest, at, s)
  {
    if |rest| < 12 {
      return Err(TruncatedBlock(at));
    }
    var interfaces := s.interfaces;
    if IsSectionHeader(rest) {
      interfaces := [];
    }
    var order := BlockOrder(rest, s.order);
    if order.Err? {
      return Err(order.error);
    }
    var length := BlockLength(rest, at, order.value);
    if length.Err? {
      return Err(length.error);
    }
    var effect := ParseBlock(order.value, rest[..length.value], interfaces);
    match effect
    case Err(error) => return Err(error);
    case Ok(e) => return Ok(Step(length.value, Stream(Some(order.value), e.interfaces, s.packets + e.packets)));
  }

  lemma Proceed(data: seq<byte>, offset: nat, s: Stream)
    requires offset < |data|
    ensures var step := ReadStep(data[offset..], offset, s);
            ReadBlocks(data[offset..], offset, s)
            == if step.Err? then Err(step.error)
               else ReadBlocks(data[offset + step.value.length..], offset + step.value.length, step.value.after)
  {
    hide ReadStep;
    var step := ReadStep(data[offset..], offset, s);
    if step.Ok? {
      assert data[offset..][step.value.length..] == data[offset + step.value.length..];
    }
  }

  lemma AtEnd(data: seq<byte>, at: nat, s: Stream)
    ensures ReadBlocks(data[|data|..], at, s) == Ok(s.packets)
  {
  }

  /** parsePCAPNG. */
  method ParsePcapng(data: seq<byte>) returns (r: Parsed)
    ensures r == ReadFile(data)
  {
    hide ReadStep, ReadBlocks;
    if |data| < 12 {
      return Err(FileTooSmall);
    }
    var s := START;
    var offset := 0;
    assert data[0..] == data;
    while offset < |data|
      invariant 0 <= offset <= |data|
      invariant ReadFile(data) == ReadBlocks(data[offset..], offset, s)
      decreases |data| - offset
    {
      Proceed(data, offset, s);
      var step := ParseStep(data[offset..], offset, s);
      if step.Err? {
        return Err(step.error);
      }
      offset, s := offset + step.value.length, step.value.after;
    }
    AtEnd(data, offset, s);
    return Ok(s.packets);
  }
}
