// The dissector of captured frames: Ethernet with VLAN tags or raw IP, the
// IPv4 header, the IPv6 extension header chain, and UDP or TCP.

module Frames {
  import opened Bytes
  import opened Results

  const LINK_TYPE_ETHERNET: uint16 := 1
  const LINK_TYPE_RAW: uint16 := 101
  const ETHER_TYPE_IPV4: uint16 := 0x0800
  const ETHER_TYPE_IPV6: uint16 := 0x86DD
  const PROTOCOL_TCP: byte := 6
  const PROTOCOL_UDP: byte := 17
  const PREFIX_LIMIT: nat := 32

  /** The if_tsresol option of an interface: what one timestamp tick is worth. */
  datatype Resolution = PowerOfTen(exponent: byte) | PowerOfTwo(exponent: byte)

  /** A packet timestamp before its (floating-point) conversion to nanoseconds. */
  datatype Timestamp = Timestamp(high: uint32, low: uint32, resolution: Resolution)

  datatype Network = Udp | Tcp

  /** Addresses are kept as bytes instead of text. */
  datatype CapturedPacket = CapturedPacket(
    timestamp: Timestamp,
    network: Network,
    sourceAddress: seq<byte>,
    sourcePort: uint16,
    destAddress: seq<byte>,
    destPort: uint16,
    payloadBytes: int,
    originalBytes: int,
    payloadPrefix: seq<byte>)

  /** A transport header found in a frame, with everything its parser is called with. */
  datatype Located = Located(
    start: nat,           // index of the transport header
    end: nat,             // index just past the captured part of the IP packet
    protocol: byte,
    source: seq<byte>,
    destination: seq<byte>,
    transportBytes: int)  // what the IP header declares to follow start

  // ---------------------------------------------------------------- link layer

  /** A chain (or stack) that starts n bytes later. */
  function After<T>(n: nat, r: Option<(T, nat)>): Option<(T, nat)> {
    match r
    case None => None
    case Some((inner, length)) => Some((inner, n + length))
  }

  predicate IsTag(etherType: uint16) {
    etherType == 0x8100 || etherType == 0x88A8 || etherType == 0x9100
  }

  /** The EtherType behind a stack of VLAN tags, and the length of the stack after the first tag protocol. */
  function SkipTags(etherType: uint16, rest: seq<byte>): (r: Option<(uint16, nat)>)
    ensures r.Some? ==> r.value.1 <= |rest| && !IsTag(r.value.0)
    decreases |rest|
  {
    if !IsTag(etherType) then
      Some((etherType, 0))
    else if |rest| < 4 then
      None
    else
      After(4, SkipTags(Get16(BigEndian, rest, 2), rest[4..]))
  }

  /** The EtherType of a frame and the index of its network header. */
  function LinkLayer(linkType: uint16, frame: seq<byte>): (r: Option<(uint16, nat)>)
    ensures r.Some? ==> r.value.1 <= |frame|
  {
    if linkType == LINK_TYPE_ETHERNET then
      if |frame| < 14 then
        None
      else
        After(14, SkipTags(Get16(BigEndian, frame, 12), frame[14..]))
    else if linkType == LINK_TYPE_RAW then
      if |frame| == 0 then None
      else if frame[0] / 16 == 4 then Some((ETHER_TYPE_IPV4, 0))
      else if frame[0] / 16 == 6 then Some((ETHER_TYPE_IPV6, 0))
      else None
    else
      None
  }

  // ------------------------------------------------------------- network layer

  /** Where the transport header of the IPv4 packet at offset is. */
  function LocateIPv4(frame: seq<byte>, offset: nat): (r: Option<Located>)
    requires offset <= |frame|
    ensures r.Some? ==> offset + 20 <= r.value.start <= r.value.end <= |frame| && r.value.transportBytes >= 0
  {
    if |frame| < offset + 20 || frame[offset] / 16 != 4 then
      None
    else
      var headerLength := frame[offset] % 16 * 4;
      if headerLength < 20 || |frame| < offset + headerLength then
        None
      else if Get16(BigEndian, frame, offset + 6) % 0x2000 != 0 then
        None
      else
        var totalLength := Get16(BigEndian, frame, offset + 2);
        if totalLength < headerLength then
          None
        else
          Some(Located(
                 offset + headerLength,
                 Min(offset + totalLength, |frame|),
                 frame[offset + 9],
                 frame[offset + 12..offset + 16],
                 frame[offset + 16..offset + 20],
                 totalLength - headerLength))
  }

  predicate IsExtension(header: byte) {
    header == 0 || header == 43 || header == 60 || header == 44 || header == 51
  }

  /** The length of the extension header that rest starts with, as far as it is captured. */
  function ExtensionLength(header: byte, rest: seq<byte>): (r: Option<nat>)
    requires IsExtension(header)
    ensures r.Some? ==> 8 <= r.value
  {
    if |rest| < if header == 44 then 8 else 2 then
      None
    else
      var units: int := rest[1];
      match header
      case 44 => Some(8)
      case 51 => Some((units + 2) * 4)
      case _ => Some((units + 1) * 8)
  }

  /** The protocol behind a chain of IPv6 extension headers, and the length of the chain. */
  function SkipExtensions(header: byte, rest: seq<byte>): (r: Option<(byte, nat)>)
    ensures r.Some? ==> r.value.1 <= |rest| && !IsExtension(r.value.0)
    decreases |rest|
  {
    if !IsExtension(header) then
      Some((header, 0))
    else
      match ExtensionLength(header, rest)
      case None => None
      case Some(length) =>
        if length > |rest| then
          None
        else
          After(length, SkipExtensions(rest[0], rest[length..]))
  }

  predicate HasIPv6Header(frame: seq<byte>, offset: nat) {
    offset + 40 <= |frame| && frame[offset] / 16 == 6
  }

  /** Where the captured part of the IPv6 packet at offset ends. */
  function IPv6PacketEnd(frame: seq<byte>, offset: nat): (end: nat)
    requires HasIPv6Header(frame, offset)
    ensures offset + 40 <= end <= |frame|
  {
    Min(offset + 40 + Get16(BigEndian, frame, offset + 4), |frame|)
  }

  /** The extension header chain of the IPv6 packet at offset. */
  function IPv6Chain(frame: seq<byte>, offset: nat): (r: Option<(byte, nat)>)
    requires HasIPv6Header(frame, offset)
    ensures r.Some? ==> offset + 40 + r.value.1 <= IPv6PacketEnd(frame, offset)
  {
    SkipExtensions(frame[offset + 6], frame[offset + 40..IPv6PacketEnd(frame, offset)])
  }

  /** The transport header behind a chain of that length. */
  function BehindChain(frame: seq<byte>, offset: nat, protocol: byte, length: nat): Located
    requires HasIPv6Header(frame, offset)
  {
    Located(
      offset + 40 + length,
      IPv6PacketEnd(frame, offset),
      protocol,
      frame[offset + 8..offset + 24],
      frame[offset + 24..offset + 40],
      Get16(BigEndian, frame, offset + 4) - length)
  }

  /** Where the transport header of the IPv6 packet at offset is. */
  function LocateIPv6(frame: seq<byte>, offset: nat): (r: Option<Located>)
    ensures r.Some? ==> offset + 40 <= r.value.start <= r.value.end <= |frame| && r.value.transportBytes >= 0
  {
    if !HasIPv6Header(frame, offset) then
      None
    else
      match IPv6Chain(frame, offset)
      case None => None
      case Some((protocol, length)) => Some(BehindChain(frame, offset, protocol, length))
  }

  /** Where the transport header of a frame is, whatever carries it. */
  function Locate(linkType: uint16, frame: seq<byte>): (r: Option<Located>)
    ensures r.Some? ==> r.value.start <= r.value.end <= |frame| && r.value.transportBytes >= 0
  {
    match LinkLayer(linkType, frame)
    case None => None
    case Some((etherType, offset)) =>
      if etherType == ETHER_TYPE_IPV4 then LocateIPv4(frame, offset)
      else if etherType == ETHER_TYPE_IPV6 then LocateIPv6(frame, offset)
      else None
  }

  // ----------------------------------------------------------- transport layer

  function PayloadPrefix(frame: seq<byte>, payloadOffset: nat, packetEnd: nat, payloadBytes: int): seq<byte>
    requires packetEnd <= |frame|
  {
    if payloadBytes > 0 && payloadOffset < packetEnd then
      frame[payloadOffset..payloadOffset + Min(packetEnd - payloadOffset, PREFIX_LIMIT)]
    else
      []
  }

  /** What is reported of the UDP or TCP header at l.start. */
  function ParseTransport(frame: seq<byte>, l: Located, originalLength: int, timestamp: Timestamp)
    : Option<CapturedPacket>
    requires l.end <= |frame|
  {
    if l.start + 8 > l.end then
      None
    else
      var sourcePort, destPort := Get16(BigEndian, frame, l.start), Get16(BigEndian, frame, l.start + 2);
      if l.protocol == PROTOCOL_UDP then
        var udpLength := Get16(BigEndian, frame, l.start + 4);
        if udpLength < 8 then
          None
        else
          Some(CapturedPacket(
                 timestamp, Udp, l.source, sourcePort, l.destination, destPort,
                 udpLength - 8, originalLength,
                 PayloadPrefix(frame, l.start + 8, l.end, udpLength - 8)))
      else if l.protocol == PROTOCOL_TCP then
        if l.start + 20 > l.end then
          None
        else
          var headerLength := frame[l.start + 12] / 16 * 4;
          if headerLength < 20 then
            None
          else
            var payloadBytes := if l.transportBytes < headerLength then 0 else l.transportBytes - headerLength;
            Some(CapturedPacket(
                   timestamp, Tcp, l.source, sourcePort, l.destination, destPort,
                   payloadBytes, originalLength,
                   PayloadPrefix(frame, l.start + headerLength, l.end, payloadBytes)))
      else
        None
  }

  /** The specification of the dissector. */
  function Dissect(linkType: uint16, frame: seq<byte>, originalLength: int, timestamp: Timestamp)
    : Option<CapturedPacket>
  {
    match Locate(linkType, frame)
    case None => None
    case Some(l) => ParseTransport(frame, l, originalLength, timestamp)
  }

  // ------------------------------------------------- the loops of the dissector

  lemma AfterAfter<T>(m: nat, n: nat, r: Option<(T, nat)>)
    ensures After(m, After(n, r)) == After(m + n, r)
  {
  }

  lemma NoExtension(protocol: byte, rest: seq<byte>)
    requires !IsExtension(protocol)
    ensures SkipExtensions(protocol, rest) == Some((protocol, 0))
  {
  }

  /** One extension header is taken off the chain. */
  lemma ExtensionWalked(frame: seq<byte>, header: byte, from: nat, packetEnd: nat)
    requires IsExtension(header) && from <= packetEnd <= |frame|
    ensures SkipExtensions(header, frame[from..packetEnd])
         == match ExtensionLength(header, frame[from..packetEnd])
            case None => None
            case Some(length) =>
              if from + length > packetEnd then None
              else After(length, SkipExtensions(frame[from], frame[from + length..packetEnd]))
  {
    hide ExtensionLength;
    var length := ExtensionLength(header, frame[from..packetEnd]);
    if length.Some? && from + length.value <= packetEnd {
      SliceOfSlice(frame, from, packetEnd, length.value, packetEnd - from);
    }
  }

  /** The IPv6 header walk: every index it dispatches on lies between the fixed header and the packet end. */
  method WalkExtensions(frame: seq<byte>, header: byte, from: nat, packetEnd: nat) returns (r: Option<(byte, nat)>)
    requires from <= packetEnd <= |frame|
    ensures r == SkipExtensions(header, frame[from..packetEnd])
  {
    hide SkipExtensions;
    var nextHeader := header;
    var transportOffset := from;
    while IsExtension(nextHeader)
      invariant from <= transportOffset <= packetEnd
      invariant SkipExtensions(header, frame[from..packetEnd])
             == After(transportOffset - from, SkipExtensions(nextHeader, frame[transportOffset..packetEnd]))
      decreases packetEnd - transportOffset
    {
      ExtensionWalked(frame, nextHeader, transportOffset, packetEnd);
      if transportOffset + (if nextHeader == 44 then 8 else 2) > packetEnd {
        return None;
      }
      var units: int := frame[transportOffset + 1];
      var length := if nextHeader == 44 then 8 else if nextHeader == 51 then (units + 2) * 4 else (units + 1) * 8;
      assert ExtensionLength(nextHeader, frame[transportOffset..packetEnd]) == Some(length);
      nextHeader, transportOffset := frame[transportOffset], transportOffset + length;
      if transportOffset > packetEnd {
        return None;
      }
      AfterAfter(transportOffset - length - from, length,
                 SkipExtensions(nextHeader, frame[transportOffset..packetEnd]));
    }
    NoExtension(nextHeader, frame[transportOffset..packetEnd]);
    return Some((nextHeader, transportOffset - from));
  }

  method WalkIPv6(frame: seq<byte>, offset: nat) returns (r: Option<Located>)
    ensures r == LocateIPv6(frame, offset)
  {
    if |frame| < offset + 40 || frame[offset] / 16 != 6 {
      return None;
    }
    var payloadLength := Get16(BigEndian, frame, offset + 4);
    var packetEnd := Min(offset + 40 + payloadLength, |frame|);
    var chain := WalkExtensions(frame, frame[offset + 6], offset + 40, packetEnd);
    match chain
    case None => return None;
    case Some((nextHeader, length)) =>
      var transportOffset := offset + 40 + length;
      return Some(Located(
                    transportOffset,
                    packetEnd,
                    nextHeader,
                    frame[offset + 8..offset + 24],
                    frame[offset + 24..offset + 40],
                    40 + payloadLength - (transportOffset - offset)));
  }

  /** The loop over VLAN tags: from the first tag protocol to the EtherType behind the stack. */
  method WalkTags(frame: seq<byte>) returns (r: Option<(uint16, nat)>)
    requires 14 <= |frame|
    ensures r == After(14, SkipTags(Get16(BigEndian, frame, 12), frame[14..]))
  {
    var etherType := Get16(BigEndian, frame, 12);
    var offset := 14;
    while IsTag(etherType)
      invariant 14 <= offset <= |frame|
      invariant After(14, SkipTags(Get16(BigEndian, frame, 12), frame[14..]))
             == After(offset, SkipTags(etherType, frame[offset..]))
      decreases |frame| - offset
    {
      if |frame| < offset + 4 {
        return None;
      }
      assert frame[offset..][4..] == frame[offset + 4..];
      etherType, offset := Get16(BigEndian, frame, offset + 2), offset + 4;
      AfterAfter(offset - 4, 4, SkipTags(etherType, frame[offset..]));
    }
    return Some((etherType, offset));
  }

  /** parseCapturedFrame. */
  method ParseCapturedFrame(linkType: uint16, frame: seq<byte>, originalLength: int, timestamp: Timestamp)
    returns (r: Option<CapturedPacket>)
    ensures r == Dissect(linkType, frame, originalLength, timestamp)
  {
    var network: Option<(uint16, nat)> := None;
    if linkType == LINK_TYPE_ETHERNET {
      if |frame| < 14 {
        return None;
      }
      network := WalkTags(frame);
    } else if linkType == LINK_TYPE_RAW {
      if |frame| == 0 {
        return None;
      }
      if frame[0] / 16 == 4 {
        network := Some((ETHER_TYPE_IPV4, 0));
      } else if frame[0] / 16 == 6 {
        network := Some((ETHER_TYPE_IPV6, 0));
      }
    }
    if network.None? {
      return None;
    }
    var (etherType, offset) := network.value;
    assert LinkLayer(linkType, frame) == network;
    var located := None;
    if etherType == ETHER_TYPE_IPV4 {
      located := LocateIPv4(frame, offset);
    } else if etherType == ETHER_TYPE_IPV6 {
      located := WalkIPv6(frame, offset);
    }
    assert Locate(linkType, frame) == located;
    match located
    case None => return None;
    case Some(l) => return ParseTransport(frame, l, originalLength, timestamp);
  }
}
