// The dissector field by field, in the numbers of the standards (RFC 791, RFC 8200, RFC 4302,
// RFC 768, RFC 9293): which headers are accepted, and what is reported of malformed or cut ones.

module FrameFields {
  import opened Bytes
  import opened Results
  import opened Frames

  /** The 16-bit number at index i, most significant byte first. */
  function Number(frame: seq<byte>, i: nat): int
    requires i + 2 <= |frame|
  {
    var high: int, low: int := frame[i], frame[i + 1];
    0x100 * high + low
  }

  /** Other link types, empty raw packets and raw packets of another IP version are not dissected. */
  lemma LinkTypes(linkType: uint16, frame: seq<byte>)
    ensures linkType != 1 && linkType != 101 ==> LinkLayer(linkType, frame) == None
    ensures linkType == 1 && |frame| < 14 ==> LinkLayer(linkType, frame) == None
    ensures linkType == 101 ==>
      LinkLayer(linkType, frame)
      == if frame != [] && 0x40 <= frame[0] < 0x50 then Some((0x0800, 0))
         else if frame != [] && 0x60 <= frame[0] < 0x70 then Some((0x86DD, 0))
         else None
  {
  }

  /** A stack of tags that is cut off inside a tag. */
  lemma CutTag(etherType: uint16, rest: seq<byte>)
    requires etherType in {0x8100, 0x88A8, 0x9100} && |rest| < 4
    ensures SkipTags(etherType, rest) == None
  {
  }

  lemma OtherNetworks(linkType: uint16, frame: seq<byte>)
    ensures LinkLayer(linkType, frame) == None ==> Locate(linkType, frame) == None
    ensures LinkLayer(linkType, frame).Some? && LinkLayer(linkType, frame).value.0 !in {0x0800, 0x86DD} ==>
      Locate(linkType, frame) == None
  {
  }

  /** An IPv4 header of version 4, of at least five words, captured whole, of an unfragmented packet or first
      fragment that is at least as long as its header: exactly these are accepted. */
  lemma IPv4Headers(frame: seq<byte>, offset: nat)
    requires offset <= |frame|
    ensures LocateIPv4(frame, offset).Some?
       <==> && offset + 20 <= |frame|
            && 0x45 <= frame[offset] <= 0x4F
            && offset + 4 * (frame[offset] - 0x40) <= |frame|
            && Number(frame, offset + 6) % 0x2000 == 0
            && Number(frame, offset + 2) >= 4 * (frame[offset] - 0x40)
    ensures LocateIPv4(frame, offset).Some? ==>
      var header, total := 4 * (frame[offset] - 0x40), Number(frame, offset + 2);
      LocateIPv4(frame, offset)
      == Some(Located(offset + header, if offset + total < |frame| then offset + total else |frame|, frame[offset + 9],
                      frame[offset + 12..offset + 16], frame[offset + 16..offset + 20], total - header))
  {
  }

  /** An IPv6 packet is accepted when its fixed header is captured, of version 6, and its chain ends. */
  lemma IPv6Headers(frame: seq<byte>, offset: nat)
    ensures var fixed := offset + 40 <= |frame| && 0x60 <= frame[offset] < 0x70;
            && (!fixed ==> LocateIPv6(frame, offset) == None)
            && (fixed ==>
                  var payload := Number(frame, offset + 4);
                  var end := if offset + 40 + payload < |frame| then offset + 40 + payload else |frame|;
                  LocateIPv6(frame, offset)
                  == match SkipExtensions(frame[offset + 6], frame[offset + 40..end])
                     case None => None
                     case Some((protocol, length)) =>
                       Some(Located(offset + 40 + length, end, protocol,
                                    frame[offset + 8..offset + 24], frame[offset + 24..offset + 40], payload - length)))
  {
  }

  /** The chain behind a first header of that many bytes. */
  function Behind(rest: seq<byte>, length: int): Option<(byte, nat)>
    requires rest != [] && 0 <= length
  {
    if length > |rest| then None
    else
      match SkipExtensions(rest[0], rest[length..])
      case None => None
      case Some((protocol, more)) => Some((protocol, length + more))
  }

  lemma OneHeader(header: byte, rest: seq<byte>)
    requires IsExtension(header)
    ensures var length := ExtensionLength(header, rest);
            && (length.Some? ==> rest != [])
            && SkipExtensions(header, rest) == if length.None? then None else Behind(rest, length.value)
  {
    hide ExtensionLength;
    LengthNeedsBytes(header, rest);
  }

  lemma LengthNeedsBytes(header: byte, rest: seq<byte>)
    requires IsExtension(header)
    ensures ExtensionLength(header, rest).Some? ==> rest != []
  {
  }

  lemma HeaderLengths(header: byte, rest: seq<byte>)
    requires header in {0, 43, 44, 51, 60}
    ensures IsExtension(header)
    ensures header in {0, 43, 60} ==>
      ExtensionLength(header, rest) == if |rest| < 2 then None else Some(8 * (rest[1] as int + 1))
    ensures header == 44 ==> ExtensionLength(header, rest) == if |rest| < 8 then None else Some(8)
    ensures header == 51 ==>
      ExtensionLength(header, rest) == if |rest| < 2 then None else Some(4 * (rest[1] as int + 2))
  {
  }

  /** Hop-by-hop, routing and destination options, fragment and authentication headers; nothing else is skipped. */
  lemma ExtensionHeaders(header: byte, rest: seq<byte>)
    ensures header !in {0, 43, 44, 51, 60} ==> SkipExtensions(header, rest) == Some((header, 0))
    ensures header in {0, 43, 60} ==>
      SkipExtensions(header, rest) == if |rest| < 2 then None else Behind(rest, 8 * (rest[1] as int + 1))
    ensures header == 44 ==> SkipExtensions(header, rest) == if |rest| < 8 then None else Behind(rest, 8)
    ensures header == 51 ==>
      SkipExtensions(header, rest) == if |rest| < 2 then None else Behind(rest, 4 * (rest[1] as int + 2))
  {
    hide SkipExtensions, ExtensionLength, Behind, IsExtension;
    if header in {0, 43, 44, 51, 60} {
      HeaderLengths(header, rest);
      OneHeader(header, rest);
    } else {
      NoOtherHeader(header, rest);
    }
  }

  lemma NoOtherHeader(header: byte, rest: seq<byte>)
    requires header !in {0, 43, 44, 51, 60}
    ensures SkipExtensions(header, rest) == Some((header, 0))
  {
  }

  /** At most the first 32 payload bytes that were captured, of a payload that is not empty. */
  lemma Prefix(frame: seq<byte>, offset: nat, end: nat, payloadBytes: int)
    requires end <= |frame|
    ensures var prefix := PayloadPrefix(frame, offset, end, payloadBytes);
            && (payloadBytes <= 0 || offset >= end ==> prefix == [])
            && (payloadBytes > 0 && offset < end ==>
                  prefix == frame[offset..if end - offset < 32 then end else offset + 32])
  {
  }

  /**
   * UDP and TCP headers at l.start: which are reported, and with what. The
   * length of a UDP payload is what the UDP header says; that of a TCP payload
   * is what the IP header leaves, and never negative.
   */
  lemma TransportHeaders(frame: seq<byte>, l: Located, originalLength: int, timestamp: Timestamp)
    requires l.end <= |frame|
    ensures var r := ParseTransport(frame, l, originalLength, timestamp);
            && (r.Some? ==> l.protocol == 17 || l.protocol == 6)
            && (l.protocol == 17 ==>
                  r == if l.start + 8 <= l.end && Number(frame, l.start + 4) >= 8 then
                         Some(CapturedPacket(
                                timestamp, Udp, l.source, Number(frame, l.start), l.destination,
                                Number(frame, l.start + 2), Number(frame, l.start + 4) - 8, originalLength,
                                PayloadPrefix(frame, l.start + 8, l.end, Number(frame, l.start + 4) - 8)))
                       else None)
            && (l.protocol == 6 ==>
                  r == if l.start + 20 <= l.end && frame[l.start + 12] >= 0x50 then
                         var header := 4 * (frame[l.start + 12] / 16);
                         var payload := if l.transportBytes < header then 0 else l.transportBytes - header;
                         Some(CapturedPacket(
                                timestamp, Tcp, l.source, Number(frame, l.start), l.destination,
                                Number(frame, l.start + 2), payload, originalLength,
                                PayloadPrefix(frame, l.start + header, l.end, payload)))
                       else None)
  {
    hide PayloadPrefix;
  }
}
