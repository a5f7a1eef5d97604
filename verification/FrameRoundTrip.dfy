// Frames as their standards lay them out (IEEE 802.1Q tags, RFC 791, RFC 8200,
// RFC 4302, RFC 768, RFC 9293), and the proof that the dissector reads back
// what was laid out.

module FrameRoundTrip {
  import opened Bytes
  import opened Results
  import opened Frames

  /** A customer tag, a service tag, or a service tag of the older kind. */
  datatype VlanTag = VlanTag(protocol: uint16, control: uint16)
  {
    predicate Valid() {
      protocol in {0x8100, 0x88A8, 0x9100}
    }
  }

  /** An IPv6 extension header without its next-header byte. */
  datatype Extension =
    | Options(kind: byte, body: seq<byte>)  // hop-by-hop, routing or destination options
    | Fragment(body: seq<byte>)
    | Authentication(body: seq<byte>)
  {
    ghost predicate Valid() {
      match this
      case Options(kind, body) => kind in {0, 43, 60} && |body| % 8 == 6 && |body| < 0x800
      case Fragment(body) => |body| == 7
      case Authentication(body) => |body| % 4 == 2 && 6 <= |body| < 0x404
    }

    function Kind(): byte {
      match this
      case Options(kind, _) => kind
      case Fragment(_) => 44
      case Authentication(_) => 51
    }

    /** The header, with the protocol number of what follows it. */
    function Bytes(next: byte): seq<byte>
      requires Valid()
    {
      match this
      case Options(_, body) => [next, |body| / 8] + body
      case Fragment(body) => [next] + body
      case Authentication(body) => [next, (|body| - 6) / 4] + body
    }
  }

  datatype IpHeader =
    | IPv4(serviceType: byte, identification: uint16, flags: byte, timeToLive: byte, checksum: uint16,
           source: seq<byte>, destination: seq<byte>, options: seq<byte>)
    | IPv6(trafficClass: byte, flow: seq<byte>, hopLimit: byte,
           source: seq<byte>, destination: seq<byte>, extensions: seq<Extension>)
  {
    ghost predicate Valid() {
      match this
      case IPv4(_, _, flags, _, _, source, destination, options) =>
        flags < 8 && |source| == |destination| == 4 && |options| % 4 == 0 && |options| <= 40
      case IPv6(trafficClass, flow, _, source, destination, extensions) =>
        trafficClass < 16 && |flow| == 3 && |source| == |destination| == 16
        && forall e <- extensions :: e.Valid()
    }
  }

  datatype Segment =
    | UdpSegment(sourcePort: uint16, destPort: uint16, checksum: uint16, payload: seq<byte>)
    | TcpSegment(sourcePort: uint16, destPort: uint16, numbers: seq<byte>, reserved: byte, control: seq<byte>,
                 options: seq<byte>, payload: seq<byte>)
  {
    ghost predicate Valid() {
      match this
      case UdpSegment(_, _, _, payload) => 8 + |payload| < 0x1_0000
      case TcpSegment(_, _, numbers, reserved, control, options, _) =>
        |numbers| == 8 && reserved < 16 && |control| == 7 && |options| % 4 == 0 && |options| <= 40
    }

    function Protocol(): byte {
      if UdpSegment? then 17 else 6
    }

    function Bytes(): (s: seq<byte>)
      requires Valid()
      ensures |s| >= 8
    {
      match this
      case UdpSegment(sourcePort, destPort, checksum, payload) =>
        Put16(BigEndian, sourcePort) + Put16(BigEndian, destPort)
        + Put16(BigEndian, 8 + |payload|) + Put16(BigEndian, checksum) + payload
      case TcpSegment(sourcePort, destPort, numbers, reserved, control, options, payload) =>
        Put16(BigEndian, sourcePort) + Put16(BigEndian, destPort) + numbers
        + [16 * (5 + |options| / 4) + reserved] + control + options + payload
    }
  }

  function FirstHeader(extensions: seq<Extension>, protocol: byte): byte {
    if extensions == [] then protocol else extensions[0].Kind()
  }

  /** A chain of extension headers, each naming the next one. */
  function ChainBytes(extensions: seq<Extension>, protocol: byte): seq<byte>
    requires forall e <- extensions :: e.Valid()
  {
    if extensions == [] then
      []
    else
      extensions[0].Bytes(FirstHeader(extensions[1..], protocol)) + ChainBytes(extensions[1..], protocol)
  }

  function EtherTypeOf(ip: IpHeader): uint16 {
    if ip.IPv4? then 0x0800 else 0x86DD
  }

  /** What stands between the fixed part of the IP header and the segment. */
  function Between(ip: IpHeader, protocol: byte): seq<byte>
    requires ip.Valid()
  {
    if ip.IPv4? then ip.options else ChainBytes(ip.extensions, protocol)
  }

  /** Everything the IP header says follows its fixed part. */
  function IpPayload(ip: IpHeader, segment: Segment): seq<byte>
    requires ip.Valid() && segment.Valid()
  {
    Between(ip, segment.Protocol()) + segment.Bytes()
  }

  /** The length fields of both IP versions have 16 bits. */
  ghost predicate Fits(ip: IpHeader, segment: Segment)
    requires ip.Valid() && segment.Valid()
  {
    |IpPayload(ip, segment)| + (if ip.IPv4? then 20 else 0) < 0x1_0000
  }

  function FixedHeader(ip: IpHeader, segment: Segment): (s: seq<byte>)
    requires ip.Valid() && segment.Valid() && Fits(ip, segment)
    ensures |s| == if ip.IPv4? then 20 else 40
  {
    var length := |IpPayload(ip, segment)|;
    match ip
    case IPv4(serviceType, identification, flags, timeToLive, checksum, source, destination, options) =>
      [0x40 + 5 + |options| / 4, serviceType] + Put16(BigEndian, 20 + length) + Put16(BigEndian, identification)
      + [0x20 * flags, 0, timeToLive, segment.Protocol()] + Put16(BigEndian, checksum) + source + destination
    case IPv6(trafficClass, flow, hopLimit, source, destination, extensions) =>
      [0x60 + trafficClass] + flow + Put16(BigEndian, length)
      + [FirstHeader(extensions, segment.Protocol()), hopLimit] + source + destination
  }

  function IpBytes(ip: IpHeader, segment: Segment): seq<byte>
    requires ip.Valid() && segment.Valid() && Fits(ip, segment)
  {
    FixedHeader(ip, segment) + IpPayload(ip, segment)
  }

  /** A stack of tags and the EtherType they end in. */
  function TagBytes(tags: seq<VlanTag>, etherType: uint16): (s: seq<byte>)
    ensures |s| == 4 * |tags| + 2
  {
    if tags == [] then
      Put16(BigEndian, etherType)
    else
      Put16(BigEndian, tags[0].protocol) + Put16(BigEndian, tags[0].control) + TagBytes(tags[1..], etherType)
  }

  /** What the dissector ought to report. */
  function Expected(source: seq<byte>, destination: seq<byte>, segment: Segment, originalLength: int,
                    timestamp: Timestamp): CapturedPacket
  {
    CapturedPacket(
      timestamp, if segment.UdpSegment? then Udp else Tcp,
      source, segment.sourcePort, destination, segment.destPort,
      |segment.payload|, originalLength, segment.payload[..Min(|segment.payload|, 32)])
  }

  lemma {:induction false} TagsRoundTrip(tags: seq<VlanTag>, etherType: uint16, rest: seq<byte>)
    requires forall tag <- tags :: tag.Valid()
    requires etherType !in {0x8100, 0x88A8, 0x9100}
    ensures var s := TagBytes(tags, etherType) + rest;
            SkipTags(Get16(BigEndian, s, 0), s[2..]) == Some((etherType, 4 * |tags|))
  {
    var s := TagBytes(tags, etherType) + rest;
    if tags == [] {
      assert Get16(BigEndian, s, 0) == etherType;
    } else {
      var inner := TagBytes(tags[1..], etherType) + rest;
      assert tags[0].Valid();
      TagsRoundTrip(tags[1..], etherType, rest);
      assert s == Put16(BigEndian, tags[0].protocol) + Put16(BigEndian, tags[0].control) + inner;
      assert Get16(BigEndian, s, 0) == tags[0].protocol;
      assert s[2..][4..] == inner[2..];
      assert Get16(BigEndian, s[2..], 2) == Get16(BigEndian, inner, 0);
    }
  }

  /** Any other EtherType ends the link layer at once. */
  lemma UntaggedFrame(frame: seq<byte>)
    requires 14 <= |frame|
    ensures var etherType: int := 0x100 * (frame[12] as int) + frame[13];
            etherType !in {0x8100, 0x88A8, 0x9100} ==> LinkLayer(1, frame) == Some((etherType, 14))
  {
  }

  lemma ExtensionRoundTrip(extension: Extension, next: byte, rest: seq<byte>)
    requires extension.Valid()
    ensures var s := extension.Bytes(next) + rest;
            && IsExtension(extension.Kind())
            && ExtensionLength(extension.Kind(), s) == Some(|extension.Bytes(next)|)
            && s[0] == next
  {
  }

  lemma ExtensionSkipped(header: byte, extension: seq<byte>, next: byte, inner: seq<byte>)
    requires IsExtension(header) && extension != [] && extension[0] == next
    requires ExtensionLength(header, extension + inner) == Some(|extension|)
    ensures SkipExtensions(header, extension + inner) == After(|extension|, SkipExtensions(next, inner))
  {
    hide ExtensionLength;
    assert (extension + inner)[|extension|..] == inner;
  }

  lemma FirstExtension(extensions: seq<Extension>, protocol: byte)
    requires extensions != [] && forall e <- extensions :: e.Valid()
    ensures var first, next := extensions[0], FirstHeader(extensions[1..], protocol);
            && first.Valid() && |first.Bytes(next)| > 0 && first.Bytes(next)[0] == next
            && FirstHeader(extensions, protocol) == first.Kind()
            && ChainBytes(extensions, protocol) == first.Bytes(next) + ChainBytes(extensions[1..], protocol)
  {
  }

  lemma EmptyChain(protocol: byte, rest: seq<byte>)
    ensures FirstHeader([], protocol) == protocol && ChainBytes([], protocol) + rest == rest
  {
  }

  lemma {:induction false} ChainRoundTrip(extensions: seq<Extension>, protocol: byte, rest: seq<byte>)
    requires forall e <- extensions :: e.Valid()
    requires !IsExtension(protocol)
    ensures SkipExtensions(FirstHeader(extensions, protocol), ChainBytes(extensions, protocol) + rest)
         == Some((protocol, |ChainBytes(extensions, protocol)|))
    decreases |extensions|
  {
    hide SkipExtensions, ExtensionLength, ChainBytes, FirstHeader, Extension.Valid, Extension.Bytes, Extension.Kind;
    if extensions == [] {
      EmptyChain(protocol, rest);
      NoExtension(protocol, rest);
    } else {
      FirstExtension(extensions, protocol);
      var next := FirstHeader(extensions[1..], protocol);
      var first, more := extensions[0].Bytes(next), ChainBytes(extensions[1..], protocol);
      ChainRoundTrip(extensions[1..], protocol, rest);
      ExtensionRoundTrip(extensions[0], next, more + rest);
      ExtensionSkipped(extensions[0].Kind(), first, next, more + rest);
      ConcatAssociative(first, more, rest);
    }
  }

  function HeaderLength(segment: Segment): nat {
    if segment.UdpSegment? then 8 else 20 + |segment.options|
  }

  lemma SegmentFields(segment: Segment)
    requires segment.Valid()
    ensures var s := segment.Bytes();
            && |s| == HeaderLength(segment) + |segment.payload|
            && s[HeaderLength(segment)..] == segment.payload
            && Get16(BigEndian, s, 0) == segment.sourcePort
            && Get16(BigEndian, s, 2) == segment.destPort
            && (segment.UdpSegment? ==> Get16(BigEndian, s, 4) == 8 + |segment.payload|)
            && (segment.TcpSegment? ==> s[12] / 16 * 4 == HeaderLength(segment))
  {
  }

  lemma SegmentRoundTrip(segment: Segment, source: seq<byte>, destination: seq<byte>, originalLength: int,
                         timestamp: Timestamp)
    requires segment.Valid()
    ensures ParseTransport(
              segment.Bytes(),
              Located(0, |segment.Bytes()|, segment.Protocol(), source, destination, |segment.Bytes()|),
              originalLength, timestamp)
         == Some(Expected(source, destination, segment, originalLength, timestamp))
  {
    var s, header := segment.Bytes(), HeaderLength(segment);
    SegmentFields(segment);
    var length := Min(|segment.payload|, PREFIX_LIMIT);
    assert s[header..][..length] == s[header..header + length];
  }

  lemma PayloadPrefixShifted(frame: seq<byte>, start: nat, end: nat, offset: nat, payloadBytes: int)
    requires start <= end <= |frame|
    ensures PayloadPrefix(frame[start..end], offset, end - start, payloadBytes)
         == PayloadPrefix(frame, start + offset, end, payloadBytes)
  {
    if payloadBytes > 0 && offset < end - start {
      var length := Min(end - start - offset, PREFIX_LIMIT);
      SliceOfSlice(frame, start, end, offset, offset + length);
    }
  }

  lemma FieldShifted(frame: seq<byte>, start: nat, end: nat, i: nat)
    requires start <= end <= |frame| && i + 2 <= end - start
    ensures frame[start..end][i] == frame[start + i]
    ensures Get16(BigEndian, frame[start..end], i) == Get16(BigEndian, frame, start + i)
  {
  }

  /** Where a segment stands in its frame makes no difference. */
  lemma ParseTransportShifted(frame: seq<byte>, l: Located, originalLength: int, timestamp: Timestamp)
    requires l.start <= l.end <= |frame|
    ensures ParseTransport(frame, l, originalLength, timestamp)
         == ParseTransport(frame[l.start..l.end], l.(start := 0, end := l.end - l.start), originalLength, timestamp)
  {
    hide Get16, PayloadPrefix;
    if l.start + 8 <= l.end {
      FieldShifted(frame, l.start, l.end, 0);
      FieldShifted(frame, l.start, l.end, 2);
      FieldShifted(frame, l.start, l.end, 4);
      PayloadPrefixShifted(frame, l.start, l.end, 8, Get16(BigEndian, frame, l.start + 4) - 8);
    }
    if l.start + 20 <= l.end {
      FieldShifted(frame, l.start, l.end, 12);
      var headerLength := frame[l.start + 12] / 16 * 4;
      PayloadPrefixShifted(frame, l.start, l.end, headerLength, l.transportBytes - headerLength);
      PayloadPrefixShifted(frame, l.start, l.end, headerLength, 0);
    }
  }

  /** Where the transport header of a packet laid out at offset has to be found. */
  ghost function Layout(ip: IpHeader, segment: Segment, offset: nat): Located
    requires ip.Valid() && segment.Valid() && Fits(ip, segment)
  {
    var end := offset + |IpBytes(ip, segment)|;
    Located(end - |segment.Bytes()|, end, segment.Protocol(), ip.source, ip.destination, |segment.Bytes()|)
  }

  lemma FixedHeaderV4(ip: IpHeader, segment: Segment)
    requires ip.IPv4? && ip.Valid() && segment.Valid() && Fits(ip, segment)
    ensures var h := FixedHeader(ip, segment);
            && h[0] / 16 == 4 && h[0] % 16 * 4 == 20 + |ip.options|
            && Get16(BigEndian, h, 2) == 20 + |IpPayload(ip, segment)|
            && Get16(BigEndian, h, 6) % 0x2000 == 0
            && h[9] == segment.Protocol()
            && h[12..16] == ip.source && h[16..20] == ip.destination
  {
  }

  lemma FixedHeaderV6(ip: IpHeader, segment: Segment)
    requires ip.IPv6? && ip.Valid() && segment.Valid() && Fits(ip, segment)
    ensures var h := FixedHeader(ip, segment);
            && h[0] / 16 == 6
            && Get16(BigEndian, h, 4) == |IpPayload(ip, segment)|
            && h[6] == FirstHeader(ip.extensions, segment.Protocol())
            && h[8..24] == ip.source && h[24..40] == ip.destination
  {
  }

  /** A packet with this fixed header and this payload stands at offset. */
  ghost predicate CarriesAt(frame: seq<byte>, offset: nat, header: seq<byte>, payload: seq<byte>) {
    && offset + |header| + |payload| <= |frame|
    && frame[offset..offset + |header|] == header
    && frame[offset + |header|..offset + |header| + |payload|] == payload
  }

  lemma HeaderAt(frame: seq<byte>, offset: nat, header: seq<byte>, i: nat)
    requires offset + |header| <= |frame| && frame[offset..offset + |header|] == header
    requires i < |header|
    ensures frame[offset + i] == header[i]
    ensures i + 1 < |header| ==> Get16(BigEndian, frame, offset + i) == Get16(BigEndian, header, i)
  {
    assert frame[offset..offset + |header|][i] == frame[offset + i];
    if i + 1 < |header| {
      assert frame[offset..offset + |header|][i + 1] == frame[offset + i + 1];
    }
  }

  lemma LocateIPv4Carried(frame: seq<byte>, offset: nat, header: seq<byte>, payload: seq<byte>, options: nat)
    requires CarriesAt(frame, offset, header, payload) && options <= |payload|
    requires |header| == 20 && header[0] / 16 == 4 && header[0] % 16 * 4 == 20 + options
    requires Get16(BigEndian, header, 6) % 0x2000 == 0
    requires Get16(BigEndian, header, 2) == 20 + |payload|
    ensures LocateIPv4(frame, offset)
         == Some(Located(offset + 20 + options, offset + 20 + |payload|, header[9],
                         header[12..16], header[16..20], |payload| - options))
  {
    HeaderAt(frame, offset, header, 0);
    HeaderAt(frame, offset, header, 2);
    HeaderAt(frame, offset, header, 6);
    HeaderAt(frame, offset, header, 9);
    SliceOfSlice(frame, offset, offset + 20, 12, 16);
    SliceOfSlice(frame, offset, offset + 20, 16, 20);
  }

  ghost predicate IPv6HeaderFor(header: seq<byte>, payload: seq<byte>) {
    |header| == 40 && header[0] / 16 == 6 && Get16(BigEndian, header, 4) == |payload|
  }

  lemma IPv6HeaderCarried(frame: seq<byte>, offset: nat, header: seq<byte>, payload: seq<byte>)
    requires CarriesAt(frame, offset, header, payload) && IPv6HeaderFor(header, payload)
    ensures HasIPv6Header(frame, offset) && frame[offset + 6] == header[6]
    ensures IPv6PacketEnd(frame, offset) == offset + 40 + |payload|
  {
    HeaderAt(frame, offset, header, 0);
    HeaderAt(frame, offset, header, 4);
    HeaderAt(frame, offset, header, 6);
  }

  lemma IPv6ChainCarried(frame: seq<byte>, offset: nat, header: byte, payload: seq<byte>)
    requires HasIPv6Header(frame, offset) && frame[offset + 6] == header
    requires frame[offset + 40..IPv6PacketEnd(frame, offset)] == payload
    ensures IPv6Chain(frame, offset) == SkipExtensions(header, payload)
  {
  }

  lemma BehindChainCarried(frame: seq<byte>, offset: nat, header: seq<byte>, payload: seq<byte>, protocol: byte,
                           length: nat)
    requires CarriesAt(frame, offset, header, payload) && IPv6HeaderFor(header, payload)
    requires HasIPv6Header(frame, offset) && IPv6PacketEnd(frame, offset) == offset + 40 + |payload|
    ensures BehindChain(frame, offset, protocol, length)
         == Located(offset + 40 + length, offset + 40 + |payload|, protocol,
                    header[8..24], header[24..40], |payload| - length)
  {
    HeaderAt(frame, offset, header, 4);
    SliceOfSlice(frame, offset, offset + 40, 8, 24);
    SliceOfSlice(frame, offset, offset + 40, 24, 40);
  }

  lemma LocateIPv6Carried(frame: seq<byte>, offset: nat, header: seq<byte>, payload: seq<byte>, protocol: byte,
                          length: nat)
    requires CarriesAt(frame, offset, header, payload) && IPv6HeaderFor(header, payload)
    requires SkipExtensions(header[6], payload) == Some((protocol, length))
    ensures LocateIPv6(frame, offset)
         == Some(Located(offset + 40 + length, offset + 40 + |payload|, protocol,
                         header[8..24], header[24..40], |payload| - length))
  {
    IPv6HeaderCarried(frame, offset, header, payload);
    IPv6ChainCarried(frame, offset, header[6], payload);
    BehindChainCarried(frame, offset, header, payload, protocol, length);
  }

  lemma PayloadChain(ip: IpHeader, segment: Segment)
    requires ip.IPv6? && ip.Valid() && segment.Valid()
    ensures SkipExtensions(FirstHeader(ip.extensions, segment.Protocol()), IpPayload(ip, segment))
         == Some((segment.Protocol(), |Between(ip, segment.Protocol())|))
  {
    ChainRoundTrip(ip.extensions, segment.Protocol(), segment.Bytes());
  }

  lemma LocateIPv4RoundTrip(frame: seq<byte>, offset: nat, ip: IpHeader, segment: Segment)
    requires ip.IPv4? && ip.Valid() && segment.Valid() && Fits(ip, segment)
    requires CarriesAt(frame, offset, FixedHeader(ip, segment), IpPayload(ip, segment))
    ensures LocateIPv4(frame, offset) == Some(Layout(ip, segment, offset))
  {
    hide FixedHeader, LocateIPv4, CarriesAt, Get16;
    FixedHeaderV4(ip, segment);
    LocateIPv4Carried(frame, offset, FixedHeader(ip, segment), IpPayload(ip, segment), |ip.options|);
  }

  lemma LocateIPv6RoundTrip(frame: seq<byte>, offset: nat, ip: IpHeader, segment: Segment)
    requires ip.IPv6? && ip.Valid() && segment.Valid() && Fits(ip, segment)
    requires CarriesAt(frame, offset, FixedHeader(ip, segment), IpPayload(ip, segment))
    ensures LocateIPv6(frame, offset) == Some(Layout(ip, segment, offset))
  {
    hide SkipExtensions, ChainBytes, FixedHeader, LocateIPv6, CarriesAt, Get16;
    FixedHeaderV6(ip, segment);
    PayloadChain(ip, segment);
    LocateIPv6Carried(frame, offset, FixedHeader(ip, segment), IpPayload(ip, segment), segment.Protocol(),
                      |Between(ip, segment.Protocol())|);
  }

  lemma LocateRoundTrip(linkType: uint16, frame: seq<byte>, offset: nat, ip: IpHeader, segment: Segment)
    requires ip.Valid() && segment.Valid() && Fits(ip, segment)
    requires CarriesAt(frame, offset, FixedHeader(ip, segment), IpPayload(ip, segment))
    requires LinkLayer(linkType, frame) == Some((EtherTypeOf(ip), offset))
    ensures Locate(linkType, frame) == Some(Layout(ip, segment, offset))
  {
    if ip.IPv4? {
      LocateIPv4RoundTrip(frame, offset, ip, segment);
    } else {
      LocateIPv6RoundTrip(frame, offset, ip, segment);
    }
  }

  lemma SegmentAt(frame: seq<byte>, offset: nat, ip: IpHeader, segment: Segment)
    requires ip.Valid() && segment.Valid() && Fits(ip, segment)
    requires CarriesAt(frame, offset, FixedHeader(ip, segment), IpPayload(ip, segment))
    ensures var l := Layout(ip, segment, offset);
            l.start <= l.end <= |frame| && frame[l.start..l.end] == segment.Bytes()
  {
    hide FixedHeader, ChainBytes, Segment.Bytes;
    var between, s := Between(ip, segment.Protocol()), segment.Bytes();
    var from := offset + |FixedHeader(ip, segment)|;
    SliceOfSlice(frame, from, from + |between + s|, |between|, |between| + |s|);
  }

  /** A packet behind a link header is reported with its own addresses, ports and payload. */
  lemma PacketRoundTrip(linkType: uint16, frame: seq<byte>, offset: nat, ip: IpHeader, segment: Segment,
                        originalLength: int, timestamp: Timestamp)
    requires ip.Valid() && segment.Valid() && Fits(ip, segment)
    requires CarriesAt(frame, offset, FixedHeader(ip, segment), IpPayload(ip, segment))
    requires LinkLayer(linkType, frame) == Some((EtherTypeOf(ip), offset))
    ensures Dissect(linkType, frame, originalLength, timestamp)
         == Some(Expected(ip.source, ip.destination, segment, originalLength, timestamp))
  {
    hide FixedHeader, ChainBytes, Segment.Bytes, Locate, ParseTransport;
    var l := Layout(ip, segment, offset);
    LocateRoundTrip(linkType, frame, offset, ip, segment);
    SegmentAt(frame, offset, ip, segment);
    ParseTransportShifted(frame, l, originalLength, timestamp);
    SegmentRoundTrip(segment, ip.source, ip.destination, originalLength, timestamp);
  }

  /**
   * Ethernet: whatever the MAC addresses, the stack of VLAN tags, the IPv4
   * options or IPv6 extension headers and the padding behind the packet.
   */
  lemma EthernetRoundTrip(macs: seq<byte>, tags: seq<VlanTag>, ip: IpHeader, segment: Segment, padding: seq<byte>,
                          originalLength: int, timestamp: Timestamp)
    requires |macs| == 12 && forall tag <- tags :: tag.Valid()
    requires ip.Valid() && segment.Valid() && Fits(ip, segment)
    ensures Dissect(
              1,
              macs + TagBytes(tags, EtherTypeOf(ip)) + (IpBytes(ip, segment) + padding),
              originalLength, timestamp)
         == Some(Expected(ip.source, ip.destination, segment, originalLength, timestamp))
  {
    hide FixedHeader, IpBytes, IpPayload, Expected, Dissect, SkipTags, TagBytes, CarriesAt;
    var packet := IpBytes(ip, segment) + padding;
    var link := TagBytes(tags, EtherTypeOf(ip));
    TagsRoundTrip(tags, EtherTypeOf(ip), packet);
    EthernetLink(macs, link, packet);
    PacketBehind(macs + link, ip, segment, padding);
    PacketRoundTrip(LINK_TYPE_ETHERNET, macs + link + packet, |macs + link|, ip, segment, originalLength, timestamp);
  }

  lemma CarriedBehind(before: seq<byte>, header: seq<byte>, payload: seq<byte>, padding: seq<byte>)
    ensures CarriesAt(before + (header + payload + padding), |before|, header, payload)
  {
  }

  lemma PacketBehind(before: seq<byte>, ip: IpHeader, segment: Segment, padding: seq<byte>)
    requires ip.Valid() && segment.Valid() && Fits(ip, segment)
    ensures CarriesAt(before + (IpBytes(ip, segment) + padding), |before|,
                      FixedHeader(ip, segment), IpPayload(ip, segment))
  {
    hide FixedHeader, IpPayload, CarriesAt;
    CarriedBehind(before, FixedHeader(ip, segment), IpPayload(ip, segment), padding);
  }

  lemma EthernetLink(macs: seq<byte>, link: seq<byte>, packet: seq<byte>)
    requires |macs| == 12 && 2 <= |link|
    ensures LinkLayer(LINK_TYPE_ETHERNET, macs + link + packet)
         == After(14, SkipTags(Get16(BigEndian, link + packet, 0), (link + packet)[2..]))
  {
    var frame, behind := macs + link + packet, link + packet;
    assert frame[12] == behind[0] && frame[13] == behind[1];
    assert frame[14..] == behind[2..];
  }

  /** Raw IP. */
  lemma RawRoundTrip(ip: IpHeader, segment: Segment, padding: seq<byte>, originalLength: int, timestamp: Timestamp)
    requires ip.Valid() && segment.Valid() && Fits(ip, segment)
    ensures Dissect(101, IpBytes(ip, segment) + padding, originalLength, timestamp)
         == Some(Expected(ip.source, ip.destination, segment, originalLength, timestamp))
  {
    hide CarriesAt, Expected, Dissect, IpPayload;
    var frame := IpBytes(ip, segment) + padding;
    if ip.IPv4? {
      FixedHeaderV4(ip, segment);
    } else {
      FixedHeaderV6(ip, segment);
    }
    assert frame[0] == FixedHeader(ip, segment)[0];
    PacketBehind([], ip, segment, padding);
    assert frame == [] + frame;
    PacketRoundTrip(LINK_TYPE_RAW, frame, 0, ip, segment, originalLength, timestamp);
  }
}
