// Fragments.  The IPv4 branch of the dissector drops every fragment but the
// first.  The IPv6 header walk steps over fragment headers without looking at
// the offset in them.

module Fragments {
  import opened Bytes
  import opened Results
  import opened Frames
  import opened FrameTruncation
  import opened FrameRoundTrip

  /** The walk meets a complete fragment header at rest[i]. */
  predicate FragmentAt(header: byte, rest: seq<byte>, i: nat)
    decreases |rest|
  {
    && IsExtension(header)
    && match ExtensionLength(header, rest)
       case None => false
       case Some(length) =>
         length <= |rest|
         && if i == 0 then header == 44 else length <= i && FragmentAt(rest[0], rest[length..], i - length)
  }

  /** The IPv6 packet at offset has a fragment header at i. */
  predicate PacketHoldsFragment(frame: seq<byte>, offset: nat, i: nat) {
    HasIPv6Header(frame, offset) && offset + 40 <= i
    && FragmentAt(frame[offset + 6], frame[offset + 40..IPv6PacketEnd(frame, offset)], i - (offset + 40))
  }

  /** A fragment header at frame[i] is on the extension header chain of an IPv6 packet. */
  predicate HoldsFragment(linkType: uint16, frame: seq<byte>, i: nat) {
    match LinkLayer(linkType, frame)
    case None => false
    case Some((etherType, offset)) => etherType == ETHER_TYPE_IPV6 && PacketHoldsFragment(frame, offset, i)
  }

  /** The two agree outside of bytes 1 to 7 of the fragment header at i. */
  ghost predicate SameButFragment(a: seq<byte>, b: seq<byte>, i: nat) {
    |a| == |b| && forall j | 0 <= j < |a| && !(i < j < i + 8) :: a[j] == b[j]
  }

  // --------------------------------------- the contents of fragment headers do not matter

  lemma {:induction false} FragmentInside(header: byte, rest: seq<byte>, i: nat)
    requires FragmentAt(header, rest, i)
    ensures i + 8 <= |rest|
    ensures var r := SkipExtensions(header, rest); r.Some? ==> i + 8 <= r.value.1
    decreases |rest|
  {
    var length := ExtensionLength(header, rest).value;
    if i > 0 {
      FragmentInside(rest[0], rest[length..], i - length);
    }
  }

  /** The first header of the chain, and what becomes of the chain when it is taken off. */
  lemma ChainTaken(header: byte, rest: seq<byte>, i: nat)
    requires FragmentAt(header, rest, i)
    ensures IsExtension(header) && ExtensionLength(header, rest).Some? && 8 <= |rest|
    ensures i == 0 ==> header == 44
    ensures var length := ExtensionLength(header, rest).value;
            length <= |rest| && (i > 0 ==> length <= i && FragmentAt(rest[0], rest[length..], i - length))
            && SkipExtensions(header, rest) == After(length, SkipExtensions(rest[0], rest[length..]))
  {
  }

  lemma TakeOff(header: byte, rest: seq<byte>, i: nat)
    requires IsExtension(header) && ExtensionLength(header, rest).Some?
    ensures var length := ExtensionLength(header, rest).value;
            length <= |rest| ==>
              SkipExtensions(header, rest) == After(length, SkipExtensions(rest[0], rest[length..]))
              && (FragmentAt(header, rest, i)
                  <==> if i == 0 then header == 44 else length <= i && FragmentAt(rest[0], rest[length..], i - length))
  {
  }

  lemma SameLength(header: byte, a: seq<byte>, b: seq<byte>, i: nat)
    requires FragmentAt(header, a, i) && SameButFragment(a, b, i)
    ensures ExtensionLength(header, b) == ExtensionLength(header, a)
    ensures var length := ExtensionLength(header, a).value;
            a[0] == b[0] && (i == 0 ==> length == 8 && a[length..] == b[length..])
            && (i > 0 ==> SameButFragment(a[length..], b[length..], i - length))
  {
    hide SkipExtensions;
    ChainTaken(header, a, i);
    if i == 0 {
      assert a[8..] == b[8..];
    }
  }

  lemma {:induction false} SkipExtensionsIgnores(header: byte, a: seq<byte>, b: seq<byte>, i: nat)
    requires FragmentAt(header, a, i) && SameButFragment(a, b, i)
    ensures SkipExtensions(header, b) == SkipExtensions(header, a)
    ensures FragmentAt(header, b, i)
    decreases |a|
  {
    hide SkipExtensions, FragmentAt, ExtensionLength, SameButFragment;
    ChainTaken(header, a, i);
    SameLength(header, a, b, i);
    SameSize(a, b, i);
    TakeOff(header, b, i);
    var length := ExtensionLength(header, a).value;
    if i > 0 {
      SkipExtensionsIgnores(a[0], a[length..], b[length..], i - length);
    }
  }

  lemma SameSize(a: seq<byte>, b: seq<byte>, i: nat)
    requires SameButFragment(a, b, i)
    ensures |a| == |b|
  {
  }

  lemma LinkLayerIgnores(linkType: uint16, a: seq<byte>, b: seq<byte>, i: nat)
    requires SameButFragment(a, b, i) && 0 < i <= |a|
    requires LinkLayer(linkType, a).Some? && LinkLayer(linkType, a).value.1 <= i
    ensures LinkLayer(linkType, b) == LinkLayer(linkType, a)
  {
    hide LinkLayer;
    assert a[..i] == b[..i];
    LinkLayerTruncated(linkType, a, i);
    LinkLayerTruncated(linkType, b, i);
  }

  lemma LocateIPv6Ignores(a: seq<byte>, b: seq<byte>, offset: nat, i: nat)
    requires PacketHoldsFragment(a, offset, i) && SameButFragment(a, b, i)
    ensures PacketHoldsFragment(b, offset, i)
    ensures LocateIPv6(b, offset) == LocateIPv6(a, offset)
    ensures i + 8 <= |a|
    ensures var l := LocateIPv6(a, offset); l.Some? ==> i + 8 <= l.value.start
  {
    hide FragmentAt, SkipExtensions;
    var end := IPv6PacketEnd(a, offset);
    assert IPv6PacketEnd(b, offset) == end;
    FragmentInside(a[offset + 6], a[offset + 40..end], i - (offset + 40));
    SkipExtensionsIgnores(a[offset + 6], a[offset + 40..end], b[offset + 40..end], i - (offset + 40));
    assert a[offset + 8..offset + 24] == b[offset + 8..offset + 24];
    assert a[offset + 24..offset + 40] == b[offset + 24..offset + 40];
  }

  lemma ParseTransportIgnores(a: seq<byte>, b: seq<byte>, l: Located, originalLength: int, timestamp: Timestamp)
    requires |a| == |b| && l.end <= |a| && forall j | l.start <= j < |a| :: a[j] == b[j]
    ensures ParseTransport(b, l, originalLength, timestamp) == ParseTransport(a, l, originalLength, timestamp)
  {
    hide PayloadPrefix;
    forall offset: nat, payloadBytes: int | l.start <= offset
      ensures PayloadPrefix(b, offset, l.end, payloadBytes) == PayloadPrefix(a, offset, l.end, payloadBytes)
    {
      PayloadPrefixIgnores(a, b, offset, l.end, payloadBytes);
    }
  }

  lemma PayloadPrefixIgnores(a: seq<byte>, b: seq<byte>, offset: nat, end: nat, payloadBytes: int)
    requires |a| == |b| && end <= |a| && forall j | offset <= j < |a| :: a[j] == b[j]
    ensures PayloadPrefix(b, offset, end, payloadBytes) == PayloadPrefix(a, offset, end, payloadBytes)
  {
  }

  /**
   * For every link type and any two frames that differ only within a fragment
   * header on the chain, in whatever follows its next-header byte: the report
   * is the same.
   */
  lemma FragmentFieldsIgnored(linkType: uint16, a: seq<byte>, b: seq<byte>, i: nat, originalLength: int,
                              timestamp: Timestamp)
    requires HoldsFragment(linkType, a, i) && SameButFragment(a, b, i)
    ensures HoldsFragment(linkType, b, i)
    ensures Dissect(linkType, b, originalLength, timestamp) == Dissect(linkType, a, originalLength, timestamp)
  {
    hide LinkLayer, FragmentAt, LocateIPv6, ParseTransport;
    var offset := LinkLayer(linkType, a).value.1;
    LocateIPv6Ignores(a, b, offset, i);
    LinkLayerIgnores(linkType, a, b, i);
    var located := LocateIPv6(a, offset);
    if located.Some? {
      ParseTransportIgnores(a, b, located.value, originalLength, timestamp);
    }
  }

  // --------------------------------------------------- when later fragments are reported

  /** The 13-bit offset of the fragment header at i. */
  function FragmentOffset(frame: seq<byte>, i: nat): nat
    requires i + 4 <= |frame|
  {
    Get16(BigEndian, frame, i + 2) / 8
  }

  /** The IPv6 packet of the frame is a fragment other than the first. */
  ghost predicate IsLaterIPv6Fragment(linkType: uint16, frame: seq<byte>) {
    exists i: nat | HoldsFragment(linkType, frame, i) :: i + 4 <= |frame| && FragmentOffset(frame, i) != 0
  }

  /** What stands behind the IP headers can be taken for a UDP or TCP header. */
  predicate LooksLikeTransport(linkType: uint16, frame: seq<byte>) {
    match Locate(linkType, frame)
    case None => false
    case Some(l) =>
      || (l.protocol == PROTOCOL_UDP && l.start + 8 <= l.end && Get16(BigEndian, frame, l.start + 4) >= 8)
      || (l.protocol == PROTOCOL_TCP && l.start + 20 <= l.end && frame[l.start + 12] / 16 >= 5)
  }

  /** Exactly the frames with such bytes behind their IP headers are reported. */
  lemma ReportedFrames(linkType: uint16, frame: seq<byte>, originalLength: int, timestamp: Timestamp)
    ensures Dissect(linkType, frame, originalLength, timestamp).Some? <==> LooksLikeTransport(linkType, frame)
  {
    hide Locate;
  }

  /** The same frame with the offset of the fragment header at i set to zero. */
  function AsFirstFragment(frame: seq<byte>, i: nat): (r: seq<byte>)
    requires i + 4 <= |frame|
    ensures |r| == |frame|
  {
    frame[i + 2 := 0][i + 3 := frame[i + 3] % 8]
  }

  lemma OffsetCleared(frame: seq<byte>, i: nat)
    requires i + 4 <= |frame|
    ensures SameButFragment(frame, AsFirstFragment(frame, i), i)
    ensures FragmentOffset(AsFirstFragment(frame, i), i) == 0
    ensures Get16(BigEndian, AsFirstFragment(frame, i), i + 2) == Get16(BigEndian, frame, i + 2) % 8
  {
    var high: int, low: int := frame[i + 2], frame[i + 3];
    assert Get16(BigEndian, frame, i + 2) == 8 * (0x20 * high + low / 8) + low % 8;
  }

  /**
   * A later IPv6 fragment is reported exactly like the first fragment it would
   * be with a zero offset; so it is dropped, as it should be, if and only if
   * that first fragment has no transport header that could be reported.
   */
  lemma LaterIPv6FragmentsDropped(linkType: uint16, frame: seq<byte>, i: nat, originalLength: int,
                                  timestamp: Timestamp)
    requires HoldsFragment(linkType, frame, i)
    ensures i + 8 <= |frame|
    ensures var first := AsFirstFragment(frame, i);
            && HoldsFragment(linkType, first, i) && FragmentOffset(first, i) == 0
            && Dissect(linkType, frame, originalLength, timestamp)
               == Dissect(linkType, first, originalLength, timestamp)
            && (Dissect(linkType, frame, originalLength, timestamp) == None
                <==> !LooksLikeTransport(linkType, first))
  {
    hide LinkLayer, FragmentAt, LocateIPv6, Dissect, LooksLikeTransport, SameButFragment;
    SameFrame(frame, i);
    LocateIPv6Ignores(frame, frame, LinkLayer(linkType, frame).value.1, i);
    OffsetCleared(frame, i);
    FragmentFieldsIgnored(linkType, frame, AsFirstFragment(frame, i), i, originalLength, timestamp);
    ReportedFrames(linkType, AsFirstFragment(frame, i), originalLength, timestamp);
  }

  lemma SameFrame(frame: seq<byte>, i: nat)
    ensures SameButFragment(frame, frame, i)
  {
  }

  /** The IPv4 branch drops every later fragment. */
  lemma LaterIPv4FragmentsDropped(linkType: uint16, frame: seq<byte>, originalLength: int, timestamp: Timestamp)
    requires LinkLayer(linkType, frame).Some? && LinkLayer(linkType, frame).value.0 == ETHER_TYPE_IPV4
    requires var offset := LinkLayer(linkType, frame).value.1;
             offset + 8 <= |frame| && Get16(BigEndian, frame, offset + 6) % 0x2000 != 0
    ensures Dissect(linkType, frame, originalLength, timestamp) == None
  {
    hide LinkLayer;
  }

  /** Frames on which it fails: whatever the offset, the fragment is reported like an unfragmented packet. */
  lemma LaterIPv6FragmentsAreReported(ip: IpHeader, segment: Segment, padding: seq<byte>, originalLength: int,
                                      timestamp: Timestamp)
    requires ip.IPv6? && ip.Valid() && ip.extensions != [] && ip.extensions[0].Fragment?
    requires ip.extensions[0].Valid() && Get16(BigEndian, ip.extensions[0].body, 1) / 8 != 0
    requires segment.Valid() && Fits(ip, segment)
    ensures var frame := IpBytes(ip, segment) + padding;
            && IsLaterIPv6Fragment(LINK_TYPE_RAW, frame)
            && Dissect(LINK_TYPE_RAW, frame, originalLength, timestamp)
               == Some(Expected(ip.source, ip.destination, segment, originalLength, timestamp))
  {
    hide Expected, Dissect;
    RawRoundTrip(ip, segment, padding, originalLength, timestamp);
    FirstExtensionHeld(ip, segment, padding);
  }

  lemma FirstExtensionHeld(ip: IpHeader, segment: Segment, padding: seq<byte>)
    requires ip.IPv6? && ip.Valid() && ip.extensions != [] && ip.extensions[0].Fragment?
    requires ip.extensions[0].Valid() && segment.Valid() && Fits(ip, segment)
    ensures var frame := IpBytes(ip, segment) + padding;
            HoldsFragment(LINK_TYPE_RAW, frame, 40) && 44 <= |frame|
            && FragmentOffset(frame, 40) == Get16(BigEndian, ip.extensions[0].body, 1) / 8
  {
    hide FixedHeader, ChainBytes, Segment.Bytes, CarriesAt;
    var header, payload := FixedHeader(ip, segment), IpPayload(ip, segment);
    var frame := IpBytes(ip, segment) + padding;
    FixedHeaderV6(ip, segment);
    FirstExtension(ip.extensions, segment.Protocol());
    var first := ip.extensions[0].Bytes(FirstHeader(ip.extensions[1..], segment.Protocol()));
    assert |first| == 8 && payload[..8] == first;
    assert frame[..40] == header && frame[40..40 + |payload|] == payload;
    assert frame[0] == header[0] && frame[6] == header[6];
    assert Get16(BigEndian, frame, 4) == Get16(BigEndian, header, 4);
    assert IPv6PacketEnd(frame, 0) == 40 + |payload|;
    assert frame[42] == payload[2] == first[2] && frame[43] == payload[3] == first[3];
  }
}
