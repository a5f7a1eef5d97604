// A capture tool may keep only the first bytes of a frame.  What the dissector
// reports does not depend on how many, once the transport header is complete.

module FrameTruncation {
  import opened Bytes
  import opened Results
  import opened Frames

  /** What survives of a located stretch when everything from n on is cut off. */
  function Within<T>(n: nat, r: Option<(T, nat)>): Option<(T, nat)> {
    if r.Some? && r.value.1 <= n then r else None
  }

  lemma {:induction false} SkipTagsTruncated(etherType: uint16, rest: seq<byte>, n: nat)
    requires n <= |rest|
    ensures SkipTags(etherType, rest[..n]) == Within(n, SkipTags(etherType, rest))
    decreases |rest|
  {
    if IsTag(etherType) && 4 <= n {
      SkipTagsTruncated(Get16(BigEndian, rest, 2), rest[4..], n - 4);
      CutThenDrop(rest, n, 4);
    }
  }

  lemma {:induction false} SkipExtensionsTruncated(header: byte, rest: seq<byte>, n: nat)
    requires n <= |rest|
    ensures SkipExtensions(header, rest[..n]) == Within(n, SkipExtensions(header, rest))
    decreases |rest|
  {
    if IsExtension(header) {
      var length := ExtensionLength(header, rest);
      if length.Some? && length.value <= n {
        var k := length.value;
        assert ExtensionLength(header, rest[..n]) == length;
        SkipExtensionsTruncated(rest[0], rest[k..], n - k);
        CutThenDrop(rest, n, k);
      }
    }
  }

  lemma LinkLayerTruncated(linkType: uint16, frame: seq<byte>, n: nat)
    requires 0 < n <= |frame|
    ensures LinkLayer(linkType, frame[..n]) == Within(n, LinkLayer(linkType, frame))
  {
    if linkType == LINK_TYPE_ETHERNET && 14 <= n {
      SkipTagsTruncated(Get16(BigEndian, frame, 12), frame[14..], n - 14);
      CutThenDrop(frame, n, 14);
    }
  }

  function LocatedWithin(n: nat, r: Option<Located>): Option<Located> {
    match r
    case None => None
    case Some(l) => if l.start <= n then Some(l.(end := Min(l.end, n))) else None
  }

  lemma LocateIPv4Truncated(frame: seq<byte>, offset: nat, n: nat)
    requires offset <= n <= |frame|
    ensures LocateIPv4(frame[..n], offset) == LocatedWithin(n, LocateIPv4(frame, offset))
  {
    if offset + 20 <= n {
      assert frame[..n][offset + 12..offset + 16] == frame[offset + 12..offset + 16];
      assert frame[..n][offset + 16..offset + 20] == frame[offset + 16..offset + 20];
    }
  }

  lemma IPv6HeaderTruncated(frame: seq<byte>, offset: nat, n: nat)
    requires HasIPv6Header(frame, offset) && offset + 40 <= n <= |frame|
    ensures HasIPv6Header(frame[..n], offset)
    ensures IPv6PacketEnd(frame[..n], offset) == Min(IPv6PacketEnd(frame, offset), n)
    ensures frame[..n][offset + 6] == frame[offset + 6]
  {
  }

  lemma IPv6ChainTruncated(frame: seq<byte>, offset: nat, n: nat)
    requires HasIPv6Header(frame, offset) && offset + 40 <= n <= |frame|
    ensures HasIPv6Header(frame[..n], offset)
    ensures IPv6PacketEnd(frame[..n], offset) == Min(IPv6PacketEnd(frame, offset), n)
    ensures IPv6Chain(frame[..n], offset)
         == Within(Min(IPv6PacketEnd(frame, offset), n) - (offset + 40), IPv6Chain(frame, offset))
  {
    hide HasIPv6Header, IPv6PacketEnd, SkipExtensions;
    IPv6HeaderTruncated(frame, offset, n);
    var from, end := offset + 40, IPv6PacketEnd(frame, offset);
    var rest, cutEnd := frame[from..end], Min(end, n);
    SkipExtensionsTruncated(frame[offset + 6], rest, cutEnd - from);
    SliceOfSlice(frame, from, end, 0, cutEnd - from);
    CutThenSlice(frame, n, from, cutEnd);
  }

  lemma LocateIPv6Truncated(frame: seq<byte>, offset: nat, n: nat)
    requires offset <= n <= |frame|
    ensures LocateIPv6(frame[..n], offset) == LocatedWithin(n, LocateIPv6(frame, offset))
  {
    if HasIPv6Header(frame, offset) && offset + 40 <= n {
      IPv6ChainTruncated(frame, offset, n);
      CutThenSlice(frame, n, offset + 8, offset + 24);
      CutThenSlice(frame, n, offset + 24, offset + 40);
    }
  }

  /** Cutting a frame moves no header: the transport header stays where it was, or is lost. */
  lemma LocateTruncated(linkType: uint16, frame: seq<byte>, n: nat)
    requires n <= |frame|
    ensures Locate(linkType, frame[..n]) == LocatedWithin(n, Locate(linkType, frame))
  {
    if 0 < n {
      LinkLayerTruncated(linkType, frame, n);
      match LinkLayer(linkType, frame)
      case None =>
      case Some((etherType, offset)) =>
        if offset <= n {
          LocateIPv4Truncated(frame, offset, n);
          LocateIPv6Truncated(frame, offset, n);
        }
    }
  }

  /** The transport header bytes the dissector insists on. */
  function HeaderBytes(protocol: byte): nat {
    if protocol == PROTOCOL_TCP then 20 else 8
  }

  lemma PayloadPrefixTruncated(frame: seq<byte>, offset: nat, end: nat, n: nat, payloadBytes: int)
    requires n <= |frame| && end <= |frame|
    ensures PayloadPrefix(frame[..n], offset, Min(end, n), payloadBytes)
         <= PayloadPrefix(frame, offset, end, payloadBytes)
  {
    if payloadBytes > 0 && offset < Min(end, n) {
      CutThenSlice(frame, n, offset, offset + Min(Min(end, n) - offset, PREFIX_LIMIT));
    }
  }

  lemma FieldTruncated(frame: seq<byte>, n: nat, i: nat)
    requires i + 2 <= n <= |frame|
    ensures frame[..n][i] == frame[i] && Get16(BigEndian, frame[..n], i) == Get16(BigEndian, frame, i)
  {
  }

  /** The two reports, where both exist, differ in the payload prefix alone. */
  ghost predicate Shortened(whole: CapturedPacket, cut: CapturedPacket) {
    && cut == whole.(payloadPrefix := cut.payloadPrefix)
    && cut.payloadPrefix <= whole.payloadPrefix
  }

  lemma ParseTransportTruncated(frame: seq<byte>, l: Located, n: nat, originalLength: int, timestamp: Timestamp)
    requires l.start <= n <= |frame| && l.end <= |frame|
    ensures var whole := ParseTransport(frame, l, originalLength, timestamp);
            var cut := ParseTransport(frame[..n], l.(end := Min(l.end, n)), originalLength, timestamp);
            && (cut.Some? <==> whole.Some? && l.start + HeaderBytes(l.protocol) <= n)
            && (cut.Some? ==> Shortened(whole.value, cut.value))
  {
    hide Get16, PayloadPrefix;
    var end := Min(l.end, n);
    if l.start + 8 <= end {
      FieldTruncated(frame, n, l.start);
      FieldTruncated(frame, n, l.start + 2);
      FieldTruncated(frame, n, l.start + 4);
      PayloadPrefixTruncated(frame, l.start + 8, l.end, n, Get16(BigEndian, frame, l.start + 4) - 8);
    }
    if l.start + 20 <= end {
      FieldTruncated(frame, n, l.start + 12);
      var headerLength := frame[l.start + 12] / 16 * 4;
      PayloadPrefixTruncated(frame, l.start + headerLength, l.end, n, l.transportBytes - headerLength);
      PayloadPrefixTruncated(frame, l.start + headerLength, l.end, n, 0);
    }
  }

  /**
   * For every frame and every cut: the cut frame is accepted if and only if the
   * whole one is and the cut spares the transport header; the two reports then
   * agree on everything but the payload prefix, which is a prefix of the other.
   */
  lemma SnapshotTruncation(linkType: uint16, frame: seq<byte>, n: nat, originalLength: int, timestamp: Timestamp)
    requires n <= |frame|
    ensures var whole := Dissect(linkType, frame, originalLength, timestamp);
            var cut := Dissect(linkType, frame[..n], originalLength, timestamp);
            var l := Locate(linkType, frame);
            && (cut.Some? <==> whole.Some? && l.value.start + HeaderBytes(l.value.protocol) <= n)
            && (cut.Some? ==> Shortened(whole.value, cut.value))
  {
    LocateTruncated(linkType, frame, n);
    match Locate(linkType, frame)
    case None =>
    case Some(l) =>
      if l.start <= n {
        ParseTransportTruncated(frame, l, n, originalLength, timestamp);
      }
  }
}
