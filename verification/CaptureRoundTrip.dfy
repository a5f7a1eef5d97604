// Captures end to end: pcapng files whose packet blocks carry laid-out Ethernet or raw IP packets
// are read as exactly the reports of these packets.

module CaptureRoundTrip {
  import opened Bytes
  import opened Results
  import opened Frames
  import opened FrameRoundTrip
  import opened Pcapng
  import opened PcapngOptions
  import opened PcapngRoundTrip

  /** A packet as it is captured, with padding behind it. */
  datatype Content =
    | EthernetFrame(macs: seq<byte>, tags: seq<VlanTag>, ip: IpHeader, segment: Segment, padding: seq<byte>)
    | RawPacket(ip: IpHeader, segment: Segment, padding: seq<byte>)
  {
    ghost predicate Valid() {
      && ip.Valid() && segment.Valid() && Fits(ip, segment)
      && (EthernetFrame? ==> |macs| == 12 && forall tag <- tags :: tag.Valid())
    }

    function LinkType(): uint16 {
      if EthernetFrame? then 1 else 101
    }

    function Bytes(): seq<byte>
      requires Valid()
    {
      if EthernetFrame? then macs + TagBytes(tags, EtherTypeOf(ip)) + (IpBytes(ip, segment) + padding)
      else IpBytes(ip, segment) + padding
    }

    /** What is to be reported of it. */
    function Report(originalLength: int, timestamp: Timestamp): CapturedPacket {
      Expected(ip.source, ip.destination, segment, originalLength, timestamp)
    }
  }

  lemma ContentReported(content: Content, originalLength: int, timestamp: Timestamp)
    requires content.Valid()
    ensures Dissect(content.LinkType(), content.Bytes(), originalLength, timestamp)
         == Some(content.Report(originalLength, timestamp))
  {
    hide Dissect, Expected, IpBytes, TagBytes, Fits, IpHeader.Valid, Segment.Valid;
    match content
    case EthernetFrame(macs, tags, ip, segment, padding) =>
      EthernetRoundTrip(macs, tags, ip, segment, padding, originalLength, timestamp);
    case RawPacket(ip, segment, padding) => RawRoundTrip(ip, segment, padding, originalLength, timestamp);
  }

  /** What a section consists of. */
  datatype Item =
    | Declares(linkType: uint16, reserved: seq<byte>, options: OptionList)
    | Captures(interfaceId: uint32, high: uint32, low: uint32, originalLength: uint32, content: Content,
               trailer: seq<byte>)
    | Foreign(kind: uint32, body: seq<byte>)

  datatype Recording = Recording(order: ByteOrder, header: seq<byte>, items: seq<Item>)

  ghost predicate ValidItems(items: seq<Item>) {
    forall item <- items :: item.Captures? ==> item.content.Valid()
  }

  function LaidOut(item: Item): Block
    requires item.Captures? ==> item.content.Valid()
  {
    match item
    case Declares(linkType, reserved, options) => InterfaceBlock(linkType, reserved, options)
    case Captures(interfaceId, high, low, originalLength, content, trailer) =>
      PacketBlock(interfaceId, high, low, originalLength, content.Bytes(), trailer)
    case Foreign(kind, body) => OtherBlock(kind, body)
  }

  function Blocks(items: seq<Item>): seq<Block>
    requires ValidItems(items)
  {
    if items == [] then []
    else
      assert items[0] in items;
      [LaidOut(items[0])] + Blocks(items[1..])
  }

  function Sections(recordings: seq<Recording>): seq<Section>
    requires forall r <- recordings :: ValidItems(r.items)
  {
    if recordings == [] then []
    else
      assert recordings[0] in recordings;
      var r := recordings[0];
      [Section(r.order, r.header, Blocks(r.items))] + Sections(recordings[1..])
  }

  /** Every packet is captured on an interface of its own section, and of its own link type. */
  predicate OnOwnInterfaces(items: seq<Item>, interfaces: seq<Interface>) {
    items == []
    || match items[0]
       case Declares(linkType, _, options) =>
         OnOwnInterfaces(items[1..], interfaces + [Interface(linkType, LastResolution(options.options, PowerOfTen(6)))])
       case Captures(interfaceId, _, _, _, content, _) =>
         && interfaceId < |interfaces| && interfaces[interfaceId].linkType == content.LinkType()
         && OnOwnInterfaces(items[1..], interfaces)
       case Foreign(_, _) => OnOwnInterfaces(items[1..], interfaces)
  }

  /** The reports of a section: one for each packet, with the clock of its interface. */
  function Reports(items: seq<Item>, interfaces: seq<Interface>): seq<CapturedPacket>
    requires OnOwnInterfaces(items, interfaces)
  {
    if items == [] then []
    else
      match items[0]
      case Declares(linkType, _, options) =>
        Reports(items[1..], interfaces + [Interface(linkType, LastResolution(options.options, PowerOfTen(6)))])
      case Captures(interfaceId, high, low, originalLength, content, _) =>
        [content.Report(originalLength, Timestamp(high, low, interfaces[interfaceId].resolution))]
        + Reports(items[1..], interfaces)
      case Foreign(_, _) => Reports(items[1..], interfaces)
  }

  function AllReports(recordings: seq<Recording>): seq<CapturedPacket>
    requires forall r <- recordings :: OnOwnInterfaces(r.items, [])
  {
    if recordings == [] then []
    else
      assert recordings[0] in recordings;
      Reports(recordings[0].items, []) + AllReports(recordings[1..])
  }

  lemma {:induction false} ItemsReported(order: ByteOrder, items: seq<Item>, interfaces: seq<Interface>)
    requires ValidItems(items) && OnOwnInterfaces(items, interfaces)
    requires ValidBlocks(order, Blocks(items), interfaces)
    ensures BlocksPackets(order, Blocks(items), interfaces) == Reports(items, interfaces)
    decreases |items|
  {
    hide ValidBlock, Dissect, Expected, Content.Bytes, Content.Valid;
    if items != [] {
      assert items[0] in items;
      var blocks := Blocks(items);
      assert blocks[1..] == Blocks(items[1..]);
      if items[0].Captures? {
        var resolution := interfaces[items[0].interfaceId].resolution;
        ContentReported(items[0].content, items[0].originalLength,
                        Timestamp(items[0].high, items[0].low, resolution));
      }
      ItemsReported(order, items[1..], EffectOf(order, blocks[0], interfaces).interfaces);
    }
  }

  lemma {:induction false} RecordingsReported(recordings: seq<Recording>)
    requires forall r <- recordings :: ValidItems(r.items) && OnOwnInterfaces(r.items, [])
    requires forall section <- Sections(recordings) :: ValidSection(section)
    ensures FilePackets(Sections(recordings)) == AllReports(recordings)
    decreases |recordings|
  {
    hide BlocksPackets, Reports, OnOwnInterfaces, ValidItems, Blocks;
    if recordings != [] {
      assert recordings[0] in recordings;
      var sections := Sections(recordings);
      assert sections[1..] == Sections(recordings[1..]);
      assert sections[0] in sections;
      ValidBlocksOf(sections[0]);
      ItemsReported(recordings[0].order, recordings[0].items, []);
      RecordingsReported(recordings[1..]);
    }
  }

  lemma ValidBlocksOf(section: Section)
    requires ValidSection(section)
    ensures ValidBlocks(section.order, section.blocks, [])
  {
  }

  /**
   * In either byte order, with any interfaces, VLAN tags, IPv4 options, IPv6
   * extension headers, foreign blocks and padding: the file is read as one
   * report for each packet, in order, with the packet's addresses, ports,
   * lengths and first payload bytes, and the time of its block in the
   * resolution of its interface.
   */
  lemma CapturesRead(recordings: seq<Recording>)
    requires recordings != [] && forall r <- recordings :: ValidItems(r.items) && OnOwnInterfaces(r.items, [])
    requires forall section <- Sections(recordings) :: ValidSection(section)
    ensures ReadFile(FileBytes(Sections(recordings))) == Ok(AllReports(recordings))
  {
    hide FileBytes, ReadFile, FilePackets, ValidSection, ValidItems, OnOwnInterfaces, AllReports;
    assert Sections(recordings) != [];
    FileRoundTrip(Sections(recordings));
    RecordingsReported(recordings);
  }
}
