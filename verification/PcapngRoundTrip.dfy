// pcapng files written from sections of blocks, and the proof that the parser
// accepts exactly these files and reads back exactly their packets.

module PcapngRoundTrip {
  import opened Bytes
  import opened Results
  import opened Frames
  import opened Pcapng
  import opened PcapngOptions

  datatype Block =
    | InterfaceBlock(linkType: uint16, reserved: seq<byte>, options: OptionList)
    | PacketBlock(interfaceId: uint32, high: uint32, low: uint32, originalLength: uint32, frame: seq<byte>,
                  trailer: seq<byte>)
    | OtherBlock(kind: uint32, body: seq<byte>)

  /** A section: its byte order, what follows the byte-order magic in its header, and its blocks. */
  datatype Section = Section(order: ByteOrder, header: seq<byte>, blocks: seq<Block>)

  function Kind(b: Block): uint32 {
    match b
    case InterfaceBlock(_, _, _) => 1
    case PacketBlock(_, _, _, _, _, _) => 6
    case OtherBlock(kind, _) => kind
  }

  /** Both lengths of a block have 32 bits. */
  predicate FitsBlock(body: seq<byte>) {
    12 + |body| < 0x1_0000_0000
  }

  /** A block: its type, its length, its body, and its length again. */
  function Envelope(order: ByteOrder, kind: uint32, body: seq<byte>): (s: seq<byte>)
    requires FitsBlock(body)
    ensures |s| == 12 + |body|
  {
    Put32(order, kind) + Put32(order, 12 + |body|) + body + Put32(order, 12 + |body|)
  }

  predicate ValidBody(b: Block) {
    match b
    case InterfaceBlock(_, reserved, options) => |reserved| == 6 && options.Valid()
    case PacketBlock(_, _, _, _, frame, _) => |frame| < 0x1_0000_0000
    case OtherBlock(kind, _) =>
      kind !in {0x0A0D0D0A, 1, 6}
  }

  function Body(order: ByteOrder, b: Block): seq<byte>
    requires ValidBody(b)
  {
    match b
    case InterfaceBlock(linkType, reserved, options) => Put16(order, linkType) + reserved + options.Bytes(order)
    case PacketBlock(interfaceId, high, low, originalLength, frame, trailer) =>
      Put32(order, interfaceId) + Put32(order, high) + Put32(order, low) + Put32(order, |frame|)
      + Put32(order, originalLength) + frame + trailer
    case OtherBlock(_, body) => body
  }

  /** A well-formed block of a section whose interfaces so far are in the table. */
  predicate ValidBlock(order: ByteOrder, b: Block, table: seq<Interface>) {
    && ValidBody(b)
    && FitsBlock(Body(order, b))
    && (b.InterfaceBlock? ==> EndsOptions(order, b.options.tail))
    && (b.PacketBlock? ==> b.interfaceId < |table|)
  }

  /** The interface table behind a block, and the packets a block stands for. */
  function EffectOf(order: ByteOrder, b: Block, table: seq<Interface>): Effect
    requires ValidBlock(order, b, table)
  {
    match b
    case InterfaceBlock(linkType, _, options) =>
      Effect(table + [Interface(linkType, LastResolution(options.options, PowerOfTen(6)))], [])
    case OtherBlock(_, _) => Effect(table, [])
    case PacketBlock(interfaceId, high, low, originalLength, frame, _) =>
      var interface := table[interfaceId];
      match Dissect(interface.linkType, frame, originalLength, Timestamp(high, low, interface.resolution))
      case None => Effect(table, [])
      case Some(packet) => Effect(table, [packet])
  }

  predicate ValidBlocks(order: ByteOrder, blocks: seq<Block>, table: seq<Interface>) {
    blocks == [] || (&& ValidBlock(order, blocks[0], table)
                     && ValidBlocks(order, blocks[1..], EffectOf(order, blocks[0], table).interfaces))
  }

  function BlocksBytes(order: ByteOrder, blocks: seq<Block>, table: seq<Interface>): seq<byte>
    requires ValidBlocks(order, blocks, table)
  {
    if blocks == [] then
      []
    else
      Envelope(order, Kind(blocks[0]), Body(order, blocks[0]))
      + BlocksBytes(order, blocks[1..], EffectOf(order, blocks[0], table).interfaces)
  }

  /** The packets of a section, in order, each dissected by the link type of its own section's interface. */
  function BlocksPackets(order: ByteOrder, blocks: seq<Block>, table: seq<Interface>): seq<CapturedPacket>
    requires ValidBlocks(order, blocks, table)
  {
    if blocks == [] then
      []
    else
      var effect := EffectOf(order, blocks[0], table);
      effect.packets + BlocksPackets(order, blocks[1..], effect.interfaces)
  }

  function TableAfter(order: ByteOrder, blocks: seq<Block>, table: seq<Interface>): seq<Interface>
    requires ValidBlocks(order, blocks, table)
  {
    if blocks == [] then table else TableAfter(order, blocks[1..], EffectOf(order, blocks[0], table).interfaces)
  }

  predicate ValidSection(s: Section) {
    && FitsBlock(Put32(s.order, 0x1A2B3C4D) + s.header)
    && ValidBlocks(s.order, s.blocks, [])
  }

  function HeaderBytes(s: Section): seq<byte>
    requires ValidSection(s)
  {
    Envelope(s.order, 0x0A0D0D0A, Put32(s.order, 0x1A2B3C4D) + s.header)
  }

  function FileBytes(sections: seq<Section>): seq<byte>
    requires forall s <- sections :: ValidSection(s)
  {
    if sections == [] then
      []
    else
      assert ValidSection(sections[0]);
      HeaderBytes(sections[0]) + (BlocksBytes(sections[0].order, sections[0].blocks, []) + FileBytes(sections[1..]))
  }

  /** Section by section: nothing of one section reaches the next. */
  function FilePackets(sections: seq<Section>): seq<CapturedPacket>
    requires forall s <- sections :: ValidSection(s)
  {
    if sections == [] then
      []
    else
      assert ValidSection(sections[0]);
      BlocksPackets(sections[0].order, sections[0].blocks, []) + FilePackets(sections[1..])
  }

  // --------------------------------------------------------------- one block

  lemma EnvelopeFields(order: ByteOrder, kind: uint32, body: seq<byte>, rest: seq<byte>)
    requires FitsBlock(body)
    ensures var s, n := Envelope(order, kind, body) + rest, 12 + |body|;
            && Get32(order, s, 0) == kind
            && Get32(order, s, 4) == n
            && Get32(order, s, n - 4) == n
            && s[..n] == Envelope(order, kind, body)
            && s[n..] == rest
            && s[8..n - 4] == body
  {
    var e, s, n := Envelope(order, kind, body), Envelope(order, kind, body) + rest, 12 + |body|;
    SameBytes32(order, s, 0, Put32(order, kind), 0);
    SameBytes32(order, s, 4, Put32(order, n), 0);
    SameBytes32(order, s, n - 4, Put32(order, n), 0);
  }

  /** The magic block type of section headers reads the same in both byte orders. */
  lemma SectionHeaderPalindrome(order: ByteOrder, s: seq<byte>)
    requires |s| >= 4
    ensures Get32(order, s, 0) == 0x0A0D0D0A <==> Get32(LittleEndian, s, 0) == 0x0A0D0D0A
  {
    hide Get16;
    assert 0x0A0D0D0A == 0x0D0A + 0x1_0000 * 0x0A0D;
    assert Get32(LittleEndian, s, 0) == 0x0A0D0D0A
        <==> Get16(LittleEndian, s, 0) == 0x0D0A && Get16(LittleEndian, s, 2) == 0x0A0D;
    assert Get32(BigEndian, s, 0) == 0x0A0D0D0A
        <==> Get16(BigEndian, s, 0) == 0x0A0D && Get16(BigEndian, s, 2) == 0x0D0A;
    Swapped(s, 0);
    Swapped(s, 2);
  }

  lemma Swapped(s: seq<byte>, i: nat)
    requires i + 2 <= |s|
    ensures Get16(LittleEndian, s, i) == 0x0D0A <==> Get16(BigEndian, s, i) == 0x0A0D
    ensures Get16(LittleEndian, s, i) == 0x0A0D <==> Get16(BigEndian, s, i) == 0x0D0A
  {
  }

  lemma BlockEffect(order: ByteOrder, b: Block, table: seq<Interface>)
    requires ValidBlock(order, b, table)
    ensures ReadBlock(order, Envelope(order, Kind(b), Body(order, b)), table) == Ok(EffectOf(order, b, table))
  {
    hide Envelope, Body, Get32;
    var body := Body(order, b);
    var block := Envelope(order, Kind(b), body);
    EnvelopeFields(order, Kind(b), body, []);
    assert block + [] == block;
    InContext(order, b, table, block);
  }

  /** The same for any block with the right kind and body. */
  lemma InContext(order: ByteOrder, b: Block, table: seq<Interface>, block: seq<byte>)
    requires ValidBlock(order, b, table) && |block| == 12 + |Body(order, b)|
    requires block[8..|block| - 4] == Body(order, b) && Get32(order, block, 0) == Kind(b)
    ensures ReadBlock(order, block, table) == Ok(EffectOf(order, b, table))
  {
    hide Body, Get32, FitsBlock;
    match b
    case InterfaceBlock(_, _, options) =>
      hide ReadCapturedFrame, OptionList.Valid, EndsOptions;
      InterfaceFields(order, block, b);
      OptionsRoundTrip(order, options, PowerOfTen(6));
    case PacketBlock(_, _, _, _, _, _) =>
      hide ReadInterface, Dissect;
      PacketFields(order, block, b);
    case OtherBlock(_, _) =>
      hide ReadInterface, ReadCapturedFrame;
  }

  lemma InterfaceFields(order: ByteOrder, block: seq<byte>, b: Block)
    requires b.InterfaceBlock? && ValidBody(b) && |block| == 12 + |Body(order, b)|
    requires block[8..|block| - 4] == Body(order, b)
    ensures 20 <= |block| && Get16(order, block, 8) == b.linkType
    ensures block[16..|block| - 4] == b.options.Bytes(order)
  {
    hide OptionList.Bytes, OptionList.Valid, Put16;
    var body := Body(order, b);
    SliceOfSlice(block, 8, |block| - 4, 0, 2);
    assert body[0..2] == Put16(order, b.linkType)[0..2];
    SameBytes16(order, block, 8, Put16(order, b.linkType), 0);
    SliceOfSlice(block, 8, |block| - 4, 8, |body|);
    assert body[8..] == b.options.Bytes(order);
  }

  lemma PacketFields(order: ByteOrder, block: seq<byte>, b: Block)
    requires b.PacketBlock? && ValidBody(b) && |block| == 12 + |Body(order, b)|
    requires block[8..|block| - 4] == Body(order, b)
    ensures 32 <= |block|
    ensures Get32(order, block, 8) == b.interfaceId
    ensures Get32(order, block, 12) == b.high && Get32(order, block, 16) == b.low
    ensures Get32(order, block, 20) == |b.frame| && Get32(order, block, 24) == b.originalLength
    ensures 28 + |b.frame| <= |block| - 4 && block[28..28 + |b.frame|] == b.frame
  {
    hide Body, Get32;
    var body := Body(order, b);
    PacketFrame(order, b);
    Field32(order, block, body, 0, b.interfaceId);
    Field32(order, block, body, 4, b.high);
    Field32(order, block, body, 8, b.low);
    Field32(order, block, body, 12, |b.frame|);
    Field32(order, block, body, 16, b.originalLength);
    SliceOfSlice(block, 8, |block| - 4, 20, 20 + |b.frame|);
  }

  lemma PacketFrame(order: ByteOrder, b: Block)
    requires b.PacketBlock? && ValidBody(b)
    ensures var body := Body(order, b);
            && 20 + |b.frame| <= |body|
            && body[0..4] == Put32(order, b.interfaceId)
            && body[4..8] == Put32(order, b.high) && body[8..12] == Put32(order, b.low)
            && body[12..16] == Put32(order, |b.frame|) && body[16..20] == Put32(order, b.originalLength)
            && body[20..20 + |b.frame|] == b.frame
  {
    hide Put32;
  }

  lemma Field32(order: ByteOrder, block: seq<byte>, body: seq<byte>, i: nat, x: uint32)
    requires |block| == 12 + |body| && block[8..|block| - 4] == body
    requires i + 4 <= |body| && body[i..i + 4] == Put32(order, x)
    ensures Get32(order, block, 8 + i) == x
  {
    SliceOfSlice(block, 8, |block| - 4, i, i + 4);
    SameBytes32(order, block, 8 + i, Put32(order, x), 0);
  }

  // ---------------------------------------------------------- writing, then reading

  lemma BlockRead(order: ByteOrder, b: Block, rest: seq<byte>, at: nat, s: Stream)
    requires ValidBlock(order, b, s.interfaces) && s.order == Some(order)
    ensures var block, effect := Envelope(order, Kind(b), Body(order, b)), EffectOf(order, b, s.interfaces);
            ReadStep(block + rest, at, s)
            == Ok(Step(|block|, Stream(s.order, effect.interfaces, s.packets + effect.packets)))
  {
    hide Envelope, ReadBlock, EffectOf, Body;
    var block := Envelope(order, Kind(b), Body(order, b));
    EnvelopeFields(order, Kind(b), Body(order, b), rest);
    SectionHeaderPalindrome(order, block + rest);
    BlockEffect(order, b, s.interfaces);
  }

  lemma Advance(block: seq<byte>, more: seq<byte>, at: nat, s: Stream, after: Stream)
    requires block != []
    requires ReadStep(block + more, at, s) == Ok(Step(|block|, after))
    ensures ReadBlocks(block + more, at, s) == ReadBlocks(more, at + |block|, after)
  {
    hide ReadStep;
    assert (block + more)[|block|..] == more;
  }

  /** The variables of the block loop behind some blocks of one section. */
  function StreamAfter(order: ByteOrder, blocks: seq<Block>, s: Stream): Stream
    requires ValidBlocks(order, blocks, s.interfaces)
  {
    Stream(Some(order), TableAfter(order, blocks, s.interfaces), s.packets + BlocksPackets(order, blocks, s.interfaces))
  }

  lemma FirstBlock(order: ByteOrder, blocks: seq<Block>, s: Stream)
    requires blocks != [] && ValidBlocks(order, blocks, s.interfaces)
    ensures ValidBlock(order, blocks[0], s.interfaces)
    ensures ValidBody(blocks[0]) && FitsBlock(Body(order, blocks[0]))
    ensures var effect := EffectOf(order, blocks[0], s.interfaces);
            && ValidBlocks(order, blocks[1..], effect.interfaces)
            && BlocksBytes(order, blocks, s.interfaces)
            == Envelope(order, Kind(blocks[0]), Body(order, blocks[0]))
               + BlocksBytes(order, blocks[1..], effect.interfaces)
            && StreamAfter(order, blocks, s)
            == StreamAfter(order, blocks[1..], Stream(s.order, effect.interfaces, s.packets + effect.packets))
  {
    hide Envelope, EffectOf, Body;
    var effect := EffectOf(order, blocks[0], s.interfaces);
    ConcatAssociative(s.packets, effect.packets, BlocksPackets(order, blocks[1..], effect.interfaces));
  }

  lemma NoBlock(order: ByteOrder, rest: seq<byte>, s: Stream)
    requires s.order == Some(order)
    ensures BlocksBytes(order, [], s.interfaces) + rest == rest
    ensures StreamAfter(order, [], s) == s
  {
  }

  lemma {:induction false} BlocksRead(order: ByteOrder, blocks: seq<Block>, rest: seq<byte>, at: nat, s: Stream)
    requires ValidBlocks(order, blocks, s.interfaces) && s.order == Some(order)
    ensures ReadBlocks(BlocksBytes(order, blocks, s.interfaces) + rest, at, s)
         == ReadBlocks(rest, at + |BlocksBytes(order, blocks, s.interfaces)|, StreamAfter(order, blocks, s))
    decreases |blocks|
  {
    hide *;
    if blocks == [] {
      NoBlock(order, rest, s);
    } else {
      FirstBlock(order, blocks, s);
      var effect := EffectOf(order, blocks[0], s.interfaces);
      var block := Envelope(order, Kind(blocks[0]), Body(order, blocks[0]));
      var more := BlocksBytes(order, blocks[1..], effect.interfaces);
      var after := Stream(s.order, effect.interfaces, s.packets + effect.packets);
      BlockRead(order, blocks[0], more + rest, at, s);
      Advance(block, more + rest, at, s, after);
      BlocksRead(order, blocks[1..], rest, at + |block|, after);
      ConcatAssociative(block, more, rest);
    }
  }

  lemma MagicField(order: ByteOrder, file: seq<byte>, body: seq<byte>)
    requires 4 <= |body| && 8 + |body| <= |file| && file[8..8 + |body|] == body
    requires body[..4] == Put32(order, 0x1A2B3C4D)
    ensures SectionByteOrder(file) == Ok(order) || |file| < 12
  {
    SliceOfSlice(file, 8, 8 + |body|, 0, 4);
    SameBytes32(order, file, 8, Put32(order, 0x1A2B3C4D), 0);
    if order == BigEndian {
      var magic := Put32(BigEndian, 0x1A2B3C4D);
      SameBytes32(LittleEndian, file, 8, magic, 0);
    }
  }

  /** A section header starts afresh, whatever byte order and interfaces the stream had before. */
  lemma HeaderRead(section: Section, rest: seq<byte>, at: nat, s: Stream)
    requires ValidSection(section)
    ensures ReadStep(HeaderBytes(section) + rest, at, s)
         == Ok(Step(|HeaderBytes(section)|, Stream(Some(section.order), [], s.packets)))
  {
    hide Envelope;
    var body := Put32(section.order, 0x1A2B3C4D) + section.header;
    var file := HeaderBytes(section) + rest;
    EnvelopeFields(section.order, 0x0A0D0D0A, body, rest);
    SectionHeaderPalindrome(section.order, file);
    EnvelopeFields(section.order, 0x0A0D0D0A, body, []);
    assert HeaderBytes(section) + [] == HeaderBytes(section);
    MagicField(section.order, file, body);
    assert s.packets + [] == s.packets;
  }

  lemma SectionRead(section: Section, rest: seq<byte>, at: nat, s: Stream)
    requires ValidSection(section)
    ensures var header, blocks := HeaderBytes(section), BlocksBytes(section.order, section.blocks, []);
            var started := Stream(Some(section.order), [], s.packets);
            ReadBlocks(header + (blocks + rest), at, s)
            == ReadBlocks(rest, at + |header| + |blocks|, StreamAfter(section.order, section.blocks, started))
  {
    hide BlocksBytes, ReadStep, ReadBlocks, StreamAfter;
    var header, blocks := HeaderBytes(section), BlocksBytes(section.order, section.blocks, []);
    var started := Stream(Some(section.order), [], s.packets);
    HeaderRead(section, blocks + rest, at, s);
    Advance(header, blocks + rest, at, s, started);
    BlocksRead(section.order, section.blocks, rest, at + |header|, started);
  }

  /** The variables of the block loop behind whole sections. */
  function SectionsAfter(sections: seq<Section>, s: Stream): Stream
    requires forall section <- sections :: ValidSection(section)
    decreases |sections|
  {
    if sections == [] then
      s
    else
      assert ValidSection(sections[0]);
      var first := sections[0];
      SectionsAfter(sections[1..], StreamAfter(first.order, first.blocks, Stream(Some(first.order), [], s.packets)))
  }

  lemma FirstSection(sections: seq<Section>, s: Stream)
    requires sections != [] && forall section <- sections :: ValidSection(section)
    ensures var first := sections[0];
            && ValidSection(first)
            && ValidBlocks(first.order, first.blocks, [])
            && FileBytes(sections)
            == HeaderBytes(first) + (BlocksBytes(first.order, first.blocks, []) + FileBytes(sections[1..]))
            && FilePackets(sections) == BlocksPackets(first.order, first.blocks, []) + FilePackets(sections[1..])
            && SectionsAfter(sections, s)
            == SectionsAfter(sections[1..],
                             StreamAfter(first.order, first.blocks, Stream(Some(first.order), [], s.packets)))
            && 12 <= |FileBytes(sections)|
  {
    hide Envelope, BlocksBytes, BlocksPackets, StreamAfter;
  }

  lemma {:induction false} SectionsPackets(sections: seq<Section>, s: Stream)
    requires forall section <- sections :: ValidSection(section)
    ensures SectionsAfter(sections, s).packets == s.packets + FilePackets(sections)
    decreases |sections|
  {
    hide BlocksPackets, TableAfter, ValidSection;
    if sections == [] {
      assert s.packets + [] == s.packets;
    } else {
      FirstSection(sections, s);
      var first := sections[0];
      SectionsPackets(sections[1..], StreamAfter(first.order, first.blocks, Stream(Some(first.order), [], s.packets)));
      ConcatAssociative(s.packets, BlocksPackets(first.order, first.blocks, []), FilePackets(sections[1..]));
    }
  }

  lemma NoSection(rest: seq<byte>, s: Stream)
    ensures FileBytes([]) + rest == rest
    ensures SectionsAfter([], s) == s
  {
  }

  /** Whole sections are read whatever follows them. */
  lemma {:induction false} SectionsRead(sections: seq<Section>, rest: seq<byte>, at: nat, s: Stream)
    requires forall section <- sections :: ValidSection(section)
    ensures ReadBlocks(FileBytes(sections) + rest, at, s)
         == ReadBlocks(rest, at + |FileBytes(sections)|, SectionsAfter(sections, s))
    decreases |sections|
  {
    hide *;
    if sections == [] {
      NoSection(rest, s);
    } else {
      FirstSection(sections, s);
      var first := sections[0];
      var header, blocks := HeaderBytes(first), BlocksBytes(first.order, first.blocks, []);
      var more := FileBytes(sections[1..]);
      SectionRead(first, more + rest, at, s);
      SectionsRead(sections[1..], rest, at + |header| + |blocks|,
                   StreamAfter(first.order, first.blocks, Stream(Some(first.order), [], s.packets)));
      ConcatAssociative(header, blocks + more, rest);
      ConcatAssociative(blocks, more, rest);
    }
  }

  /**
   * The round trip: in either byte order, any sections with any interfaces,
   * packets and unknown blocks are read back as the accepted frames of the
   * packet blocks, in order, each under an interface of its own section.
   */
  lemma FileRoundTrip(sections: seq<Section>)
    requires sections != [] && forall section <- sections :: ValidSection(section)
    ensures ReadFile(FileBytes(sections)) == Ok(FilePackets(sections))
  {
    hide FileBytes, FilePackets, ValidSection, SectionsAfter, ReadStep;
    FirstSection(sections, START);
    SectionsRead(sections, [], 0, START);
    SectionsPackets(sections, START);
    assert FileBytes(sections) + [] == FileBytes(sections);
    assert [] + FilePackets(sections) == FilePackets(sections);
  }

  lemma ForeignBlock(order: ByteOrder, packet: Block, table: seq<Interface>)
    requires packet.PacketBlock? && ValidBody(packet) && FitsBlock(Body(order, packet))
    requires |table| <= packet.interfaceId
    ensures ReadBlock(order, Envelope(order, 6, Body(order, packet)), table)
         == Err(UnknownInterface(packet.interfaceId))
  {
    hide Envelope, Body, Get32;
    var block := Envelope(order, 6, Body(order, packet));
    EnvelopeFields(order, 6, Body(order, packet), []);
    assert block + [] == block;
    PacketFields(order, block, packet);
  }

  lemma ForeignPacket(order: ByteOrder, packet: Block, rest: seq<byte>, at: nat, s: Stream)
    requires packet.PacketBlock? && ValidBody(packet) && FitsBlock(Body(order, packet))
    requires s.order == Some(order) && |s.interfaces| <= packet.interfaceId
    ensures ReadBlocks(Envelope(order, 6, Body(order, packet)) + rest, at, s)
         == Err(UnknownInterface(packet.interfaceId))
  {
    hide Envelope, Body, ReadBlock, Get32;
    var body := Body(order, packet);
    EnvelopeFields(order, 6, body, rest);
    SectionHeaderPalindrome(order, Envelope(order, 6, body) + rest);
    ForeignBlock(order, packet, s.interfaces);
  }

  /**
   * Interface ids do not leak from one section into another: a packet block
   * that names more than its own section has declared so far is an error,
   * whatever the sections before it declared.
   */
  lemma ForeignInterfaceRejected(before: seq<Section>, section: Section, packet: Block, rest: seq<byte>)
    requires forall s <- before :: ValidSection(s)
    requires ValidSection(section) && packet.PacketBlock? && ValidBody(packet) && FitsBlock(Body(section.order, packet))
    requires |TableAfter(section.order, section.blocks, [])| <= packet.interfaceId
    ensures var bad := Envelope(section.order, 6, Body(section.order, packet));
            var blocks := BlocksBytes(section.order, section.blocks, []);
            ReadFile(FileBytes(before) + (HeaderBytes(section) + (blocks + (bad + rest))))
            == Err(UnknownInterface(packet.interfaceId))
  {
    hide FileBytes, SectionsAfter, BlocksBytes, BlocksPackets, ReadStep, ReadBlocks, Envelope, Body, TableAfter;
    var bad := Envelope(section.order, 6, Body(section.order, packet));
    var blocks := BlocksBytes(section.order, section.blocks, []);
    var tail := HeaderBytes(section) + (blocks + (bad + rest));
    var s := SectionsAfter(before, START);
    SectionsRead(before, tail, 0, START);
    SectionRead(section, bad + rest, |FileBytes(before)|, s);
    var started := Stream(Some(section.order), [], s.packets);
    ForeignPacket(section.order, packet, rest, |FileBytes(before)| + |HeaderBytes(section)| + |blocks|,
                  StreamAfter(section.order, section.blocks, started));
  }
}
