// The other direction of the pcapng round trip: whatever the parser accepts
// was laid out as sections of well-formed blocks that tile the input.

module PcapngReassembly {
  import opened Bytes
  import opened Results
  import opened Frames
  import opened Pcapng
  import opened PcapngOptions
  import opened PcapngRoundTrip

  /** Header and trailer agree with the extent of the block. */
  predicate Framed(order: ByteOrder, block: seq<byte>) {
    && 12 <= |block|
    && Get32(order, block, 4) == |block|
    && Get32(order, block, |block| - 4) == |block|
  }

  lemma PutSlice(order: ByteOrder, s: seq<byte>, i: nat)
    requires i + 4 <= |s|
    ensures Put32(order, Get32(order, s, i)) == s[i..i + 4]
  {
    SameBytes32(order, s[i..i + 4], 0, s, i);
    Put32Get32(order, s[i..i + 4]);
  }

  lemma FramedIsEnvelope(order: ByteOrder, block: seq<byte>)
    requires Framed(order, block)
    ensures FitsBlock(block[8..|block| - 4])
    ensures block == Envelope(order, Get32(order, block, 0), block[8..|block| - 4])
  {
    var n := |block|;
    hide Put32;
    PutSlice(order, block, 0);
    PutSlice(order, block, 4);
    PutSlice(order, block, n - 4);
    assert block == block[0..4] + block[4..8] + block[8..n - 4] + block[n - 4..n];
  }

  function InterfaceOf(order: ByteOrder, block: seq<byte>): Block
    requires 20 <= |block| && ReadOptions(order, block[16..|block| - 4], MICROSECONDS).Ok?
  {
    InterfaceBlock(Get16(order, block, 8), block[10..16],
                   OptionsOf(order, block[16..|block| - 4], MICROSECONDS))
  }

  lemma InterfaceBody(order: ByteOrder, block: seq<byte>)
    requires 20 <= |block| && ReadOptions(order, block[16..|block| - 4], MICROSECONDS).Ok?
    ensures ValidBody(InterfaceOf(order, block)) && EndsOptions(order, InterfaceOf(order, block).options.tail)
    ensures Body(order, InterfaceOf(order, block)) == block[8..|block| - 4]
  {
    OptionsTakenApart(order, block[16..|block| - 4], MICROSECONDS);
    hide Put16;
    SameBytes16(order, block[8..10], 0, block, 8);
    Put16Get16(order, block[8..10]);
    assert block[8..|block| - 4] == block[8..10] + block[10..16] + block[16..|block| - 4];
  }

  function PacketOf(order: ByteOrder, block: seq<byte>): Block
    requires 32 <= |block| && 28 + Get32(order, block, 20) <= |block| - 4
  {
    var end := 28 + Get32(order, block, 20);
    PacketBlock(Get32(order, block, 8), Get32(order, block, 12), Get32(order, block, 16), Get32(order, block, 24),
                block[28..end], block[end..|block| - 4])
  }

  lemma SlicesJoin(s: seq<byte>, a: nat, b: nat, c: nat)
    requires a <= b <= c <= |s|
    ensures s[a..b] + s[b..c] == s[a..c]
  {
  }

  lemma PacketSlices(s: seq<byte>, end: nat, last: nat)
    requires 28 <= end <= last <= |s|
    ensures s[8..12] + s[12..16] + s[16..20] + s[20..24] + s[24..28] + s[28..end] + s[end..last] == s[8..last]
  {
    SlicesJoin(s, 8, 12, 16);
    SlicesJoin(s, 8, 16, 20);
    SlicesJoin(s, 8, 20, 24);
    SlicesJoin(s, 8, 24, 28);
    SlicesJoin(s, 8, 28, end);
    SlicesJoin(s, 8, end, last);
  }

  lemma PacketNumbers(order: ByteOrder, block: seq<byte>)
    requires 32 <= |block|
    ensures Put32(order, Get32(order, block, 8)) == block[8..12]
    ensures Put32(order, Get32(order, block, 12)) == block[12..16]
    ensures Put32(order, Get32(order, block, 16)) == block[16..20]
    ensures Put32(order, Get32(order, block, 20)) == block[20..24]
    ensures Put32(order, Get32(order, block, 24)) == block[24..28]
  {
    hide Put32, Get32;
    PutSlice(order, block, 8);
    PutSlice(order, block, 12);
    PutSlice(order, block, 16);
    PutSlice(order, block, 20);
    PutSlice(order, block, 24);
  }

  lemma PacketBody(order: ByteOrder, block: seq<byte>)
    requires 32 <= |block| && 28 + Get32(order, block, 20) <= |block| - 4
    ensures Body(order, PacketOf(order, block)) == block[8..|block| - 4]
  {
    hide Put32, Get32;
    PacketNumbers(order, block);
    PacketSlices(block, 28 + Get32(order, block, 20), |block| - 4);
  }

  /** An accepted block that does not start a section is one of the well-formed blocks. */
  lemma BlockOf(order: ByteOrder, block: seq<byte>, table: seq<Interface>) returns (b: Block)
    requires Framed(order, block) && ReadBlock(order, block, table).Ok?
    requires Get32(order, block, 0) != SECTION_HEADER_BLOCK
    ensures ValidBlock(order, b, table)
    ensures ValidBody(b) && FitsBlock(Body(order, b)) && Envelope(order, Kind(b), Body(order, b)) == block
  {
    hide Envelope, Body, ReadOptions;
    var kind := Get32(order, block, 0);
    FramedIsEnvelope(order, block);
    if kind == INTERFACE_DESCRIPTION_BLOCK {
      b := InterfaceOf(order, block);
      InterfaceBody(order, block);
    } else if kind == ENHANCED_PACKET_BLOCK {
      b := PacketOf(order, block);
      PacketBody(order, block);
    } else {
      b := OtherBlock(kind, block[8..|block| - 4]);
      OtherBody(order, kind, block[8..|block| - 4]);
    }
  }

  lemma OtherBody(order: ByteOrder, kind: uint32, body: seq<byte>)
    requires ValidBody(OtherBlock(kind, body))
    ensures Body(order, OtherBlock(kind, body)) == body
  {
  }

  /** Small numbers leave their other bytes zero. */
  lemma SmallNumber(order: ByteOrder, s: seq<byte>, i: nat)
    requires i + 4 <= |s| && Get32(order, s, i) < 0x100
    ensures s[i] == if order == LittleEndian then Get32(order, s, i) else 0
  {
    var a: int, b: int, c: int, d: int := s[i], s[i + 1], s[i + 2], s[i + 3];
  }

  lemma MagicBytes(order: ByteOrder, s: seq<byte>, i: nat)
    requires i + 4 <= |s| && Get32(order, s, i) == BYTE_ORDER_MAGIC
    ensures order == LittleEndian ==> s[i..i + 4] == [0x4D, 0x3C, 0x2B, 0x1A]
    ensures order == BigEndian ==> s[i..i + 4] == [0x1A, 0x2B, 0x3C, 0x4D]
  {
    Put32Get32(order, s[i..i + 4]);
    SameBytes32(order, s[i..i + 4], 0, s, i);
  }

  /** The byte-order magic cannot double as the trailer: a section header has at least 16 bytes. */
  lemma SectionHeaderLength(order: ByteOrder, block: seq<byte>)
    requires Framed(order, block) && Get32(order, block, 8) == BYTE_ORDER_MAGIC
    ensures 16 <= |block|
  {
    hide Get32, Put32;
    var n := |block|;
    MagicBytes(order, block, 8);
    var magic := block[8..12];
    assert block[8] == magic[0] && block[9] == magic[1] && block[10] == magic[2] && block[11] == magic[3];
    if n < 16 {
      SmallNumber(order, block, n - 4);
    }
  }

  lemma HeaderOf(order: ByteOrder, block: seq<byte>, blocks: seq<Block>) returns (section: Section)
    requires Framed(order, block) && Get32(order, block, 0) == SECTION_HEADER_BLOCK
    requires Get32(order, block, 8) == BYTE_ORDER_MAGIC
    requires ValidBlocks(order, blocks, [])
    ensures section.order == order && section.blocks == blocks
    ensures ValidSection(section) && HeaderBytes(section) == block
  {
    hide Envelope, Put32, ValidBlocks;
    SectionHeaderLength(order, block);
    FramedIsEnvelope(order, block);
    PutSlice(order, block, 8);
    section := Section(order, block[12..|block| - 4], blocks);
    assert block[8..|block| - 4] == block[8..12] + block[12..|block| - 4];
  }

  /** Any order will do where there is no block. */
  function OrderOr(order: Option<ByteOrder>): ByteOrder {
    match order
    case None => LittleEndian
    case Some(o) => o
  }

  /** An accepted step takes a framed block off the stream. */
  lemma StepTakesBlock(rest: seq<byte>, at: nat, s: Stream)
    requires ReadStep(rest, at, s).Ok?
    ensures var Step(length, after) := ReadStep(rest, at, s).value;
            && after.order.Some? && 12 <= length <= |rest|
            && Framed(after.order.value, rest[..length])
            && (Get32(after.order.value, rest[..length], 0) == SECTION_HEADER_BLOCK <==> IsSectionHeader(rest))
            && (IsSectionHeader(rest) ==> && Get32(after.order.value, rest[..length], 8) == BYTE_ORDER_MAGIC
                                          && after.interfaces == [])
            && (!IsSectionHeader(rest) ==>
                  && s.order == after.order
                  && ReadBlock(after.order.value, rest[..length], s.interfaces).Ok?
                  && after.interfaces == ReadBlock(after.order.value, rest[..length], s.interfaces).value.interfaces)
  {
    var Step(length, after) := ReadStep(rest, at, s).value;
    var order, block := after.order.value, rest[..length];
    assert Get32(order, block, 0) == Get32(order, rest, 0) && Get32(order, block, 4) == Get32(order, rest, 4);
    assert Get32(order, block, length - 4) == Get32(order, rest, length - 4);
    SectionHeaderPalindrome(order, rest);
    if IsSectionHeader(rest) {
      assert Get32(order, rest, 8) == BYTE_ORDER_MAGIC;
      assert Get32(order, block, 8) == Get32(order, rest, 8);
    }
  }

  /** The stream from here on: the rest of the current section, then whole sections. */
  ghost predicate LaidOut(rest: seq<byte>, order: ByteOrder, table: seq<Interface>, blocks: seq<Block>,
                          sections: seq<Section>)
  {
    && ValidBlocks(order, blocks, table)
    && (forall section <- sections :: ValidSection(section))
    && rest == BlocksBytes(order, blocks, table) + FileBytes(sections)
  }

  lemma NothingLaidOut(order: ByteOrder, table: seq<Interface>)
    ensures LaidOut([], order, table, [], [])
  {
  }

  lemma BlockLaidOut(block: seq<byte>, rest: seq<byte>, order: ByteOrder, table: seq<Interface>, b: Block,
                     blocks: seq<Block>, sections: seq<Section>)
    requires ValidBlock(order, b, table) && ValidBody(b) && FitsBlock(Body(order, b))
    requires Envelope(order, Kind(b), Body(order, b)) == block
    requires LaidOut(rest, order, EffectOf(order, b, table).interfaces, blocks, sections)
    ensures LaidOut(block + rest, order, table, [b] + blocks, sections)
  {
    hide Envelope, Body, EffectOf, FileBytes;
    var table' := EffectOf(order, b, table).interfaces;
    assert ([b] + blocks)[1..] == blocks;
    ConcatAssociative(block, BlocksBytes(order, blocks, table'), FileBytes(sections));
  }

  lemma SectionLaidOut(block: seq<byte>, rest: seq<byte>, section: Section, sections: seq<Section>,
                       order: ByteOrder, table: seq<Interface>)
    requires ValidSection(section) && HeaderBytes(section) == block
    requires LaidOut(rest, section.order, [], section.blocks, sections)
    ensures LaidOut(block + rest, order, table, [], [section] + sections)
  {
    hide HeaderBytes, ValidBlock, EffectOf;
    assert ([section] + sections)[1..] == sections;
    assert BlocksBytes(order, [], table) + FileBytes([section] + sections) == FileBytes([section] + sections);
  }

  /** Whatever is accepted can be taken apart into the blocks it was laid out from. */
  lemma {:induction false} Reassemble(rest: seq<byte>, at: nat, s: Stream)
    returns (blocks: seq<Block>, sections: seq<Section>)
    requires ReadBlocks(rest, at, s).Ok?
    ensures s.order.None? ==> blocks == []
    ensures LaidOut(rest, OrderOr(s.order), s.interfaces, blocks, sections)
    decreases |rest|
  {
    hide LaidOut, ReadStep, ReadBlock, ValidBlocks, Envelope, Body, HeaderBytes;
    if rest == [] {
      blocks, sections := [], [];
      NothingLaidOut(OrderOr(s.order), s.interfaces);
    } else {
      var Step(length, after) := ReadStep(rest, at, s).value;
      StepTakesBlock(rest, at, s);
      var block, order := rest[..length], after.order.value;
      var blocks', sections' := Reassemble(rest[length..], at + length, after);
      assert rest == block + rest[length..];
      if IsSectionHeader(rest) {
        LaidOutBlocks(rest[length..], order, [], blocks', sections');
        var section := HeaderOf(order, block, blocks');
        blocks, sections := [], [section] + sections';
        SectionLaidOut(block, rest[length..], section, sections', OrderOr(s.order), s.interfaces);
      } else {
        var b := BlockOf(order, block, s.interfaces);
        TableBehind(order, block, b, s.interfaces);
        blocks, sections := [b] + blocks', sections';
        BlockLaidOut(block, rest[length..], order, s.interfaces, b, blocks', sections');
      }
    }
  }

  lemma LaidOutBlocks(rest: seq<byte>, order: ByteOrder, table: seq<Interface>, blocks: seq<Block>,
                      sections: seq<Section>)
    requires LaidOut(rest, order, table, blocks, sections)
    ensures ValidBlocks(order, blocks, table)
  {
  }

  lemma TableBehind(order: ByteOrder, block: seq<byte>, b: Block, table: seq<Interface>)
    requires 12 <= |block| && ReadBlock(order, block, table).Ok? && ValidBlock(order, b, table)
    requires ValidBody(b) && FitsBlock(Body(order, b)) && Envelope(order, Kind(b), Body(order, b)) == block
    ensures ReadBlock(order, block, table).value.interfaces == EffectOf(order, b, table).interfaces
  {
    hide Envelope, Body, ReadBlock, EffectOf;
    BlockEffect(order, b, table);
  }

  /** Non-empty lists of well-formed sections. */
  ghost predicate WellFormed(sections: seq<Section>) {
    sections != [] && forall section <- sections :: ValidSection(section)
  }

  /**
   * The parser accepts exactly the inputs that some sections of well-formed
   * blocks tile from the first byte to the last, and returns their packets.
   */
  lemma AcceptedFiles(data: seq<byte>)
    ensures ReadFile(data).Ok? <==> exists sections | WellFormed(sections) :: FileBytes(sections) == data
    ensures forall sections | WellFormed(sections) && FileBytes(sections) == data ::
              ReadFile(data) == Ok(FilePackets(sections))
  {
    hide FileBytes, FilePackets, ReadBlocks, ValidSection;
    if ReadFile(data).Ok? {
      var blocks, sections := Reassemble(data, 0, START);
      StartsWithSection(data, blocks, sections);
    }
    forall sections | WellFormed(sections) && FileBytes(sections) == data
      ensures ReadFile(data) == Ok(FilePackets(sections))
    {
      FileRoundTrip(sections);
    }
  }

  lemma StartsWithSection(data: seq<byte>, blocks: seq<Block>, sections: seq<Section>)
    requires data != [] && blocks == [] && LaidOut(data, LittleEndian, [], blocks, sections)
    ensures WellFormed(sections) && FileBytes(sections) == data
  {
    assert BlocksBytes(LittleEndian, [], []) + FileBytes(sections) == FileBytes(sections);
  }
}
