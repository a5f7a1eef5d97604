// What stops the pcapng parser: the first block that is not well-formed, wherever it stands.

module PcapngErrors {
  import opened Bytes
  import opened Results
  import opened Frames
  import opened Pcapng
  import opened PcapngOptions
  import opened PcapngRoundTrip

  /** Reading reaches whatever follows well-formed sections and the well-formed start of another. */
  lemma ReadingGoesOn(before: seq<Section>, section: Section, rest: seq<byte>) returns (s: Stream)
    requires (forall b <- before :: ValidSection(b)) && ValidSection(section)
    ensures s.order == Some(section.order) && s.interfaces == TableAfter(section.order, section.blocks, [])
    ensures var blocks := BlocksBytes(section.order, section.blocks, []);
            ReadFile(FileBytes(before) + (HeaderBytes(section) + (blocks + rest)))
            == ReadBlocks(rest, |FileBytes(before)| + |HeaderBytes(section)| + |blocks|, s)
  {
    hide FileBytes, SectionsAfter, BlocksBytes, BlocksPackets, ReadStep, ReadBlocks, TableAfter;
    var blocks := BlocksBytes(section.order, section.blocks, []);
    var tail := HeaderBytes(section) + (blocks + rest);
    var sections := SectionsAfter(before, START);
    SectionsRead(before, tail, 0, START);
    SectionRead(section, rest, |FileBytes(before)|, sections);
    s := StreamAfter(section.order, section.blocks, Stream(Some(section.order), [], sections.packets));
  }

  /** The type of section header blocks, in either byte order. */
  predicate StartsSection(rest: seq<byte>) {
    |rest| >= 4 && rest[..4] == [0x0A, 0x0D, 0x0D, 0x0A]
  }

  lemma SectionHeaderBytes(rest: seq<byte>)
    requires |rest| >= 12
    ensures IsSectionHeader(rest) <==> StartsSection(rest)
  {
  }

  /** Framing: too few bytes for a block, or a length that is impossible or not repeated at its end. */
  lemma FramingErrors(rest: seq<byte>, at: nat, s: Stream)
    requires rest != []
    ensures |rest| < 12 ==> ReadBlocks(rest, at, s) == Err(TruncatedBlock(at))
    ensures |rest| >= 12 && !StartsSection(rest) && s.order == None ==> ReadBlocks(rest, at, s) == Err(NoSectionHeader)
    ensures |rest| >= 12 && !StartsSection(rest) && s.order.Some? ==>
      var length := Get32(s.order.value, rest, 4);
      && (length < 12 || length > |rest| ==> ReadBlocks(rest, at, s) == Err(InvalidBlockLength(length, at)))
      && (12 <= length <= |rest| && Get32(s.order.value, rest, length - 4) != length ==>
            ReadBlocks(rest, at, s) == Err(TrailerMismatch(at)))
  {
    if |rest| >= 12 {
      SectionHeaderBytes(rest);
    }
  }

  /** A section header says its byte order: 4D 3C 2B 1A or 1A 2B 3C 4D, and nothing else. */
  lemma SectionHeaderErrors(rest: seq<byte>, at: nat, s: Stream)
    requires |rest| >= 12 && StartsSection(rest)
    ensures var little, big := rest[8..12] == [0x4D, 0x3C, 0x2B, 0x1A], rest[8..12] == [0x1A, 0x2B, 0x3C, 0x4D];
            && (!little && !big ==> ReadBlocks(rest, at, s) == Err(UnsupportedByteOrderMagic))
            && (little ==> BlockOrder(rest, s.order) == Ok(LittleEndian))
            && (big ==> BlockOrder(rest, s.order) == Ok(BigEndian))
  {
    SectionHeaderBytes(rest);
    MagicLaidOut(rest[8..12]);
    SameBytes32(LittleEndian, rest, 8, rest[8..12], 0);
    SameBytes32(BigEndian, rest, 8, rest[8..12], 0);
  }

  lemma MagicLaidOut(magic: seq<byte>)
    requires |magic| == 4
    ensures Get32(LittleEndian, magic, 0) == 0x1A2B3C4D <==> magic == [0x4D, 0x3C, 0x2B, 0x1A]
    ensures Get32(BigEndian, magic, 0) == 0x1A2B3C4D <==> magic == [0x1A, 0x2B, 0x3C, 0x4D]
  {
    hide Put32;
    Put32Get32(LittleEndian, magic);
    Put32Get32(BigEndian, magic);
    MagicNumber();
  }

  lemma MagicNumber()
    ensures Put32(LittleEndian, 0x1A2B3C4D) == [0x4D, 0x3C, 0x2B, 0x1A]
    ensures Put32(BigEndian, 0x1A2B3C4D) == [0x1A, 0x2B, 0x3C, 0x4D]
  {
  }

  /** A framed block of a section, its length and trailer agreeing. */
  predicate FramedBlock(order: ByteOrder, rest: seq<byte>, kind: uint32, length: nat) {
    && 12 <= length <= |rest| && !StartsSection(rest)
    && Get32(order, rest, 0) == kind && Get32(order, rest, 4) == length && Get32(order, rest, length - 4) == length
  }

  lemma FramedFields(order: ByteOrder, rest: seq<byte>, kind: uint32, length: nat)
    requires FramedBlock(order, rest, kind, length)
    ensures Get32(order, rest[..length], 0) == kind
    ensures forall i: nat | i + 4 <= length :: Get32(order, rest[..length], i) == Get32(order, rest, i)
  {
  }

  /** Interface blocks: too short for their fields, or an option that runs beyond the block. */
  lemma InterfaceErrors(order: ByteOrder, rest: seq<byte>, length: nat, at: nat, s: Stream)
    requires s.order == Some(order) && FramedBlock(order, rest, 1, length)
    ensures length < 20 ==> ReadBlocks(rest, at, s) == Err(TruncatedInterface)
    ensures length >= 20
            && !(exists list: OptionList | list.Valid() ::
                   EndsOptions(order, list.tail) && list.Bytes(order) == rest[..length][16..length - 4]) ==>
      ReadBlocks(rest, at, s) == Err(InvalidInterfaceOption)
  {
    hide Get32, ReadOptions, OptionList.Valid, OptionList.Bytes;
    SectionHeaderBytes(rest);
    FramedFields(order, rest, 1, length);
    if length >= 20 {
      AcceptedOptions(order, rest[..length][16..length - 4], PowerOfTen(6));
      OnlyOneOptionError(order, rest[..length][16..length - 4], PowerOfTen(6));
    }
  }

  lemma {:induction false} OnlyOneOptionError(order: ByteOrder, rest: seq<byte>, resolution: Resolution)
    ensures ReadOptions(order, rest, resolution).Err? ==>
      ReadOptions(order, rest, resolution) == Err(InvalidInterfaceOption)
    decreases |rest|
  {
    hide Get16;
    if |rest| >= 4 && Get16(order, rest, 0) != 0 && 4 + Get16(order, rest, 2) <= |rest| {
      var length := Get16(order, rest, 2);
      var next := rest[Min(4 + PaddedLength(length), |rest|)..];
      OnlyOneOptionError(order, next, resolution);
      if length >= 1 { OnlyOneOptionError(order, next, ResolutionOf(rest[4])); }
    }
  }

  /** Packet blocks: too short, for an interface not declared, or with more bytes than the block has. */
  lemma PacketErrors(order: ByteOrder, rest: seq<byte>, length: nat, at: nat, s: Stream)
    requires s.order == Some(order) && FramedBlock(order, rest, 6, length)
    ensures length < 32 ==> ReadBlocks(rest, at, s) == Err(TruncatedPacket)
    ensures length >= 32 && Get32(order, rest, 8) >= |s.interfaces| ==>
      ReadBlocks(rest, at, s) == Err(UnknownInterface(Get32(order, rest, 8)))
    ensures length >= 32 && Get32(order, rest, 8) < |s.interfaces| && 32 + Get32(order, rest, 20) > length ==>
      ReadBlocks(rest, at, s) == Err(InvalidCapturedLength)
  {
    hide Get32;
    SectionHeaderBytes(rest);
    FramedFields(order, rest, 6, length);
  }

  lemma OneError(rest: seq<byte>, at: nat, s: Stream)
    requires rest != []
    ensures ReadStep(rest, at, s).Err? ==> ReadStep(rest, at, s).error != FileTooSmall
  {
    hide Get32, Get16, ReadOptions, Dissect;
    if |rest| >= 20 {
      var order := BlockOrder(rest, s.order);
      if order.Ok? && BlockLength(rest, at, order.value).Ok? {
        var block := rest[..BlockLength(rest, at, order.value).value];
        if |block| >= 20 { OnlyOneOptionError(order.value, block[16..|block| - 4], PowerOfTen(6)); }
      }
    }
  }

  lemma {:induction false} NeverTooSmall(rest: seq<byte>, at: nat, s: Stream)
    ensures ReadBlocks(rest, at, s).Err? ==> ReadBlocks(rest, at, s).error != FileTooSmall
    decreases |rest|
  {
    hide ReadStep;
    if rest != [] {
      OneError(rest, at, s);
      var step := ReadStep(rest, at, s);
      if step.Ok? {
        NeverTooSmall(rest[step.value.length..], at + step.value.length, step.value.after);
      }
    }
  }

  /** A file is too small exactly when it cannot hold the twelve bytes of a block. */
  lemma TooSmall(data: seq<byte>)
    ensures ReadFile(data) == Err(FileTooSmall) <==> |data| < 12
  {
    hide ReadBlocks;
    NeverTooSmall(data, 0, START);
  }
}
