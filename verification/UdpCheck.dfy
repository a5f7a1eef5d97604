// The UDP check tool: the account of 64-bit sequence numbers it keeps, and the
// packets it sends.

module UdpCheck {
  import opened Bytes
  import opened Results

  const WORD: int := 0x1_0000_0000_0000_0000

  // --------------------------------------------------------- sequence statistics

  /** The sequence fields of udpCheckSequenceStats. */
  datatype Stats = Stats(
    packets: nat,
    unique: nat,
    duplicates: nat,
    reordered: nat,
    loss: uint64,
    initialized: bool,
    highest: uint64,
    seen: set<uint64>)

  const START := Stats(0, 0, 0, 0, 0, false, 0, {})

  /** What one sequence number does to the counters; sums of 64-bit words wrap around. */
  function Observe(s: Stats, number: uint64): Stats {
    var counted := s.(packets := s.packets + 1);
    if number in s.seen then
      counted.(duplicates := s.duplicates + 1)
    else
      var unseen := counted.(seen := s.seen + {number}, unique := s.unique + 1);
      if !s.initialized then
        unseen.(initialized := true, highest := number)
      else if number > s.highest then
        unseen.(highest := number,
                loss := if number > (s.highest + 1) % WORD then (s.loss + (number - s.highest - 1)) % WORD
                        else s.loss)
      else
        unseen.(reordered := s.reordered + 1)
  }

  class SequenceStats {
    var packets: nat
    var uniquePackets: nat
    var duplicatePackets: nat
    var reorderedPackets: nat
    var lossPackets: uint64
    var initialized: bool
    var highestSeq: uint64
    var seen: set<uint64>

    constructor ()
      ensures Contents() == START
    {
      packets, uniquePackets, duplicatePackets, reorderedPackets, lossPackets := 0, 0, 0, 0, 0;
      initialized, highestSeq, seen := false, 0, {};
    }

    ghost function Contents(): Stats
      reads this
    {
      Stats(packets, uniquePackets, duplicatePackets, reorderedPackets, lossPackets, initialized, highestSeq, seen)
    }

    method ObserveNumber(number: uint64)
      modifies this
      ensures Contents() == Observe(old(Contents()), number)
    {
      packets := packets + 1;
      if number in seen {
        duplicatePackets := duplicatePackets + 1;
        return;
      }
      seen := seen + {number};
      uniquePackets := uniquePackets + 1;
      if !initialized {
        initialized := true;
        highestSeq := number;
        return;
      }
      if number > highestSeq {
        if number > (highestSeq + 1) % WORD {
          lossPackets := (lossPackets + (number - highestSeq - 1)) % WORD;
        }
        highestSeq := number;
        return;
      }
      reorderedPackets := reorderedPackets + 1;
    }
  }

  function ObserveAll(numbers: seq<uint64>): Stats {
    if numbers == [] then START else Observe(ObserveAll(numbers[..|numbers| - 1]), numbers[|numbers| - 1])
  }

  /** The different numbers of a stream. */
  function Values(numbers: seq<uint64>): set<uint64> {
    set n | n in numbers
  }

  /** What every run keeps; the sum of the gaps never wraps around. */
  ghost predicate Kept(numbers: seq<uint64>, s: Stats)
    requires numbers != []
  {
    var first := numbers[0];
    && s.initialized && first in s.seen
    && s.packets == |numbers| == s.unique + s.duplicates
    && s.unique == |s.seen| && s.seen == Values(numbers)
    && (forall n <- s.seen :: n <= s.highest) && s.highest in s.seen
    && s.loss == s.highest - first + 1 - s.unique + s.reordered
    && s.reordered < s.unique
  }

  lemma ValuesGrow(front: seq<uint64>, last: uint64)
    ensures Values(front + [last]) == Values(front) + {last}
  {
  }

  lemma StepKeeps(front: seq<uint64>, s: Stats, last: uint64)
    requires front != [] && Kept(front, s)
    ensures Kept(front + [last], Observe(s, last))
  {
    ValuesGrow(front, last);
    hide Values;
    assert (front + [last])[0] == front[0];
  }

  lemma {:induction false} RunKeeps(numbers: seq<uint64>)
    requires numbers != []
    ensures Kept(numbers, ObserveAll(numbers))
    decreases |numbers|
  {
    hide Kept, Observe;
    var front, last := numbers[..|numbers| - 1], numbers[|numbers| - 1];
    assert numbers == front + [last];
    if front == [] {
      FirstKept(last);
      assert ObserveAll(front) == START;
    } else {
      RunKeeps(front);
      StepKeeps(front, ObserveAll(front), last);
    }
  }

  lemma FirstKept(number: uint64)
    ensures Kept([number], Observe(START, number))
  {
    assert Values([number]) == {number};
  }

  /** The numbers from low to high. */
  function Range(low: uint64, high: uint64): (r: set<uint64>)
    requires low <= high
    ensures forall x: uint64 :: x in r <==> low <= x <= high
    ensures |r| == high - low + 1
    decreases high
  {
    if low == high then {high} else Range(low, high - 1) + {high}
  }

  /** The numbers between the first and the highest that never arrived. */
  function Missing(numbers: seq<uint64>, highest: uint64): set<uint64>
    requires numbers != [] && numbers[0] <= highest
  {
    Range(numbers[0], highest) - Values(numbers)
  }

  /** The numbers that arrived although they precede the first. */
  function Early(numbers: seq<uint64>): set<uint64>
    requires numbers != []
  {
    set n | n in numbers && n < numbers[0]
  }

  lemma Partition(all: set<uint64>, early: set<uint64>, range: set<uint64>)
    requires early <= all && all - early <= range && early !! range
    ensures |range - all| == |range| - |all| + |early|
  {
    var late := all - early;
    assert range - all == range - late;
    assert all == early + late && early !! late;
    assert range == late + (range - late) && late !! (range - late);
  }

  /**
   * The exact gap identity: the loss counter is the number of missing sequence
   * numbers, plus the reordered packets, minus the early ones; every packet is
   * unique or a duplicate, and the unique ones are the different numbers.
   */
  lemma GapIdentity(numbers: seq<uint64>)
    requires numbers != []
    ensures var s := ObserveAll(numbers);
            && s.highest in numbers && (forall n <- numbers :: n <= s.highest) && numbers[0] <= s.highest
            && s.loss == |Missing(numbers, s.highest)| + s.reordered - |Early(numbers)|
            && s.packets == s.unique + s.duplicates == |numbers|
            && s.unique == |Values(numbers)|
  {
    hide ObserveAll;
    var s := ObserveAll(numbers);
    RunKeeps(numbers);
    assert forall n <- numbers :: n in s.seen;
    Partition(Values(numbers), Early(numbers), Range(numbers[0], s.highest));
  }

  // ----------------------------------------------------------------------- packets

  type int64 = x: int | -0x8000_0000_0000_0000 <= x < 0x8000_0000_0000_0000

  const MAGIC: seq<byte> := [0x52, 0x4F, 0x41, 0x44, 0x43, 0x48, 0x4B, 0x31]  // "ROADCHK1"
  const VERSION: byte := 1
  const HEADER_LENGTH: nat := 64

  datatype Packet = Packet(
    kind: byte,
    playerId: uint32,
    sequence: uint64,
    sentUnixNano: int64,
    serverUnixNano: int64,
    payloadBytes: uint32,
    tickRate: uint32,
    state: uint64)

  /** Go's conversions between int64 and uint64. */
  function ToUnsigned(x: int64): uint64 {
    if x < 0 then x + WORD else x
  }

  function ToSigned(x: uint64): int64 {
    if x < 0x8000_0000_0000_0000 then x else x - WORD
  }

  /** The length a packet is padded to. */
  function EncodedLength(payloadBytes: int): (n: nat)
    ensures n >= HEADER_LENGTH
  {
    if payloadBytes < HEADER_LENGTH then HEADER_LENGTH else payloadBytes
  }

  function Header(packet: Packet, length: nat): (s: seq<byte>)
    ensures |s| == HEADER_LENGTH
  {
    MAGIC + [VERSION, packet.kind] + Put16(BigEndian, 0) + Put32(BigEndian, packet.playerId)
    + Put64(packet.sequence) + Put64(ToUnsigned(packet.sentUnixNano)) + Put64(ToUnsigned(packet.serverUnixNano))
    + Put32(BigEndian, length % 0x1_0000_0000) + Put32(BigEndian, packet.tickRate) + Put64(packet.state)
    + [0, 0, 0, 0, 0, 0, 0, 0]
  }

  /** The filler byte at index i, computed in 64-bit words. */
  function Filler(packet: Packet, i: nat): byte {
    (i + packet.sequence * 31 + packet.playerId * 17) % WORD % 0x100
  }

  function Encoded(packet: Packet, length: nat): (s: seq<byte>)
    requires length >= HEADER_LENGTH
    ensures |s| == length
  {
    Header(packet, length) + seq<byte>(length - HEADER_LENGTH, i requires 0 <= i => Filler(packet, HEADER_LENGTH + i))
  }

  /** The packet as it travels: every field in its place, most significant byte first. */
  lemma WireFormat(packet: Packet, length: nat)
    requires length >= 64
    ensures var s := Encoded(packet, length);
            && |s| == length
            && s[..8] == [82, 79, 65, 68, 67, 72, 75, 49] && s[8] == 1 && s[9] == packet.kind
            && s[10..12] == [0, 0] && s[56..64] == [0, 0, 0, 0, 0, 0, 0, 0]
            && s[12..16] == Put32(BigEndian, packet.playerId)
            && s[16..24] == Put64(packet.sequence)
            && s[24..32] == Put64(if packet.sentUnixNano < 0 then packet.sentUnixNano + 0x1_0000_0000_0000_0000
                                  else packet.sentUnixNano)
            && s[32..40] == Put64(if packet.serverUnixNano < 0 then packet.serverUnixNano + 0x1_0000_0000_0000_0000
                                  else packet.serverUnixNano)
            && s[40..44] == Put32(BigEndian, length % 0x1_0000_0000)
            && s[44..48] == Put32(BigEndian, packet.tickRate)
            && s[48..56] == Put64(packet.state)
  {
    hide Put32, Put64, Put16, Filler;
    ZeroWord();
  }

  lemma ZeroWord()
    ensures Put16(BigEndian, 0) == [0, 0]
  {
  }

  /** Behind the header every byte depends on its place, the sequence number and the player. */
  lemma FillerBytes(packet: Packet, length: nat, i: nat)
    requires 64 <= i < length
    ensures Encoded(packet, length)[i] == (i + 31 * packet.sequence + 17 * packet.playerId) % 256
  {
    hide Header;
    var sum := i + packet.sequence * 31 + packet.playerId * 17;
    RemainderOfRemainder(sum);
    assert Encoded(packet, length)[i] == Filler(packet, i) == sum % WORD % 0x100;
  }

  lemma RemainderOfRemainder(x: nat)
    ensures x % 0x1_0000_0000_0000_0000 % 256 == x % 256
  {
  }

  /** Small payloads are padded to the header, larger ones have the length asked for. */
  lemma Lengths(payloadBytes: int)
    ensures EncodedLength(payloadBytes) == if payloadBytes < 64 then 64 else payloadBytes
  {
  }

  /** encodeUDPCheckPacket. */
  method EncodePacket(packet: Packet, payloadBytes: int) returns (buf: array<byte>)
    ensures fresh(buf) && buf[..] == Encoded(packet, EncodedLength(payloadBytes))
  {
    hide Header, Filler;
    var length := EncodedLength(payloadBytes);
    buf := new byte[length](i => 0);
    var header := Header(packet, length);
    for i := 0 to HEADER_LENGTH
      invariant forall j | 0 <= j < i :: buf[j] == header[j]
    {
      buf[i] := header[i];
    }
    for i := HEADER_LENGTH to buf.Length
      invariant forall j | 0 <= j < HEADER_LENGTH :: buf[j] == header[j]
      invariant forall j | HEADER_LENGTH <= j < i :: buf[j] == Filler(packet, j)
    {
      buf[i] := Filler(packet, i);
    }
  }

  datatype DecodeError = TooShort(length: nat) | MagicMismatch | VersionMismatch(version: byte)

  /** decodeUDPCheckPacket. */
  function Decode(data: seq<byte>): Result<Packet, DecodeError> {
    if |data| < HEADER_LENGTH then Err(TooShort(|data|))
    else if data[..8] != MAGIC then Err(MagicMismatch)
    else if data[8] != VERSION then Err(VersionMismatch(data[8]))
    else
      Ok(Packet(
           data[9], Get32(BigEndian, data, 12), Get64(data, 16), ToSigned(Get64(data, 24)), ToSigned(Get64(data, 32)),
           Get32(BigEndian, data, 40), Get32(BigEndian, data, 44), Get64(data, 48)))
  }

  /** What is no packet: too short, another magic, another version; everything else decodes. */
  lemma DecodeErrors(data: seq<byte>)
    ensures |data| < 64 ==> Decode(data) == Err(TooShort(|data|))
    ensures |data| >= 64 && data[..8] != [82, 79, 65, 68, 67, 72, 75, 49] ==> Decode(data) == Err(MagicMismatch)
    ensures |data| >= 64 && data[..8] == [82, 79, 65, 68, 67, 72, 75, 49] && data[8] != 1 ==>
      Decode(data) == Err(VersionMismatch(data[8]))
    ensures |data| >= 64 && data[..8] == [82, 79, 65, 68, 67, 72, 75, 49] && data[8] == 1 ==> Decode(data).Ok?
  {
  }

  lemma SameBytes64(s: seq<byte>, i: nat, t: seq<byte>)
    requires |t| == 8 && i + 8 <= |s| && s[i..i + 8] == t
    ensures Get64(s, i) == Get64(t, 0)
  {
    SliceOfSlice(s, i, i + 8, 0, 4);
    SliceOfSlice(s, i, i + 8, 4, 8);
    SameBytes32(BigEndian, s, i, t, 0);
    SameBytes32(BigEndian, s, i + 4, t, 4);
  }

  /** Where the fields of the header are. */
  lemma HeaderFields(packet: Packet, length: nat)
    ensures var s := Header(packet, length);
            && s[..8] == MAGIC && s[8] == VERSION && s[9] == packet.kind
            && s[12..16] == Put32(BigEndian, packet.playerId)
            && s[16..24] == Put64(packet.sequence)
            && s[24..32] == Put64(ToUnsigned(packet.sentUnixNano))
            && s[32..40] == Put64(ToUnsigned(packet.serverUnixNano))
            && s[40..44] == Put32(BigEndian, length % 0x1_0000_0000)
            && s[44..48] == Put32(BigEndian, packet.tickRate)
            && s[48..56] == Put64(packet.state)
  {
    hide Put16, Put32, Put64;
  }

  lemma Field32(s: seq<byte>, i: nat, x: uint32)
    requires i + 4 <= |s| && s[i..i + 4] == Put32(BigEndian, x)
    ensures Get32(BigEndian, s, i) == x
  {
    SameBytes32(BigEndian, s, i, Put32(BigEndian, x), 0);
  }

  lemma Field64(s: seq<byte>, i: nat, x: uint64)
    requires i + 8 <= |s| && s[i..i + 8] == Put64(x)
    ensures Get64(s, i) == x
  {
    SameBytes64(s, i, Put64(x));
  }

  lemma HeaderDecodes(packet: Packet, length: nat, data: seq<byte>)
    requires HEADER_LENGTH <= |data| && data[..HEADER_LENGTH] == Header(packet, length)
    ensures Decode(data) == Ok(packet.(payloadBytes := length % 0x1_0000_0000))
  {
    hide Header, Put32, Put64, Get32, Get64;
    var s := Header(packet, length);
    HeaderFields(packet, length);
    CutThenSlice(data, HEADER_LENGTH, 0, 8);
    CutThenSlice(data, HEADER_LENGTH, 12, 16);
    CutThenSlice(data, HEADER_LENGTH, 16, 24);
    CutThenSlice(data, HEADER_LENGTH, 24, 32);
    CutThenSlice(data, HEADER_LENGTH, 32, 40);
    CutThenSlice(data, HEADER_LENGTH, 40, 44);
    CutThenSlice(data, HEADER_LENGTH, 44, 48);
    CutThenSlice(data, HEADER_LENGTH, 48, 56);
    assert data[8] == s[8] && data[9] == s[9];
    Field32(data, 12, packet.playerId);
    Field64(data, 16, packet.sequence);
    Field64(data, 24, ToUnsigned(packet.sentUnixNano));
    Field64(data, 32, ToUnsigned(packet.serverUnixNano));
    Field32(data, 40, length % 0x1_0000_0000);
    Field32(data, 44, packet.tickRate);
    Field64(data, 48, packet.state);
  }

  /** A packet survives the wire, except that its length field tells the length it was sent with. */
  lemma PacketRoundTrip(packet: Packet, payloadBytes: int)
    ensures var length := EncodedLength(payloadBytes);
            Decode(Encoded(packet, length)) == Ok(packet.(payloadBytes := length % 0x1_0000_0000))
  {
    hide Header, Decode, Filler;
    var length := EncodedLength(payloadBytes);
    HeaderDecodes(packet, length, Encoded(packet, length));
  }
}
