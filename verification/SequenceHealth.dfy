// The health of a stream of RakNet datagrams, judged by 24-bit sequence
// numbers that wrap around, against the same account on unbounded numbers.

module SequenceHealth {
  import opened Bytes
  import opened Results

  const MODULO: int := 0x100_0000
  const HALF: int := 0x80_0000
  const DATA_PACKET_MIN: byte := 0x80
  const DATA_PACKET_MAX: byte := 0x8D

  type Sequence = x: int | 0 <= x < MODULO

  /** The sequence fields of FlowMetrics. */
  datatype Tracker = Tracker(
    packets: nat,
    bytes: nat,
    seqPackets: nat,
    loss: nat,
    reordered: nat,
    duplicates: nat,
    initialized: bool,
    nextExpected: Sequence)

  function ParseRakNetSequence(payload: seq<byte>): Option<Sequence> {
    if |payload| < 4 || payload[0] < DATA_PACKET_MIN || payload[0] > DATA_PACKET_MAX then
      None
    else
      var low: int, middle: int, high: int := payload[1], payload[2], payload[3];
      Some(low + 0x100 * middle + 0x1_0000 * high)
  }

  /**
   * A data packet carries its number behind the packet id, in three bytes, the
   * lowest first; nothing else carries one.
   */
  lemma DataPacketNumber(payload: seq<byte>)
    ensures ParseRakNetSequence(payload).Some? <==> |payload| >= 4 && 0x80 <= payload[0] <= 0x8D
    ensures ParseRakNetSequence(payload).Some? ==>
      var low: int, middle: int, high: int := payload[1], payload[2], payload[3];
      ParseRakNetSequence(payload).value == low + 0x100 * middle + 0x1_0000 * high
  {
  }

  /** What is laid out so is read back. */
  lemma DataPacketRoundTrip(id: byte, number: Sequence, rest: seq<byte>)
    requires 0x80 <= id <= 0x8D
    ensures ParseRakNetSequence([id, number % 0x100, number / 0x100 % 0x100, number / 0x1_0000] + rest) == Some(number)
  {
  }

  function SeqForwardDistance(expected: Sequence, received: Sequence): (distance: Sequence)
    ensures (expected + distance) % MODULO == received
  {
    if received >= expected then received - expected else MODULO - expected + received
  }

  /** What one sequence number does to the counters. */
  function ObserveSequence(t: Tracker, number: Sequence): Tracker {
    var counted := t.(seqPackets := t.seqPackets + 1);
    var next := (number + 1) % MODULO;
    if !t.initialized then
      counted.(initialized := true, nextExpected := next)
    else
      var forward := SeqForwardDistance(t.nextExpected, number);
      if forward == 0 then
        counted.(nextExpected := next)
      else if forward < HALF then
        counted.(loss := t.loss + forward, nextExpected := next)
      else if number == (t.nextExpected + MODULO - 1) % MODULO then
        counted.(duplicates := t.duplicates + 1)
      else
        counted.(reordered := t.reordered + 1)
  }

  /** ObservePacket, without its timing and size statistics. */
  function ObservePayload(t: Tracker, payload: seq<byte>): Tracker {
    var received := t.(packets := t.packets + 1, bytes := t.bytes + |payload|);
    match ParseRakNetSequence(payload)
    case None => received
    case Some(number) => ObserveSequence(received, number)
  }

  const START := Tracker(0, 0, 0, 0, 0, 0, false, 0)

  class FlowMetrics {
    var packets: nat
    var bytes: nat
    var seqPackets: nat
    var lossPackets: nat
    var reorderedPackets: nat
    var duplicatePackets: nat
    var seqInitialized: bool
    var nextExpectedSeq: Sequence

    constructor ()
      ensures Contents() == START
    {
      packets, bytes, seqPackets, lossPackets, reorderedPackets, duplicatePackets := 0, 0, 0, 0, 0, 0;
      seqInitialized, nextExpectedSeq := false, 0;
    }

    ghost function Contents(): Tracker
      reads this
    {
      Tracker(packets, bytes, seqPackets, lossPackets, reorderedPackets, duplicatePackets, seqInitialized,
              nextExpectedSeq)
    }

    method ObservePacket(payload: seq<byte>)
      modifies this
      ensures Contents() == ObservePayload(old(Contents()), payload)
    {
      packets := packets + 1;
      bytes := bytes + |payload|;
      var parsed := ParseRakNetSequence(payload);
      if parsed.None? {
        return;
      }
      var number := parsed.value;
      seqPackets := seqPackets + 1;
      if !seqInitialized {
        seqInitialized := true;
        nextExpectedSeq := (number + 1) % MODULO;
        return;
      }
      var forward := SeqForwardDistance(nextExpectedSeq, number);
      if forward == 0 {
        nextExpectedSeq := (number + 1) % MODULO;
      } else if forward < HALF {
        lossPackets := lossPackets + forward;
        nextExpectedSeq := (number + 1) % MODULO;
      } else {
        var prevExpected := (nextExpectedSeq + MODULO - 1) % MODULO;
        if number == prevExpected {
          duplicatePackets := duplicatePackets + 1;
        } else {
          reorderedPackets := reorderedPackets + 1;
        }
      }
    }
  }

  // ------------------------------------------------------------------- streams

  function ObserveAll(t: Tracker, numbers: seq<Sequence>): Tracker {
    if numbers == [] then t
    else ObserveSequence(ObserveAll(t, numbers[..|numbers| - 1]), numbers[|numbers| - 1])
  }

  function ObservePayloads(t: Tracker, payloads: seq<seq<byte>>): Tracker {
    if payloads == [] then t
    else ObservePayload(ObservePayloads(t, payloads[..|payloads| - 1]), payloads[|payloads| - 1])
  }

  /** The sequence numbers of the RakNet data packets among some payloads. */
  function Numbers(payloads: seq<seq<byte>>): seq<Sequence> {
    if payloads == [] then
      []
    else
      Numbers(payloads[..|payloads| - 1])
      + match ParseRakNetSequence(payloads[|payloads| - 1])
        case None => []
        case Some(number) => [number]
  }

  function TotalBytes(payloads: seq<seq<byte>>): nat {
    if payloads == [] then 0 else TotalBytes(payloads[..|payloads| - 1]) + |payloads[|payloads| - 1]|
  }

  /** Every payload counts with all its bytes; those that carry no number leave the sequence counters alone. */
  lemma {:induction false} PayloadsAreNumbers(payloads: seq<seq<byte>>)
    ensures var t, n := ObservePayloads(START, payloads), ObserveAll(START, Numbers(payloads));
            t == n.(packets := t.packets, bytes := t.bytes)
            && t.packets == |payloads| && t.bytes == TotalBytes(payloads)
  {
    hide ParseRakNetSequence, SeqForwardDistance;
    if payloads != [] {
      var front, last := payloads[..|payloads| - 1], payloads[|payloads| - 1];
      PayloadsAreNumbers(front);
      match ParseRakNetSequence(last)
      case None =>
        assert Numbers(payloads) == Numbers(front);
      case Some(number) =>
        assert Numbers(payloads)[..|Numbers(front)|] == Numbers(front);
    }
  }

  /** Congruence survives addition. */
  lemma AddBoth(a: int, b: int, n: int)
    requires a % 0x100_0000 == b % 0x100_0000
    ensures (a + n) % 0x100_0000 == (b + n) % 0x100_0000
  {
  }

  /** An advance over forward lost packets to the next sequence number. */
  lemma Advance(expected: Sequence, account: int, number: Sequence)
    requires expected == account % 0x100_0000
    ensures (number + 1) % 0x100_0000 == (account + SeqForwardDistance(expected, number) + 1) % 0x100_0000
  {
    var forward: int := SeqForwardDistance(expected, number);
    AddBoth(expected, account, forward + 1);
    AddBoth(number, expected + forward, 1);
  }

  /**
   * On every stream, wrapping or not: the next expected number is as far from
   * the first as the lost packets and the packets that advanced account for.
   */
  lemma {:induction false} ExpectedAccounts(numbers: seq<Sequence>)
    requires numbers != []
    ensures var t := ObserveAll(START, numbers);
            && t.initialized && t.seqPackets == |numbers|
            && t.duplicates + t.reordered < t.seqPackets
            && t.nextExpected == (numbers[0] + t.loss + (t.seqPackets - t.duplicates - t.reordered)) % 0x100_0000
  {
    hide SeqForwardDistance;
    var front := numbers[..|numbers| - 1];
    if front == [] {
      assert ObserveAll(START, front) == START;
    } else {
      ExpectedAccounts(front);
      var t, number := ObserveAll(START, front), numbers[|numbers| - 1];
      Advance(t.nextExpected, numbers[0] + t.loss + (t.seqPackets - t.duplicates - t.reordered), number);
    }
  }

  // --------------------------------------------- the account without wraparound

  /** The same tracker on unbounded numbers. */
  datatype Account = Account(packets: nat, loss: nat, reordered: nat, duplicates: nat, started: bool, expected: int)

  function Observe(a: Account, number: int): Account {
    var counted := a.(packets := a.packets + 1);
    if !a.started then counted.(started := true, expected := number + 1)
    else if number >= a.expected then counted.(loss := a.loss + (number - a.expected), expected := number + 1)
    else if number == a.expected - 1 then counted.(duplicates := a.duplicates + 1)
    else counted.(reordered := a.reordered + 1)
  }

  const NOTHING := Account(0, 0, 0, 0, false, 0)

  function Judge(numbers: seq<int>): Account {
    if numbers == [] then NOTHING else Observe(Judge(numbers[..|numbers| - 1]), numbers[|numbers| - 1])
  }

  function Highest(numbers: seq<int>): int
    requires numbers != []
  {
    var last := numbers[|numbers| - 1];
    if |numbers| == 1 then last
    else
      var before := Highest(numbers[..|numbers| - 1]);
      if last > before then last else before
  }

  predicate IsRepeat(numbers: seq<int>, i: nat) {
    0 < i < |numbers| && numbers[i] == Highest(numbers[..i])
  }

  predicate IsStraggler(numbers: seq<int>, i: nat) {
    0 < i < |numbers| && numbers[i] < Highest(numbers[..i])
  }

  /** Where a number repeats the highest one before it. */
  function Repeats(numbers: seq<int>): set<nat> {
    set i: nat | i < |numbers| && IsRepeat(numbers, i)
  }

  /** Where a number is below the highest one before it. */
  function Stragglers(numbers: seq<int>): set<nat> {
    set i: nat | i < |numbers| && IsStraggler(numbers, i)
  }

  lemma SamePrefix(front: seq<int>, last: int, i: nat)
    requires i < |front|
    ensures IsRepeat(front + [last], i) <==> IsRepeat(front, i)
    ensures IsStraggler(front + [last], i) <==> IsStraggler(front, i)
  {
    hide Highest;
    assert (front + [last])[..i] == front[..i];
  }

  lemma AtTheEnd(front: seq<int>, last: int)
    requires front != []
    ensures IsRepeat(front + [last], |front|) <==> last == Highest(front)
    ensures IsStraggler(front + [last], |front|) <==> last < Highest(front)
  {
    hide Highest;
    assert (front + [last])[..|front|] == front;
  }

  lemma Membership(numbers: seq<int>, i: nat)
    ensures i in Repeats(numbers) <==> i < |numbers| && IsRepeat(numbers, i)
    ensures i in Stragglers(numbers) <==> i < |numbers| && IsStraggler(numbers, i)
  {
    hide IsRepeat, IsStraggler;
  }

  lemma OnePositionMore(front: seq<int>, last: int, i: nat)
    requires front != []
    ensures i in Repeats(front + [last]) <==> i in Repeats(front) || (i == |front| && last == Highest(front))
    ensures i in Stragglers(front + [last]) <==> i in Stragglers(front) || (i == |front| && last < Highest(front))
  {
    hide Highest, IsRepeat, IsStraggler, Repeats, Stragglers;
    Membership(front, i);
    Membership(front + [last], i);
    AtTheEnd(front, last);
    if i < |front| {
      SamePrefix(front, last, i);
    }
  }

  lemma RepeatsGrow(front: seq<int>, last: int)
    requires front != []
    ensures |front| !in Repeats(front)
    ensures Repeats(front + [last]) == Repeats(front) + (if last == Highest(front) then {|front|} else {})
  {
    hide Highest, Repeats, Stragglers, IsRepeat;
    Membership(front, |front|);
    var more: set<nat> := if last == Highest(front) then {|front|} else {};
    forall i: nat ensures i in Repeats(front + [last]) <==> i in Repeats(front) + more {
      OnePositionMore(front, last, i);
    }
  }

  lemma StragglersGrow(front: seq<int>, last: int)
    requires front != []
    ensures |front| !in Stragglers(front)
    ensures Stragglers(front + [last]) == Stragglers(front) + (if last < Highest(front) then {|front|} else {})
  {
    hide Highest, Repeats, Stragglers, IsStraggler;
    Membership(front, |front|);
    var more: set<nat> := if last < Highest(front) then {|front|} else {};
    forall i: nat ensures i in Stragglers(front + [last]) <==> i in Stragglers(front) + more {
      OnePositionMore(front, last, i);
    }
  }

  /** The number at i is higher than all before it. */
  predicate IsAdvance(numbers: seq<int>, i: nat) {
    i < |numbers| && (i == 0 || numbers[i] > Highest(numbers[..i]))
  }

  ghost predicate Reached(numbers: seq<int>, x: int) {
    exists i: nat | IsAdvance(numbers, i) :: numbers[i] == x
  }

  /** The numbers above low and below high. */
  function Between(low: int, high: int): (r: set<int>)
    ensures forall x :: x in r <==> low < x < high
    ensures |r| == if low < high then high - low - 1 else 0
    decreases high - low
  {
    if low + 1 < high then Between(low, high - 1) + {high - 1} else {}
  }

  /** The numbers between the first and the highest that the stream advanced past without reaching them. */
  ghost function PassedOver(numbers: seq<int>): set<int>
    requires numbers != []
  {
    set x | x in Between(numbers[0], Highest(numbers)) && !Reached(numbers, x)
  }

  lemma AdvanceStays(front: seq<int>, last: int, i: nat)
    requires front != []
    ensures i < |front| ==> (IsAdvance(front + [last], i) <==> IsAdvance(front, i)) && (front + [last])[i] == front[i]
    ensures IsAdvance(front + [last], |front|) <==> last > Highest(front)
    ensures i > |front| ==> !IsAdvance(front + [last], i)
  {
    hide Highest;
    assert (front + [last])[..|front|] == front;
    if i < |front| {
      assert (front + [last])[..i] == front[..i];
    }
  }

  lemma ReachedGrows(front: seq<int>, last: int, x: int)
    requires front != []
    ensures Reached(front + [last], x) <==> Reached(front, x) || (x == last && last > Highest(front))
  {
    hide Highest;
    var numbers := front + [last];
    if Reached(front, x) {
      var i: nat :| IsAdvance(front, i) && front[i] == x;
      AdvanceStays(front, last, i);
      assert IsAdvance(numbers, i) && numbers[i] == x;
    }
    if x == last && last > Highest(front) {
      AdvanceStays(front, last, 0);
      assert IsAdvance(numbers, |front|) && numbers[|front|] == x;
    }
    if Reached(numbers, x) {
      var i: nat :| IsAdvance(numbers, i) && numbers[i] == x;
      AdvanceStays(front, last, i);
    }
  }

  lemma HighestOfMore(front: seq<int>, last: int)
    requires front != []
    ensures Highest(front + [last]) == if last > Highest(front) then last else Highest(front)
  {
    assert (front + [last])[..|front|] == front;
  }

  /** The highest number is reached, and no number above it is. */
  lemma {:induction false} HighestReached(numbers: seq<int>, x: int)
    requires numbers != []
    ensures Reached(numbers, Highest(numbers)) && numbers[0] <= Highest(numbers)
    ensures Reached(numbers, x) ==> x <= Highest(numbers)
    decreases |numbers|
  {
    hide Reached, IsAdvance;
    var front, last := numbers[..|numbers| - 1], numbers[|numbers| - 1];
    assert numbers == front + [last];
    if front == [] {
      assert numbers == [last];
      OnlyReached(last, x);
      OnlyReached(last, last);
    } else {
      HighestReached(front, x);
      HighestOfMore(front, last);
      ReachedGrows(front, last, x);
      ReachedGrows(front, last, Highest(numbers));
    }
  }

  lemma OnlyReached(number: int, x: int)
    ensures Reached([number], x) <==> x == number
    ensures Highest([number]) == number
  {
    assert IsAdvance([number], 0);
  }

  /** An advance passes over what lies between; nothing else does. */
  lemma PassedOverGrows(front: seq<int>, last: int)
    requires front != []
    ensures var high := Highest(front);
            PassedOver(front + [last]) == PassedOver(front) + Between(high, last)
            && PassedOver(front) !! Between(high, last)
  {
    hide Reached, Between, Highest;
    var high := Highest(front);
    var numbers := front + [last];
    HighestOfMore(front, last);
    forall x ensures x in PassedOver(numbers) <==> x in PassedOver(front) || x in Between(high, last) {
      ReachedGrows(front, last, x);
      HighestReached(front, x);
    }
  }

  /** The loss counter is the number of numbers passed over. */
  lemma {:induction false} LossMeans(numbers: seq<int>)
    requires numbers != []
    ensures Judge(numbers).started && Judge(numbers).expected == Highest(numbers) + 1
    ensures Judge(numbers).loss == |PassedOver(numbers)|
    decreases |numbers|
  {
    hide PassedOver, Between;
    var front, last := numbers[..|numbers| - 1], numbers[|numbers| - 1];
    if front == [] {
      assert Judge(front) == NOTHING && numbers == [last];
      NothingPassed(last);
    } else {
      LossMeans(front);
      assert numbers == front + [last];
      PassedOverGrows(front, last);
    }
  }

  lemma NothingPassed(number: int)
    ensures PassedOver([number]) == {}
  {
  }

  /** The declarative account: what the counters mean in terms of the whole stream. */
  lemma {:induction false} JudgeMeans(numbers: seq<int>)
    requires numbers != []
    ensures var a := Judge(numbers);
            && a.started && a.packets == |numbers|
            && a.expected == Highest(numbers) + 1
            && a.duplicates == |Repeats(numbers)|
            && a.reordered == |Stragglers(numbers)|
            && a.loss == |PassedOver(numbers)|
            && a.loss == (Highest(numbers) - numbers[0] + 1) - (|numbers| - a.duplicates - a.reordered)
    decreases |numbers|
  {
    hide Repeats, Stragglers, PassedOver;
    LossMeans(numbers);
    var n := |numbers| - 1;
    var front, last := numbers[..n], numbers[n];
    if front == [] {
      assert Judge(front) == NOTHING;
      NoneYet(numbers);
    } else {
      JudgeMeans(front);
      assert numbers == front + [last];
      RepeatsGrow(front, last);
      StragglersGrow(front, last);
    }
  }

  lemma NoneYet(numbers: seq<int>)
    requires |numbers| == 1
    ensures Repeats(numbers) == {} && Stragglers(numbers) == {}
  {
  }

  // ---------------------------------------------------------------- refinement

  /** The wrapping tracker says what the unbounded account says. */
  predicate Agree(t: Tracker, a: Account) {
    && t.seqPackets == a.packets && t.loss == a.loss
    && t.reordered == a.reordered && t.duplicates == a.duplicates
    && t.initialized == a.started && (a.started ==> t.nextExpected == a.expected % 0x100_0000)
  }

  /** The distances at which 24 bits are enough to tell what happened. */
  predicate Told(distance: int) {
    || -0x80_0000 <= distance < 0x80_0000
    || (distance < -0x80_0000 && 0x80_0000 <= distance % 0x100_0000 < 0x100_0000 - 1)
  }

  lemma ForwardDistance(expected: int, number: int)
    ensures SeqForwardDistance(expected % 0x100_0000, number % 0x100_0000) == (number - expected) % 0x100_0000
  {
  }

  lemma PreviousExpected(expected: int, number: int)
    ensures number % 0x100_0000 == (expected % 0x100_0000 + 0x100_0000 - 1) % 0x100_0000
       <==> (number - expected) % 0x100_0000 == 0x100_0000 - 1
  {
  }

  lemma Unchanged(expected: int, number: int)
    ensures (number + 1) % 0x100_0000 == expected % 0x100_0000 <==> (number - expected) % 0x100_0000 == 0x100_0000 - 1
  {
  }

  lemma Distances(d: int)
    ensures 0 <= d < 0x80_0000 ==> d % 0x100_0000 == d
    ensures -0x80_0000 <= d < 0 ==> d % 0x100_0000 == d + 0x100_0000
  {
  }

  /** One step agrees exactly when the distance from the expected number can be told from 24 bits. */
  lemma StepAgrees(t: Tracker, a: Account, number: int)
    requires Agree(t, a) && a.started
    ensures Agree(ObserveSequence(t, number % 0x100_0000), Observe(a, number)) <==> Told(number - a.expected)
  {
    hide SeqForwardDistance;
    ForwardDistance(a.expected, number);
    PreviousExpected(a.expected, number);
    Unchanged(a.expected, number);
    Distances(number - a.expected);
    AddBoth(number % 0x100_0000, number, 1);
  }

  /** The numbers as they travel, in 24 bits. */
  function Wrapped(numbers: seq<int>): (w: seq<Sequence>)
    ensures |w| == |numbers|
  {
    seq(|numbers|, i requires 0 <= i < |numbers| => numbers[i] % 0x100_0000)
  }

  /** Every number is within half the modulus of the one expected. */
  ghost predicate Near(numbers: seq<int>) {
    forall i | 0 < i < |numbers| :: -0x80_0000 <= numbers[i] - Judge(numbers[..i]).expected < 0x80_0000
  }

  /**
   * On streams that stay near, wrapping around loses nothing: the tracker
   * counts the losses, duplicates and stragglers of the unbounded numbers.
   */
  lemma {:induction false} WraparoundRefines(numbers: seq<int>)
    requires Near(numbers)
    ensures Agree(ObserveAll(START, Wrapped(numbers)), Judge(numbers))
    decreases |numbers|
  {
    hide Told, Near, Agree, Judge, Observe, ObserveAll, ObserveSequence, Wrapped;
    if numbers == [] {
      NothingObserved();
    } else {
      var front, last := numbers[..|numbers| - 1], numbers[|numbers| - 1];
      NearBefore(numbers);
      WraparoundRefines(front);
      LastObserved(numbers);
      var t, a := ObserveAll(START, Wrapped(front)), Judge(front);
      if front == [] {
        FirstAgrees(last);
      } else {
        Started(front);
        NearIsTold(last - a.expected);
        StepAgrees(t, a, last);
      }
    }
  }

  lemma NothingObserved()
    ensures ObserveAll(START, Wrapped([])) == START && Judge([]) == NOTHING && Agree(START, NOTHING)
  {
  }

  lemma LastObserved(numbers: seq<int>)
    requires numbers != []
    ensures var front, last := numbers[..|numbers| - 1], numbers[|numbers| - 1];
            && Judge(numbers) == Observe(Judge(front), last)
            && ObserveAll(START, Wrapped(numbers))
               == ObserveSequence(ObserveAll(START, Wrapped(front)), last % 0x100_0000)
  {
    hide Observe, ObserveSequence;
    assert Wrapped(numbers)[..|numbers| - 1] == Wrapped(numbers[..|numbers| - 1]);
  }

  lemma NearBefore(numbers: seq<int>)
    requires Near(numbers) && numbers != []
    ensures Near(numbers[..|numbers| - 1])
    ensures |numbers| > 1 ==>
              -0x80_0000 <= numbers[|numbers| - 1] - Judge(numbers[..|numbers| - 1]).expected < 0x80_0000
  {
    hide Judge;
    var front := numbers[..|numbers| - 1];
    forall i | 0 < i < |front|
      ensures -0x80_0000 <= front[i] - Judge(front[..i]).expected < 0x80_0000
    {
      assert front[..i] == numbers[..i];
    }
  }

  lemma FirstAgrees(number: int)
    ensures Agree(ObserveSequence(ObserveAll(START, Wrapped([])), number % 0x100_0000), Observe(Judge([]), number))
  {
    hide SeqForwardDistance;
    NothingObserved();
    AddBoth(number % 0x100_0000, number, 1);
  }

  lemma Started(numbers: seq<int>)
    requires numbers != []
    ensures Judge(numbers).started
  {
    hide Observe;
    JudgeMeans(numbers);
  }

  lemma NearIsTold(d: int)
    requires -0x80_0000 <= d < 0x80_0000
    ensures Told(d)
  {
  }
}
