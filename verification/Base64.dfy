// The standard base64 code: section 4 of RFC 4648, read the way Go's encoding/base64 reads it
// (line breaks are skipped, and the unused low bits of the last symbol may be anything).

module Base64 {
  import opened Bytes
  import opened Results

  type sextet = v: int | 0 <= v < 64

  const PAD: byte := '=' as int

  // --- The alphabet ---

  function Symbol(v: sextet): byte {
    if v < 26 then 'A' as int + v
    else if v < 52 then 'a' as int + (v - 26)
    else if v < 62 then '0' as int + (v - 52)
    else if v == 62 then '+' as int
    else '/' as int
  }

  function SymbolValue(c: byte): Option<sextet> {
    if 'A' as int <= c <= 'Z' as int then Some(c - 'A' as int)
    else if 'a' as int <= c <= 'z' as int then Some(c - 'a' as int + 26)
    else if '0' as int <= c <= '9' as int then Some(c - '0' as int + 52)
    else if c == '+' as int then Some(62)
    else if c == '/' as int then Some(63)
    else None
  }

  predicate LineBreak(c: byte) {
    c == 10 || c == 13
  }

  /** The alphabet of RFC 4648, section 4: A to Z, a to z, 0 to 9, plus and slash, and its padding. */
  lemma SymbolsOfTheStandard(v: sextet)
    ensures Symbol(0) == 65 && Symbol(25) == 90 && Symbol(26) == 97 && Symbol(51) == 122
    ensures Symbol(52) == 48 && Symbol(61) == 57 && Symbol(62) == 43 && Symbol(63) == 47
    ensures v < 63 && v !in {25, 51, 61, 62} ==> Symbol(v + 1) == Symbol(v) + 1
    ensures PAD == 61
  {
  }

  lemma SymbolInvertible(v: sextet)
    ensures SymbolValue(Symbol(v)) == Some(v)
    ensures Symbol(v) != PAD && !LineBreak(Symbol(v))
  {
  }

  lemma ValueInvertible(c: byte)
    ensures SymbolValue(c).Some? ==> Symbol(SymbolValue(c).value) == c
  {
  }

  // --- Groups of three bytes and four symbols ---

  // Three bytes a, b, c are the same 24 bits as four sextets p, q, r, s.

  function TopOf(a: int): sextet
    requires 0 <= a < 0x100
  {
    a / 4
  }

  function Across(a: int, b: int): sextet
    requires 0 <= a < 0x100 && 0 <= b < 0x100
  {
    a % 4 * 16 + b / 16
  }

  function AcrossNext(b: int, c: int): sextet
    requires 0 <= b < 0x100 && 0 <= c < 0x100
  {
    b % 16 * 4 + c / 64
  }

  function BottomOf(c: int): sextet
    requires 0 <= c < 0x100
  {
    c % 64
  }

  function First(p: int, q: int): byte
    requires 0 <= p < 64 && 0 <= q < 64
  {
    p * 4 + q / 16
  }

  function Second(q: int, r: int): byte
    requires 0 <= q < 64 && 0 <= r < 64
  {
    q % 16 * 16 + r / 4
  }

  function Third(r: int, s: int): byte
    requires 0 <= r < 64 && 0 <= s < 64
  {
    r % 4 * 64 + s
  }

  lemma SplitThenJoin(a: byte, b: byte, c: byte)
    ensures First(TopOf(a), Across(a, b)) == a
    ensures Second(Across(a, b), AcrossNext(b, c)) == b
    ensures Third(AcrossNext(b, c), BottomOf(c)) == c
  {
  }

  lemma JoinThenSplit(p: sextet, q: sextet, r: sextet, s: sextet)
    ensures TopOf(First(p, q)) == p
    ensures Across(First(p, q), Second(q, r)) == q
    ensures AcrossNext(Second(q, r), Third(r, s)) == r
    ensures BottomOf(Third(r, s)) == s
    ensures Across(First(p, q), 0) == q <==> q % 16 == 0
    ensures AcrossNext(Second(q, r), 0) == r <==> r % 4 == 0
  {
  }

  function EncodeOne(a: byte): seq<byte> {
    [Symbol(TopOf(a)), Symbol(Across(a, 0)), PAD, PAD]
  }

  function EncodeTwo(a: byte, b: byte): seq<byte> {
    [Symbol(TopOf(a)), Symbol(Across(a, b)), Symbol(AcrossNext(b, 0)), PAD]
  }

  function EncodeThree(a: byte, b: byte, c: byte): seq<byte> {
    [Symbol(TopOf(a)), Symbol(Across(a, b)), Symbol(AcrossNext(b, c)), Symbol(BottomOf(c))]
  }

  function Encode(data: seq<byte>): seq<byte> {
    if |data| == 0 then []
    else if |data| == 1 then EncodeOne(data[0])
    else if |data| == 2 then EncodeTwo(data[0], data[1])
    else EncodeThree(data[0], data[1], data[2]) + Encode(data[3..])
  }

  /** One group of four symbols; a padded group must be the last one. */
  function DecodeGroup(group: seq<byte>, last: bool): Option<seq<byte>>
    requires |group| == 4
  {
    match (SymbolValue(group[0]), SymbolValue(group[1]), SymbolValue(group[2]), SymbolValue(group[3]))
    case (Some(p), Some(q), Some(r), Some(s)) =>
      Some([First(p, q), Second(q, r), Third(r, s)])
    case (Some(p), Some(q), Some(r), None) =>
      if group[3] == PAD && last then Some([First(p, q), Second(q, r)]) else None
    case (Some(p), Some(q), None, None) =>
      if group[2] == PAD && group[3] == PAD && last then Some([First(p, q)]) else None
    case _ => None
  }

  function DecodeGroups(text: seq<byte>): Option<seq<byte>> {
    if |text| == 0 then Some([])
    else if |text| < 4 then None
    else
      match (DecodeGroup(text[..4], |text| == 4), DecodeGroups(text[4..]))
      case (Some(group), Some(rest)) => Some(group + rest)
      case _ => None
  }

  function WithoutLineBreaks(text: seq<byte>): seq<byte> {
    if text == [] then []
    else (if LineBreak(text[0]) then [] else [text[0]]) + WithoutLineBreaks(text[1..])
  }

  function Decode(text: seq<byte>): Option<seq<byte>> {
    DecodeGroups(WithoutLineBreaks(text))
  }

  // --- Decoding inverts encoding ---

  lemma GroupRoundTrip(a: byte, b: byte, c: byte)
    ensures DecodeGroup(EncodeOne(a), true) == Some([a])
    ensures DecodeGroup(EncodeTwo(a, b), true) == Some([a, b])
    ensures DecodeGroup(EncodeThree(a, b, c), true) == Some([a, b, c])
    ensures DecodeGroup(EncodeThree(a, b, c), false) == Some([a, b, c])
  {
    hide Symbol, SymbolValue, TopOf, Across, AcrossNext, BottomOf, First, Second, Third;
    SymbolInvertible(TopOf(a));
    SymbolInvertible(Across(a, 0));
    SymbolInvertible(Across(a, b));
    SymbolInvertible(AcrossNext(b, 0));
    SymbolInvertible(AcrossNext(b, c));
    SymbolInvertible(BottomOf(c));
    SplitThenJoin(a, 0, 0);
    SplitThenJoin(a, b, 0);
    SplitThenJoin(a, b, c);
    PadIsNoSymbol();
  }

  lemma PadIsNoSymbol()
    ensures SymbolValue(PAD) == None
  {
  }

  lemma {:induction false} GroupsRoundTrip(data: seq<byte>)
    ensures |Encode(data)| == (|data| + 2) / 3 * 4
    ensures DecodeGroups(Encode(data)) == Some(data)
  {
    hide DecodeGroup, DecodeGroups, EncodeOne, EncodeTwo, EncodeThree;
    GroupRoundTrip(if |data| > 0 then data[0] else 0, if |data| > 1 then data[1] else 0,
                   if |data| > 2 then data[2] else 0);
    GroupLengths(if |data| > 0 then data[0] else 0, if |data| > 1 then data[1] else 0,
                 if |data| > 2 then data[2] else 0);
    if |data| >= 3 {
      GroupsRoundTrip(data[3..]);
      assert data == [data[0], data[1], data[2]] + data[3..];
      NextGroup(EncodeThree(data[0], data[1], data[2]), Encode(data[3..]));
    } else if |data| == 2 {
      assert data == [data[0], data[1]];
      assert EncodeTwo(data[0], data[1]) + [] == EncodeTwo(data[0], data[1]);
      NextGroup(EncodeTwo(data[0], data[1]), []);
    } else if |data| == 1 {
      assert data == [data[0]];
      assert EncodeOne(data[0]) + [] == EncodeOne(data[0]);
      NextGroup(EncodeOne(data[0]), []);
    } else {
      NoGroup();
    }
  }

  lemma NoGroup()
    ensures DecodeGroups([]) == Some([])
  {
  }

  lemma NextGroup(group: seq<byte>, rest: seq<byte>)
    requires |group| == 4
    ensures rest == [] ==> DecodeGroups(group + rest) == DecodeGroup(group, true)
    ensures DecodeGroup(group, rest == []).Some? && DecodeGroups(rest).Some? ==>
      DecodeGroups(group + rest)
      == Some(DecodeGroup(group, rest == []).value + DecodeGroups(rest).value)
  {
    hide DecodeGroup;
    assert (group + rest)[..4] == group && (group + rest)[4..] == rest;
    if rest == [] && DecodeGroup(group, true).Some? {
      assert DecodeGroup(group, true).value + [] == DecodeGroup(group, true).value;
    }
  }

  lemma GroupLengths(a: byte, b: byte, c: byte)
    ensures |EncodeOne(a)| == |EncodeTwo(a, b)| == |EncodeThree(a, b, c)| == 4
  {
  }

  lemma {:induction false} KeepWithoutLineBreaks(text: seq<byte>)
    requires forall c <- text :: !LineBreak(c)
    ensures WithoutLineBreaks(text) == text
  {
    if text != [] {
      KeepWithoutLineBreaks(text[1..]);
      assert text == [text[0]] + text[1..];
    }
  }

  lemma {:induction false} EncodedSymbols(data: seq<byte>)
    ensures forall c <- Encode(data) :: !LineBreak(c)
  {
    hide Symbol;
    forall v: sextet ensures !LineBreak(Symbol(v)) { SymbolInvertible(v); }
    if |data| >= 3 { EncodedSymbols(data[3..]); }
  }

  lemma DecodeEncode(data: seq<byte>)
    ensures Decode(Encode(data)) == Some(data)
  {
    EncodedSymbols(data);
    KeepWithoutLineBreaks(Encode(data));
    GroupsRoundTrip(data);
  }

  // --- Encoding inverts decoding on canonical text ---

  /** The last symbol before the padding has no stray low bits. */
  predicate CanonicalGroup(group: seq<byte>)
    requires |group| == 4
  {
    match (SymbolValue(group[1]), SymbolValue(group[2]), SymbolValue(group[3]))
    case (Some(q), None, _) => q % 16 == 0
    case (_, Some(r), None) => r % 4 == 0
    case _ => true
  }

  predicate Canonical(text: seq<byte>) {
    |text| >= 4 && |text| % 4 == 0 ==> CanonicalGroup(text[|text| - 4..])
  }

  lemma CanonicalGroupRoundTrip(group: seq<byte>, last: bool)
    requires |group| == 4 && DecodeGroup(group, last).Some?
    ensures var data := DecodeGroup(group, last).value;
            1 <= |data| <= 3 && (|data| < 3 ==> last)
            && (Encode(data) == group <==> CanonicalGroup(group))
  {
    hide Symbol, SymbolValue, TopOf, Across, AcrossNext, BottomOf, First, Second, Third;
    ValueInvertible(group[0]);
    ValueInvertible(group[1]);
    ValueInvertible(group[2]);
    ValueInvertible(group[3]);
    var data := DecodeGroup(group, last).value;
    var p, q := SymbolValue(group[0]).value, SymbolValue(group[1]).value;
    if |data| == 1 {
      JoinThenSplit(p, q, 0, 0);
      SymbolInvertible(Across(data[0], 0));
      assert Encode(data) == [group[0], Symbol(Across(data[0], 0)), PAD, PAD];
    } else if |data| == 2 {
      var r := SymbolValue(group[2]).value;
      JoinThenSplit(p, q, r, 0);
      SymbolInvertible(AcrossNext(data[1], 0));
      assert Encode(data) == [group[0], group[1], Symbol(AcrossNext(data[1], 0)), PAD];
    } else {
      JoinThenSplit(p, q, SymbolValue(group[2]).value, SymbolValue(group[3]).value);
      assert Encode(data) == group + Encode([]);
    }
  }

  lemma EncodeFullGroup(group: seq<byte>, rest: seq<byte>)
    requires |group| == 3
    ensures Encode(group + rest) == Encode(group) + Encode(rest)
    ensures |Encode(group)| == 4
  {
    assert (group + rest)[3..] == rest && group[3..] == [];
    assert Encode(group) == EncodeThree(group[0], group[1], group[2]) + Encode([]);
  }

  lemma FullGroupIsCanonical(group: seq<byte>)
    requires |group| == 4 && DecodeGroup(group, false).Some?
    ensures CanonicalGroup(group)
  {
  }

  lemma CanonicalLater(text: seq<byte>)
    requires |text| > 4
    ensures Canonical(text) == (|text| < 8 || Canonical(text[4..]))
  {
    if |text| >= 8 {
      assert text[4..][|text[4..]| - 4..] == text[|text| - 4..];
    }
  }

  lemma {:induction false} EncodeDecodeGroups(text: seq<byte>)
    requires DecodeGroups(text).Some?
    ensures Encode(DecodeGroups(text).value) == text <==> Canonical(text)
  {
    hide Encode, DecodeGroup, CanonicalGroup, Canonical;
    if |text| >= 4 {
      var head, rest := text[..4], text[4..];
      CanonicalGroupRoundTrip(head, |text| == 4);
      var group := DecodeGroup(head, |text| == 4).value;
      assert text == head + rest;
      if |text| > 4 {
        EncodeDecodeGroups(rest);
        EncodeFullGroup(group, DecodeGroups(rest).value);
        FullGroupIsCanonical(head);
        CanonicalLater(text);
        SamePairs(Encode(group), head, Encode(DecodeGroups(rest).value), rest);
      } else {
        assert rest == [] && head == text;
        assert DecodeGroups(text) == Some(group + []);
        assert group + [] == group;
        CanonicalShort(text);
      }
    } else {
      CanonicalShort(text);
    }
  }

  lemma CanonicalShort(text: seq<byte>)
    requires |text| <= 4
    ensures |text| == 4 ==> Canonical(text) == CanonicalGroup(text)
    ensures |text| == 0 ==> Canonical(text) && Encode([]) == []
  {
    assert |text| == 4 ==> text[0..] == text;
  }

  lemma {:induction false} BreaksDropOut(a: seq<byte>, b: seq<byte>)
    ensures WithoutLineBreaks(a + b) == WithoutLineBreaks(a) + WithoutLineBreaks(b)
  {
    hide LineBreak;
    if a == [] {
      assert a + b == b;
    } else {
      BreaksDropOut(a[1..], b);
      assert (a + b)[1..] == a[1..] + b;
      var first := if LineBreak(a[0]) then [] else [a[0]];
      assert WithoutLineBreaks(a) == first + WithoutLineBreaks(a[1..]);
      ConcatAssociative(first, WithoutLineBreaks(a[1..]), WithoutLineBreaks(b));
    }
  }

  /** A line feed or a carriage return anywhere makes no difference. */
  lemma LineBreaksIgnored(a: seq<byte>, b: seq<byte>)
    ensures Decode(a + [10] + b) == Decode(a + b) && Decode(a + [13] + b) == Decode(a + b)
  {
    hide DecodeGroups;
    forall c: byte | c in {10, 13} ensures WithoutLineBreaks(a + [c] + b) == WithoutLineBreaks(a + b) {
      BreaksDropOut(a + [c], b);
      BreaksDropOut(a, [c]);
      BreaksDropOut(a, b);
      assert [c][1..] == [];
      assert WithoutLineBreaks([c]) == [];
      assert WithoutLineBreaks(a) + [] == WithoutLineBreaks(a);
    }
  }

  lemma {:induction false} GroupsOfSymbols(text: seq<byte>, i: nat)
    requires DecodeGroups(text).Some? && i < |text|
    ensures SymbolValue(text[i]).Some? || text[i] == 61
  {
    hide Symbol, SymbolValue;
    if i >= 4 {
      GroupsOfSymbols(text[4..], i - 4);
    } else {
      GroupOfSymbols(text[..4], |text| == 4, i);
    }
  }

  lemma GroupOfSymbols(group: seq<byte>, last: bool, i: nat)
    requires |group| == 4 && DecodeGroup(group, last).Some? && i < 4
    ensures SymbolValue(group[i]).Some? || group[i] == 61
  {
    hide Symbol, SymbolValue;
  }

  lemma {:induction false} WhatRemains(text: seq<byte>, i: nat)
    requires i < |text| && text[i] != 10 && text[i] != 13
    ensures text[i] in WithoutLineBreaks(text)
  {
    if i > 0 {
      WhatRemains(text[1..], i - 1);
    }
  }

  /** Any other byte that is neither a symbol nor padding makes the text corrupt. */
  lemma OtherBytesCorrupt(text: seq<byte>, i: nat)
    requires i < |text| && SymbolValue(text[i]) == None && text[i] !in {10, 13, 61}
    ensures Decode(text) == None
  {
    WhatRemains(text, i);
    var kept := WithoutLineBreaks(text);
    var j :| 0 <= j < |kept| && kept[j] == text[i];
    if Decode(text).Some? {
      GroupsOfSymbols(kept, j);
    }
  }

  /** Text as the encoder writes it: no line breaks, and no stray bits before the padding. */
  predicate StandardText(text: seq<byte>) {
    WithoutLineBreaks(text) == text && Canonical(text)
  }

  /** Text that decodes is the encoding of what it decodes to exactly when it is in standard form. */
  lemma EncodeDecode(text: seq<byte>)
    requires Decode(text).Some?
    ensures Encode(Decode(text).value) == text <==> StandardText(text)
  {
    hide Encode, DecodeGroups, Canonical;
    var data := Decode(text).value;
    EncodeDecodeGroups(WithoutLineBreaks(text));
    if Encode(data) == text {
      EncodedSymbols(data);
      KeepWithoutLineBreaks(text);
    }
  }

  /** "f", "fo" and "foo" of RFC 4648, section 10: "Zg==", "Zm8=" and "Zm9v". */
  lemma StandardExamples()
    ensures Encode([102]) == [90, 103, 61, 61]
    ensures Encode([102, 111]) == [90, 109, 56, 61]
    ensures Encode([102, 111, 111]) == [90, 109, 57, 118]
  {
    assert Encode([102, 111, 111]) == EncodeThree(102, 111, 111) + Encode([]);
  }
}
