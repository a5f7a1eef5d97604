// The options of interface description blocks (draft-ietf-opsawg-pcapng,
// section 3.5), and the proof that the option walk reads exactly these.

module PcapngOptions {
  import opened Bytes
  import opened Results
  import opened Frames
  import opened Pcapng

  /** An option, padded to four bytes; the last one may lack some of its padding. */
  datatype InterfaceOption = InterfaceOption(code: uint16, value: seq<byte>, padding: seq<byte>)
  {
    predicate Valid() {
      code != 0 && |value| < 0x1_0000 && |value| + |padding| <= PaddedLength(|value|)
    }

    predicate Padded() {
      |value| + |padding| == PaddedLength(|value|)
    }

    function Bytes(order: ByteOrder): (s: seq<byte>)
      requires Valid()
      ensures 4 <= |s|
    {
      Put16(order, code) + Put16(order, |value|) + value + padding
    }
  }

  function OptionsBytes(order: ByteOrder, options: seq<InterfaceOption>): seq<byte>
    requires forall o <- options :: o.Valid()
  {
    if options == [] then [] else options[0].Bytes(order) + OptionsBytes(order, options[1..])
  }

  /** A list of options and what stands behind it. */
  datatype OptionList = OptionList(options: seq<InterfaceOption>, tail: seq<byte>)
  {
    predicate Valid() {
      && (forall o <- options :: o.Valid())
      && (forall i | 0 <= i < |options| :: options[i].Padded() || (i == |options| - 1 && tail == []))
    }

    function Bytes(order: ByteOrder): seq<byte>
      requires Valid()
    {
      OptionsBytes(order, options) + tail
    }
  }

  /** The timestamp resolution behind an option: a one-byte if_tsresol option sets it. */
  function ResolutionBehind(o: InterfaceOption, before: Resolution): Resolution {
    if o.code == 9 && |o.value| == 1 then ResolutionOf(o.value[0]) else before
  }

  /** The last one-byte if_tsresol option counts. */
  function LastResolution(options: seq<InterfaceOption>, default: Resolution): Resolution {
    if options == [] then
      default
    else
      var last := options[|options| - 1];
      if last.code == 9 && |last.value| == 1 then ResolutionOf(last.value[0])
      else LastResolution(options[..|options| - 1], default)
  }

  /** What ends the list of options: nothing more than three bytes, or an end-of-options code. */
  predicate EndsOptions(order: ByteOrder, tail: seq<byte>) {
    |tail| < 4 || Get16(order, tail, 0) == 0
  }

  // ------------------------------------------------------- what is laid out is read

  lemma OptionFieldsLaidOut(order: ByteOrder, o: InterfaceOption, rest: seq<byte>)
    requires o.Valid()
    ensures var s := o.Bytes(order) + rest;
            && 4 + |o.value| <= |s|
            && Get16(order, s, 0) == o.code && Get16(order, s, 2) == |o.value|
            && (|o.value| == 1 ==> s[4] == o.value[0])
            && (o.Padded() || rest == [] ==> s[Min(4 + PaddedLength(|o.value|), |s|)..] == rest)
  {
  }

  lemma OptionRead(order: ByteOrder, o: InterfaceOption, rest: seq<byte>, resolution: Resolution)
    requires o.Valid() && (o.Padded() || rest == [])
    ensures ReadOptions(order, o.Bytes(order) + rest, resolution)
         == ReadOptions(order, rest, ResolutionBehind(o, resolution))
  {
    hide InterfaceOption.Bytes, Get16;
    OptionFieldsLaidOut(order, o, rest);
  }

  lemma OneResolution(o: InterfaceOption, default: Resolution)
    ensures LastResolution([o], default) == ResolutionBehind(o, default)
  {
    assert [o][..0] == [];
  }

  lemma {:induction false} LastResolutionFirst(options: seq<InterfaceOption>, default: Resolution)
    requires options != []
    ensures LastResolution(options, default) == LastResolution(options[1..], LastResolution(options[..1], default))
    decreases |options|
  {
    if |options| == 1 {
      assert options[..1] == options;
    } else {
      var front := options[..|options| - 1];
      LastResolutionFirst(front, default);
      assert front[1..] == options[1..][..|options| - 2] && front[..1] == options[..1];
    }
  }

  lemma NothingRead(order: ByteOrder, tail: seq<byte>, default: Resolution)
    requires EndsOptions(order, tail)
    ensures ReadOptions(order, tail, default) == Ok(default)
  {
  }

  /** The option walk stops at the end of the list and keeps the last timestamp resolution. */
  lemma {:induction false} OptionsRoundTrip(order: ByteOrder, list: OptionList, default: Resolution)
    requires list.Valid() && EndsOptions(order, list.tail)
    ensures ReadOptions(order, list.Bytes(order), default) == Ok(LastResolution(list.options, default))
    decreases |list.options|
  {
    hide InterfaceOption.Bytes, ReadOptions, EndsOptions, InterfaceOption.Valid, InterfaceOption.Padded;
    if list.options == [] {
      assert list.Bytes(order) == list.tail;
      NothingRead(order, list.tail, default);
    } else {
      var o, rest := list.options[0], OptionList(list.options[1..], list.tail);
      ConcatAssociative(o.Bytes(order), OptionsBytes(order, rest.options), list.tail);
      if |list.options| == 1 {
        assert rest.Bytes(order) == list.tail;
      }
      OptionRead(order, o, rest.Bytes(order), default);
      OptionsRoundTrip(order, rest, ResolutionBehind(o, default));
      LastResolutionFirst(list.options, default);
      assert list.options[..1] == [o];
      OneResolution(o, default);
    }
  }

  // ------------------------------------------------------- what is read was laid out

  /** The option at the start of bytes that do not end the list. */
  function FirstOption(order: ByteOrder, rest: seq<byte>): InterfaceOption
    requires 4 <= |rest| && 4 + Get16(order, rest, 2) <= |rest|
  {
    var length := Get16(order, rest, 2);
    InterfaceOption(Get16(order, rest, 0), rest[4..4 + length],
                    rest[4 + length..Min(4 + PaddedLength(length), |rest|)])
  }

  /** The list of options an accepted stretch consists of. */
  function OptionsOf(order: ByteOrder, rest: seq<byte>, resolution: Resolution): OptionList
    requires ReadOptions(order, rest, resolution).Ok?
    decreases |rest|
  {
    if EndsOptions(order, rest) then
      OptionList([], rest)
    else
      var o := FirstOption(order, rest);
      var more := OptionsOf(order, rest[Min(4 + PaddedLength(|o.value|), |rest|)..], ResolutionBehind(o, resolution));
      OptionList([o] + more.options, more.tail)
  }

  lemma Pieces(s: seq<byte>, length: nat, next: nat)
    requires 4 + length <= next <= |s|
    ensures s[0..2] + s[2..4] + s[4..4 + length] + s[4 + length..next] + s[next..] == s
  {
    assert s[0..2] + s[2..4] == s[0..4];
    assert s[0..4] + s[4..4 + length] == s[0..4 + length];
    assert s[0..4 + length] + s[4 + length..next] == s[0..next];
  }

  lemma NumberPieces(order: ByteOrder, s: seq<byte>)
    requires 4 <= |s|
    ensures Put16(order, Get16(order, s, 0)) == s[0..2] && Put16(order, Get16(order, s, 2)) == s[2..4]
  {
    hide Put16, Get16;
    SameBytes16(order, s[0..2], 0, s, 0);
    SameBytes16(order, s[2..4], 0, s, 2);
    Put16Get16(order, s[0..2]);
    Put16Get16(order, s[2..4]);
  }

  lemma FirstTakenApart(order: ByteOrder, rest: seq<byte>)
    requires !EndsOptions(order, rest) && 4 + Get16(order, rest, 2) <= |rest|
    ensures var o := FirstOption(order, rest);
            var next := Min(4 + PaddedLength(|o.value|), |rest|);
            && o.Valid() && o.Bytes(order) + rest[next..] == rest
            && (o.Padded() || next == |rest|)
  {
    hide Put16, Get16, PaddedLength;
    var length := Get16(order, rest, 2);
    NumberPieces(order, rest);
    Pieces(rest, length, Min(4 + PaddedLength(length), |rest|));
  }

  /** Every accepted stretch is a well-formed list of options, with what ends it. */
  lemma {:induction false} OptionsTakenApart(order: ByteOrder, rest: seq<byte>, resolution: Resolution)
    requires ReadOptions(order, rest, resolution).Ok?
    ensures var list := OptionsOf(order, rest, resolution);
            list.Valid() && EndsOptions(order, list.tail) && list.Bytes(order) == rest
    decreases |rest|
  {
    hide InterfaceOption.Bytes, InterfaceOption.Valid, InterfaceOption.Padded;
    if !EndsOptions(order, rest) {
      FirstTakenApart(order, rest);
      var o := FirstOption(order, rest);
      var next := Min(4 + PaddedLength(|o.value|), |rest|);
      OptionsTakenApart(order, rest[next..], ResolutionBehind(o, resolution));
      var more := OptionsOf(order, rest[next..], ResolutionBehind(o, resolution));
      ListExtended(order, o, more);
    }
  }

  lemma ListExtended(order: ByteOrder, o: InterfaceOption, more: OptionList)
    requires more.Valid() && o.Valid() && (o.Padded() || more.Bytes(order) == [])
    ensures var list := OptionList([o] + more.options, more.tail);
            list.Valid() && list.Bytes(order) == o.Bytes(order) + more.Bytes(order)
  {
    hide InterfaceOption.Bytes, InterfaceOption.Valid, InterfaceOption.Padded;
    var list := OptionList([o] + more.options, more.tail);
    assert list.options[1..] == more.options;
    if more.options != [] {
      assert more.options[0].Valid();
    }
    ConcatAssociative(o.Bytes(order), OptionsBytes(order, more.options), more.tail);
  }

  /** The option walk accepts exactly the well-formed lists of options. */
  lemma AcceptedOptions(order: ByteOrder, rest: seq<byte>, default: Resolution)
    ensures ReadOptions(order, rest, default).Ok?
       <==> exists list: OptionList | list.Valid() :: EndsOptions(order, list.tail) && list.Bytes(order) == rest
  {
    hide ReadOptions, EndsOptions, OptionList.Valid, OptionList.Bytes;
    if ReadOptions(order, rest, default).Ok? {
      OptionsTakenApart(order, rest, default);
    }
    forall list: OptionList | list.Valid() && EndsOptions(order, list.tail) && list.Bytes(order) == rest
      ensures ReadOptions(order, rest, default).Ok?
    {
      OptionsRoundTrip(order, list, default);
    }
  }
}
