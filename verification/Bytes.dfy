// Bytes, and the fixed-width integers the wire formats are made of.

module Bytes {

  type byte = b: int | 0 <= b < 0x100

  type uint16 = x: int | 0 <= x < 0x1_0000

  type uint32 = x: int | 0 <= x < 0x1_0000_0000

  type uint64 = x: int | 0 <= x < 0x1_0000_0000_0000_0000

  /** The two values of Go's binary.ByteOrder. */
  datatype ByteOrder = LittleEndian | BigEndian

  function Min(a: int, b: int): int {
    if a < b then a else b
  }

  /** Cutting a suffix off commutes with taking a later part. */
  lemma CutThenDrop<T>(s: seq<T>, n: nat, k: nat)
    requires k <= n <= |s|
    ensures s[..n][k..] == s[k..][..n - k] == s[k..n]
  {
  }

  lemma CutThenSlice<T>(s: seq<T>, n: nat, i: nat, j: nat)
    requires i <= j <= n <= |s|
    ensures s[..n][i..j] == s[i..j]
  {
  }

  lemma ConcatAssociative<T>(a: seq<T>, b: seq<T>, c: seq<T>)
    ensures a + b + c == a + (b + c)
  {
  }

  lemma SamePairs<T>(a: seq<T>, b: seq<T>, x: seq<T>, y: seq<T>)
    requires |a| == |b|
    ensures a + x == b + y <==> a == b && x == y
  {
    assert (a + x)[..|a|] == a && (a + x)[|a|..] == x;
    assert (b + y)[..|b|] == b && (b + y)[|b|..] == y;
  }

  lemma SliceOfSlice<T>(s: seq<T>, from: nat, to: nat, i: nat, j: nat)
    requires from <= to <= |s| && i <= j <= to - from
    ensures s[from..to][i..j] == s[from + i..from + j]
  {
    CutThenDrop(s, to, from);
    CutThenSlice(s[from..], to - from, i, j);
    assert s[from..][i..j] == s[from + i..from + j];
  }

  /** The 16-bit number at index i of s. */
  function Get16(order: ByteOrder, s: seq<byte>, i: nat): uint16
    requires i + 2 <= |s|
  {
    var first: int, second: int := s[i], s[i + 1];
    match order
    case LittleEndian => first + 0x100 * second
    case BigEndian => 0x100 * first + second
  }

  /** The 32-bit number at index i of s. */
  function Get32(order: ByteOrder, s: seq<byte>, i: nat): uint32
    requires i + 4 <= |s|
  {
    var first: int, second: int := Get16(order, s, i), Get16(order, s, i + 2);
    match order
    case LittleEndian => first + 0x1_0000 * second
    case BigEndian => 0x1_0000 * first + second
  }

  /** The big-endian 64-bit number at index i of s. */
  function Get64(s: seq<byte>, i: nat): uint64
    requires i + 8 <= |s|
  {
    var high: int, low: int := Get32(BigEndian, s, i), Get32(BigEndian, s, i + 4);
    0x1_0000_0000 * high + low
  }

  /** The order of the bytes, least significant first or last. */
  lemma ByteOrders(s: seq<byte>, i: nat)
    requires i + 4 <= |s|
    ensures var a: int, b: int, c: int, d: int := s[i], s[i + 1], s[i + 2], s[i + 3];
            && Get16(LittleEndian, s, i) == a + 0x100 * b
            && Get16(BigEndian, s, i) == 0x100 * a + b
            && Get32(LittleEndian, s, i) == a + 0x100 * b + 0x1_0000 * c + 0x100_0000 * d
            && Get32(BigEndian, s, i) == 0x100_0000 * a + 0x1_0000 * b + 0x100 * c + d
  {
  }

  function Put16(order: ByteOrder, x: uint16): (s: seq<byte>)
    ensures |s| == 2
    ensures Get16(order, s, 0) == x
  {
    match order
    case LittleEndian => [x % 0x100, x / 0x100]
    case BigEndian => [x / 0x100, x % 0x100]
  }

  function Put32(order: ByteOrder, x: uint32): (s: seq<byte>)
    ensures |s| == 4
    ensures Get32(order, s, 0) == x
  {
    var low, high := Put16(order, x % 0x1_0000), Put16(order, x / 0x1_0000);
    match order
    case LittleEndian => low + high
    case BigEndian => high + low
  }

  function Put64(x: uint64): (s: seq<byte>)
    ensures |s| == 8
    ensures Get64(s, 0) == x
  {
    var high, low := Put32(BigEndian, x / 0x1_0000_0000), Put32(BigEndian, x % 0x1_0000_0000);
    var s := high + low;
    SameBytes32(BigEndian, s, 0, high, 0);
    SameBytes32(BigEndian, s, 4, low, 0);
    s
  }

  /** A number depends on its own bytes only. */
  lemma SameBytes32(order: ByteOrder, s: seq<byte>, i: nat, t: seq<byte>, j: nat)
    requires i + 4 <= |s| && j + 4 <= |t|
    requires s[i..i + 4] == t[j..j + 4]
    ensures Get32(order, s, i) == Get32(order, t, j)
  {
    var u, v := s[i..i + 4], t[j..j + 4];
    assert s[i] == u[0] && s[i + 1] == u[1] && s[i + 2] == u[2] && s[i + 3] == u[3];
    assert t[j] == v[0] && t[j + 1] == v[1] && t[j + 2] == v[2] && t[j + 3] == v[3];
  }

  lemma SameBytes16(order: ByteOrder, s: seq<byte>, i: nat, t: seq<byte>, j: nat)
    requires i + 2 <= |s| && j + 2 <= |t|
    requires s[i..i + 2] == t[j..j + 2]
    ensures Get16(order, s, i) == Get16(order, t, j)
  {
    assert s[i] == s[i..i + 2][0] && s[i + 1] == s[i..i + 2][1];
    assert t[j] == t[j..j + 2][0] && t[j + 1] == t[j..j + 2][1];
  }

  /** Every two bytes are the encoding of the number they denote. */
  lemma Put16Get16(order: ByteOrder, s: seq<byte>)
    requires |s| == 2
    ensures Put16(order, Get16(order, s, 0)) == s
  {
  }

  lemma SplitWord(low: int, high: int)
    requires 0 <= low < 0x1_0000 && 0 <= high < 0x1_0000
    ensures (low + 0x1_0000 * high) % 0x1_0000 == low && (low + 0x1_0000 * high) / 0x1_0000 == high
  {
  }

  /** Every four bytes are the encoding of the number they denote. */
  lemma Put32Get32(order: ByteOrder, s: seq<byte>)
    requires |s| == 4
    ensures Put32(order, Get32(order, s, 0)) == s
  {
    hide Get16, Put16;
    var first: int, second: int := Get16(order, s, 0), Get16(order, s, 2);
    SameBytes16(order, s[..2], 0, s, 0);
    SameBytes16(order, s[2..], 0, s, 2);
    Put16Get16(order, s[..2]);
    Put16Get16(order, s[2..]);
    assert s == s[..2] + s[2..];
    match order
    case LittleEndian => SplitWord(first, second);
    case BigEndian => SplitWord(second, first);
  }
}
