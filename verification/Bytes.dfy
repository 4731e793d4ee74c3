/** Machine integers, big-endian fields and byte strings shared by every module. */
module Bytes {

  type byte = x: int | 0 <= x < 0x100
  type u16 = x: int | 0 <= x < 0x1_0000
  type u32 = x: int | 0 <= x < 0x1_0000_0000
  type u64 = x: int | 0 <= x < 0x1_0000_0000_0000_0000

  type bytes = seq<byte>

  const U16_MAX: int := 0xFFFF
  const U32_MAX: int := 0xFFFF_FFFF
  const U64_MAX: int := 0xFFFF_FFFF_FFFF_FFFF
  const I32_MAX: int := 0x7FFF_FFFF

  datatype Option<+T> = None | Some(value: T)

  /** Unchecked `u64` arithmetic of a release build: the value modulo 2^64. */
  function Wrap64(x: int): (r: u64)
    ensures 0 <= x <= U64_MAX ==> r == x
  {
    x % 0x1_0000_0000_0000_0000
  }

  function Min(a: int, b: int): int { if a <= b then a else b }

  function Max(a: int, b: int): int { if a <= b then b else a }

  /** Whether the power of two `mask` is set in `flags`. */
  predicate Bit(flags: u32, mask: int)
    requires mask > 0
  {
    flags / mask % 2 == 1
  }

  function Be16(v: u16): (r: bytes)
    ensures |r| == 2
  {
    [v / 0x100, v % 0x100]
  }

  function Be32(v: u32): (r: bytes)
    ensures |r| == 4
  {
    [v / 0x100_0000, v / 0x1_0000 % 0x100, v / 0x100 % 0x100, v % 0x100]
  }

  function Be64(v: u64): (r: bytes)
    ensures |r| == 8
  {
    Be32(v / 0x1_0000_0000) + Be32(v % 0x1_0000_0000)
  }

  function ReadBe16(d: bytes, at: nat): u16
    requires at + 2 <= |d|
  {
    d[at] as int * 0x100 + d[at + 1] as int
  }

  function ReadBe32(d: bytes, at: nat): u32
    requires at + 4 <= |d|
  {
    d[at] as int * 0x100_0000 + d[at + 1] as int * 0x1_0000 + d[at + 2] as int * 0x100 + d[at + 3] as int
  }

  function ReadBe64(d: bytes, at: nat): u64
    requires at + 8 <= |d|
  {
    ReadBe32(d, at) as int * 0x1_0000_0000 + ReadBe32(d, at + 4) as int
  }

  lemma ReadBe16Inverts(d: bytes, at: nat, v: u16)
    requires at + 2 <= |d|
    requires d[at..at + 2] == Be16(v)
    ensures ReadBe16(d, at) == v
  {
    assert forall k | 0 <= k < 2 :: d[at + k] == d[at..at + 2][k] == Be16(v)[k];
    assert d[at + 0] == v / 0x100 && d[at + 1] == v % 0x100;
  }

  lemma ReadBe32Inverts(d: bytes, at: nat, v: u32)
    requires at + 4 <= |d|
    requires d[at..at + 4] == Be32(v)
    ensures ReadBe32(d, at) == v
  {
    var s := d[at..at + 4];
    assert s[0] == d[at] && s[1] == d[at + 1] && s[2] == d[at + 2] && s[3] == d[at + 3];
    assert s[0] == v / 0x100_0000 && s[1] == v / 0x1_0000 % 0x100;
    assert s[2] == v / 0x100 % 0x100 && s[3] == v % 0x100;
  }

  lemma ReadBe64Inverts(d: bytes, at: nat, v: u64)
    requires at + 8 <= |d|
    requires d[at..at + 8] == Be64(v)
    ensures ReadBe64(d, at) == v
  {
    var s := d[at..at + 8];
    assert d[at..at + 4] == s[..4] == Be32(v / 0x1_0000_0000);
    assert d[at + 4..at + 8] == s[4..] == Be32(v % 0x1_0000_0000);
    ReadBe32Inverts(d, at, v / 0x1_0000_0000);
    ReadBe32Inverts(d, at + 4, v % 0x1_0000_0000);
  }

  /** The concatenation of `parts`, in order. */
  function Flatten<T>(parts: seq<seq<T>>): seq<T> {
    if parts == [] then [] else parts[0] + Flatten(parts[1..])
  }

  lemma {:induction false} FlattenAppend<T>(a: seq<seq<T>>, b: seq<seq<T>>)
    ensures Flatten(a + b) == Flatten(a) + Flatten(b)
  {
    if a == [] {
      assert a + b == b;
    } else {
      assert (a + b)[1..] == a[1..] + b;
      FlattenAppend(a[1..], b);
    }
  }

  lemma SliceOfSlice<T>(s: seq<T>, a: nat, b: nat, i: nat, j: nat)
    requires a <= b <= |s| && i <= j <= b - a
    ensures s[a..b][i..j] == s[a + i..a + j]
  {
    forall k | 0 <= k < j - i
      ensures s[a..b][i..j][k] == s[a + i..a + j][k]
    {
      assert s[a..b][i + k] == s[a + i + k];
    }
  }

  /** Two adjacent slices of the same string join into one. */
  lemma SliceJoin<T>(s: seq<T>, i: nat, j: nat, k: nat)
    requires i <= j <= k <= |s|
    ensures s[i..j] + s[j..k] == s[i..k]
  {}
}
