/** EBML elements as the fixture writer emits them and the cue reader reads them (sections 4 to 6 of RFC 8794). */
module Ebml {
  import opened Bytes

  // ----- big-endian numbers of any width -----

  function Pow256(n: nat): nat { if n == 0 then 1 else 256 * Pow256(n - 1) }

  function Pow128(n: nat): nat { if n == 0 then 1 else 128 * Pow128(n - 1) }

  /** The low `width` bytes of `n`, most significant first. */
  function BigEndian(n: nat, width: nat): (r: bytes)
    ensures |r| == width
  {
    if width == 0 then [] else BigEndian(n / 256, width - 1) + [n % 256]
  }

  /** The fold over bytes both readers use. */
  function Value(d: bytes): nat {
    if d == [] then 0 else Value(d[..|d| - 1]) * 256 + d[|d| - 1] as int
  }

  lemma {:induction false} ValueInverts(n: nat, width: nat)
    requires n < Pow256(width)
    ensures Value(BigEndian(n, width)) == n
  {
    if width > 0 {
      ValueInverts(n / 256, width - 1);
      var d := BigEndian(n, width);
      assert d[..|d| - 1] == BigEndian(n / 256, width - 1);
    }
  }

  lemma {:induction false} ValueFits(d: bytes)
    ensures Value(d) < Pow256(|d|)
  {
    if d != [] {
      ValueFits(d[..|d| - 1]);
    }
  }

  /** The first byte stands for the highest digits. */
  lemma {:induction false} ValueFirst(d: bytes)
    requires d != []
    ensures Value(d) == d[0] as int * Pow256(|d| - 1) + Value(d[1..])
  {
    if |d| == 1 {
      assert d[..0] == [] && d[1..] == [];
    } else {
      var n := |d| - 1;
      ValueFirst(d[..n]);
      assert d[..n][1..] == d[1..][..n - 1];
      var rest := d[1..];
      assert rest[..|rest| - 1] == d[1..][..n - 1] && rest[|rest| - 1] == d[n];
      Distribute(d[0], Pow256(n - 1), Value(d[..n][1..]));
    }
  }

  lemma Distribute(a: int, p: int, b: int)
    ensures (a * p + b) * 256 == a * (256 * p) + b * 256
  {}

  // ----- variable-length integers -----

  /** The marker of a `length`-byte integer in its first byte. */
  function Marker(length: nat): nat
    requires 1 <= length <= 8
  {
    if length == 1 then 128 else if length == 2 then 64 else if length == 3 then 32 else if length == 4 then 16
    else if length == 5 then 8 else if length == 6 then 4 else if length == 7 then 2 else 1
  }

  /** `vint_length`: how many bytes the first byte announces, up to `most`. */
  function VintLength(first: byte, most: nat): Option<nat>
    requires most <= 8
  {
    VintFrom(first, most, 1)
  }

  function VintFrom(first: byte, most: nat, length: nat): Option<nat>
    requires most <= 8 && 1 <= length
    decreases 9 - length
  {
    if length > most then None
    else if first / Marker(length) % 2 == 1 then Some(length)
    else VintFrom(first, most, length + 1)
  }

  method FindVintLength(first: byte, most: nat) returns (r: Option<nat>)
    requires most <= 8
    ensures r == VintLength(first, most)
  {
    var length, mask := 1, 128;
    while length <= most && first / mask % 2 == 0
      invariant 1 <= length <= most + 1 && mask == if length <= 8 then Marker(length) else 0
      invariant VintLength(first, most) == VintFrom(first, most, length)
      decreases most + 1 - length
    {
      mask := mask / 2;
      length := length + 1;
    }
    return if length <= most then Some(length) else None;
  }

  /** The announced length is where the highest bit of the first byte is. */
  lemma VintMeaning(first: byte, most: nat, length: nat)
    requires 1 <= length <= most <= 8
    ensures VintLength(first, most) == Some(length) <==> Marker(length) <= first as int < 2 * Marker(length)
  {
    MarkerHalves();
    VintSearch(first, most, 1, length);
  }

  lemma MarkerHalves()
    ensures forall n | 1 <= n < 8 :: Marker(n) == 2 * Marker(n + 1)
  {
    forall n | 1 <= n < 8 ensures Marker(n) == 2 * Marker(n + 1) {
      assert n == 1 || n == 2 || n == 3 || n == 4 || n == 5 || n == 6 || n == 7;
    }
  }

  lemma {:induction false} VintSearch(first: byte, most: nat, from: nat, length: nat)
    requires 1 <= from <= most <= 8 && 1 <= length <= most
    requires first as int < 2 * Marker(from)
    ensures VintFrom(first, most, from) == Some(length) <==> from <= length && Marker(length) <= first as int < 2 * Marker(length)
    decreases most - from
  {
    MarkerHalves();
    OneBit(first, Marker(from));
    Smaller(from, length);
    if first as int < Marker(from) && from < most {
      VintSearch(first, most, from + 1, length);
    }
  }

  lemma OneBit(first: int, m: int)
    requires 0 <= first < 2 * m && m > 0
    ensures first / m % 2 == 1 <==> first >= m
  {
    if first >= m {
      assert first / m == 1 by { DivOne(first, m); }
    } else {
      assert first / m == 0;
    }
  }

  lemma DivOne(x: int, m: int)
    requires m <= x < 2 * m && m > 0
    ensures x / m == 1
  {
    assert x / m * m + x % m == x;
    var q := x / m;
    if q >= 2 { TimesUp(2, q, m); }
    if q <= 0 { TimesUp(q, 0, m); }
  }

  lemma {:induction false} Smaller(i: nat, j: nat)
    requires 1 <= i <= 8 && 1 <= j <= 8
    ensures i < j ==> 2 * Marker(j) <= Marker(i)
    ensures i > j ==> 2 * Marker(i) <= Marker(j)
  {
    assert i == 1 || i == 2 || i == 3 || i == 4 || i == 5 || i == 6 || i == 7 || i == 8;
    assert j == 1 || j == 2 || j == 3 || j == 4 || j == 5 || j == 6 || j == 7 || j == 8;
  }

  lemma MarkerWeight(length: nat)
    requires 1 <= length <= 8
    ensures Marker(length) * Pow256(length - 1) == Pow128(length)
  {
    assert length == 1 || length == 2 || length == 3 || length == 4 || length == 5 || length == 6 || length == 7 || length == 8;
    assert Pow256(0) == 1 && Pow256(1) == 256 && Pow256(2) == 0x1_0000 && Pow256(3) == 0x100_0000;
    assert Pow256(4) == 0x1_0000_0000 && Pow256(5) == 0x100_0000_0000;
    assert Pow256(6) == 0x1_0000_0000_0000 && Pow256(7) == 0x100_0000_0000_0000;
    assert Pow128(1) == 0x80 && Pow128(2) == 0x4000 && Pow128(3) == 0x20_0000 && Pow128(4) == 0x1000_0000;
    assert Pow128(5) == 0x8_0000_0000 && Pow128(6) == 0x400_0000_0000;
    assert Pow128(7) == 0x2_0000_0000_0000 && Pow128(8) == 0x100_0000_0000_0000;
  }

  /** A number with its marker bit at the top of `length` bytes announces that length in its first byte. */
  lemma FirstByte(d: bytes, length: nat)
    requires 1 <= length <= 8 && |d| == length
    ensures Marker(length) <= d[0] as int < 2 * Marker(length) <==> Pow128(length) <= Value(d) < 2 * Pow128(length)
  {
    ValueFirst(d);
    ValueFits(d[1..]);
    MarkerWeight(length);
    Leading(d[0], Marker(length), Pow256(length - 1), Value(d), Pow128(length));
  }

  lemma Leading(f: int, m: int, p: int, v: int, w: int)
    requires f * p <= v < f * p + p && m * p == w
    ensures m <= f < 2 * m <==> w <= v < 2 * w
  {
    Next(f, p);
    if f < m { TimesUp(f + 1, m, p); } else { TimesUp(m, f, p); }
    if f < 2 * m { TimesUp(f + 1, 2 * m, p); } else { TimesUp(2 * m, f, p); }
    Twice(m, p);
  }

  lemma Twice(m: int, p: int)
    ensures 2 * m * p == 2 * (m * p)
  {}

  lemma Next(f: int, p: int)
    ensures (f + 1) * p == f * p + p
  {}

  lemma TimesUp(a: int, b: int, p: int)
    requires a <= b && p >= 0
    ensures a * p <= b * p
  {}

  // ----- elements -----

  datatype Element = Element(id: nat, offset: nat, dataOffset: nat, size: nat, unknownSize: bool)

  function End(e: Element): nat { e.dataOffset + e.size }

  /** `read_element_at`. */
  function ElementAt(d: bytes, offset: nat): (r: Option<Element>)
    ensures r.Some? ==> offset < r.value.dataOffset <= |d|
  {
    if offset >= |d| then None else
    match VintLength(d[offset], 4)
    case None => None
    case Some(idLength) =>
      VintBound(d[offset], 4);
      if |d| - offset < idLength + 1 then None else
      var sizeOffset := offset + idLength;
      match VintLength(d[sizeOffset], 8)
      case None => None
      case Some(sizeLength) =>
        VintBound(d[sizeOffset], 8);
        if |d| - sizeOffset < sizeLength then None else
        var size := Value([d[sizeOffset] % Marker(sizeLength)] + d[sizeOffset + 1..sizeOffset + sizeLength]);
        Some(Element(Value(d[offset..sizeOffset]), offset, sizeOffset + sizeLength, size, size == Pow128(sizeLength) - 1))
  }

  lemma VintBound(first: byte, most: nat)
    requires most <= 8
    ensures VintLength(first, most).Some? ==> 1 <= VintLength(first, most).value <= most
  {
    VintFromBound(first, most, 1);
  }

  lemma {:induction false} VintFromBound(first: byte, most: nat, length: nat)
    requires most <= 8 && 1 <= length
    ensures VintFrom(first, most, length).Some? ==> length <= VintFrom(first, most, length).value <= most
    decreases 9 - length
  {
    if length <= most && first / Marker(length) % 2 != 1 {
      VintFromBound(first, most, length + 1);
    }
  }

  /** `unsigned`. */
  function Unsigned(d: bytes, e: Element): Option<nat> {
    if e.size == 0 || e.size > 8 || End(e) > |d| then None else Some(Value(d[e.dataOffset..End(e)]))
  }

  // ----- the writer -----

  function ByteLength(n: nat): nat { if n == 0 then 0 else 1 + ByteLength(n / 256) }

  /** The shortest length whose values hold `size` without being the all-ones one. */
  function SizeLength(size: nat, from: nat): nat
    requires size < Pow128(8) - 1 && 1 <= from <= 8
    decreases 8 - from
  {
    if from < 8 && size >= Pow128(from) - 1 then SizeLength(size, from + 1) else from
  }

  function Vint(size: nat): bytes
    requires size < Pow128(8) - 1
  {
    var length := SizeLength(size, 1);
    BigEndian(size + Pow128(length), length)
  }

  method WriteVint(size: nat) returns (r: bytes)
    requires size < Pow128(8) - 1
    ensures r == Vint(size)
  {
    var length := 1;
    while size >= Pow128(length) - 1
      invariant 1 <= length <= 8 && SizeLength(size, 1) == SizeLength(size, length)
      decreases 8 - length
    {
      length := length + 1;
    }
    return BigEndian(size + Pow128(length), length);
  }

  function Written(id: nat, payload: bytes): bytes
    requires |payload| < Pow128(8) - 1
  {
    BigEndian(id, ByteLength(id)) + Vint(|payload|) + payload
  }

  // ----- reading back -----

  /** An identifier of one to four bytes whose first byte announces its own length. */
  predicate ValidId(id: nat) {
    0x80 <= id < 0x100 || 0x4000 <= id < 0x8000 || 0x20_0000 <= id < 0x40_0000 || 0x1000_0000 <= id < 0x2000_0000
  }

  lemma {:induction false} ByteLengthFits(n: nat)
    ensures n < Pow256(ByteLength(n)) && (n > 0 ==> ByteLength(n) > 0 && Pow256(ByteLength(n) - 1) <= n)
  {
    if n > 0 {
      ByteLengthFits(n / 256);
    }
  }

  lemma {:induction false} SizeFits(size: nat, from: nat)
    requires size < Pow128(8) - 1 && 1 <= from <= 8
    ensures from <= SizeLength(size, from) <= 8 && size < Pow128(SizeLength(size, from)) - 1
    decreases 8 - from
  {
    if from < 8 && size >= Pow128(from) - 1 {
      SizeFits(size, from + 1);
    }
  }

  lemma {:induction false} PowersGrow(n: nat)
    ensures 2 * Pow128(n) <= Pow256(n) || n == 0
    ensures Pow128(n) >= 1 && Pow256(n) >= 1
  {
    if n > 0 {
      PowersGrow(n - 1);
    }
  }

  /** The size field reads back, and is never the one that means an unknown size. */
  lemma VintReadsBack(size: nat)
    requires size < Pow128(8) - 1
    ensures var v := Vint(size);
            var n := |v|;
            && 1 <= n <= 8 && VintLength(v[0], 8) == Some(n) && size != Pow128(n) - 1
            && Value([v[0] % Marker(n)] + v[1..]) == size
  {
    var n := SizeLength(size, 1);
    var v := Vint(size);
    SizeFits(size, 1);
    PowersGrow(n);
    hide SizeLength, BigEndian, Pow128, Pow256, VintLength, Value;
    ValueInverts(size + Pow128(n), n);
    FirstByte(v, n);
    VintMeaning(v[0], 8, n);
    WithoutMarker(v, n);
  }

  /** Clearing the marker bit takes its weight away. */
  lemma WithoutMarker(v: bytes, n: nat)
    requires 1 <= n <= 8 && |v| == n && Marker(n) <= v[0] < 2 * Marker(n)
    ensures Value([v[0] % Marker(n)] + v[1..]) == Value(v) - Pow128(n)
  {
    var m: int := Marker(n);
    var low := [v[0] % m] + v[1..];
    ModOne(v[0], m);
    ValueFirst(v);
    ValueFirst(low);
    assert low[1..] == v[1..];
    MarkerWeight(n);
    hide Pow256, Pow128, Marker, Value;
    Minus(v[0], m, Pow256(n - 1));
  }

  lemma ModOne(x: int, m: int)
    requires m <= x < 2 * m && m > 0
    ensures x % m == x - m
  {
    DivOne(x, m);
    assert x == x / m * m + x % m;
  }

  lemma Minus(x: int, m: int, p: int)
    ensures (x - m) * p == x * p - m * p
  {}

  lemma IdLengths(id: nat)
    requires ValidId(id)
    ensures var n := ByteLength(id); 1 <= n <= 4 && Pow128(n) <= id < 2 * Pow128(n)
  {
    assert Pow128(1) == 0x80 && Pow128(2) == 0x4000 && Pow128(3) == 0x20_0000 && Pow128(4) == 0x1000_0000;
    var a, b, c := id / 256, id / 256 / 256, id / 256 / 256 / 256;
    assert ByteLength(id) == 1 + ByteLength(a);
    assert a > 0 ==> ByteLength(a) == 1 + ByteLength(b);
    assert b > 0 ==> ByteLength(b) == 1 + ByteLength(c);
    assert c > 0 ==> ByteLength(c) == 1 + ByteLength(c / 256);
  }

  lemma IdReadsBack(id: nat)
    requires ValidId(id)
    ensures var d := BigEndian(id, ByteLength(id));
            1 <= |d| <= 4 && VintLength(d[0], 4) == Some(|d|) && Value(d) == id
  {
    var n := ByteLength(id);
    var d := BigEndian(id, n);
    IdLengths(id);
    ByteLengthFits(id);
    ValueInverts(id, n);
    FirstByte(d, n);
    VintMeaning(d[0], 4, n);
  }

  /**
   * Every element the writer emits, wherever it stands, is read back: its identifier, its size - never as an unknown
   * one - and its payload.
   */
  lemma ElementReadsBack(front: bytes, id: nat, payload: bytes, rest: bytes)
    requires ValidId(id) && |payload| < Pow128(8) - 1
    ensures var d := front + Written(id, payload) + rest;
            var r := ElementAt(d, |front|);
            && r.Some? && r.value.id == id && r.value.offset == |front| && r.value.size == |payload| && !r.value.unknownSize
            && End(r.value) == |front| + |Written(id, payload)| && d[r.value.dataOffset..End(r.value)] == payload
  {
    hide VintLength, BigEndian, Vint, Value, Pow128, Marker, ValidId;
    var name, size := BigEndian(id, ByteLength(id)), Vint(|payload|);
    IdReadsBack(id);
    VintReadsBack(|payload|);
    var d := front + Written(id, payload) + rest;
    var at, data := |front| + |name|, |front| + |name| + |size|;
    assert d == front + name + size + payload + rest;
    assert d[|front|..at] == name && d[|front|] == name[0];
    assert d[at..data] == size && d[at] == size[0] && d[at + 1..data] == size[1..];
    assert d[data..data + |payload|] == payload;
  }

  /** An identifier that does not announce its own length is read back as another one, or not at all. */
  lemma OtherIdsAreLost(front: bytes, id: nat, payload: bytes, rest: bytes)
    requires !ValidId(id) && |payload| < Pow128(8) - 1
    ensures var r := ElementAt(front + Written(id, payload) + rest, |front|);
            r.Some? ==> r.value.id != id
  {
    hide Vint;
    var name, size := BigEndian(id, ByteLength(id)), Vint(|payload|);
    var d := front + Written(id, payload) + rest;
    assert d == front + name + (size + payload + rest);
    if ElementAt(d, |front|).Some? {
      var n := VintLength(d[|front|], 4).value;
      VintBound(d[|front|], 4);
      ReadId(d, |front|, n);
      var found := d[|front|..|front| + n];
      FirstByte(found, n);
      VintMeaning(found[0], 4, n);
      InOneRange(Value(found), n);
    }
  }

  lemma ReadId(d: bytes, offset: nat, n: nat)
    requires offset < |d| && VintLength(d[offset], 4) == Some(n) && ElementAt(d, offset).Some?
    ensures offset + n <= |d| && n >= 1 && ElementAt(d, offset).value.id == Value(d[offset..offset + n])
  {
    VintBound(d[offset], 4);
  }

  lemma InOneRange(id: nat, n: nat)
    requires 1 <= n <= 4 && Pow128(n) <= id < 2 * Pow128(n)
    ensures ValidId(id)
  {
    assert Pow128(1) == 0x80 && Pow128(2) == 0x4000 && Pow128(3) == 0x20_0000 && Pow128(4) == 0x1000_0000;
  }

  /**
   * A size field of any length, shortest or not, is read as the size it holds, and as unknown exactly when all its value
   * bits are ones (section 6.2 of RFC 8794).
   */
  lemma SizeFieldReads(front: bytes, id: nat, size: nat, n: nat, rest: bytes)
    requires ValidId(id) && 1 <= n <= 8 && size < Pow128(n)
    ensures var name := BigEndian(id, ByteLength(id));
            ElementAt(front + name + BigEndian(Pow128(n) + size, n) + rest, |front|)
            == Some(Element(id, |front|, |front| + |name| + n, size, size == Pow128(n) - 1))
  {
    hide VintLength, BigEndian, Value, Marker, ValidId, Pow128, Pow256;
    var name, field := BigEndian(id, ByteLength(id)), BigEndian(Pow128(n) + size, n);
    IdReadsBack(id);
    PowersGrow(n);
    BigEndianLength(Pow128(n) + size, n);
    ValueInverts(Pow128(n) + size, n);
    FirstByte(field, n);
    VintMeaning(field[0], 8, n);
    WithoutMarker(field, n);
    var d := front + name + field + rest;
    var at, data := |front| + |name|, |front| + |name| + n;
    assert d[|front|..at] == name && d[|front|] == name[0];
    assert d[at..data] == field && d[at] == field[0] && d[at + 1..data] == field[1..];
  }

  lemma BigEndianLength(v: nat, n: nat)
    ensures |BigEndian(v, n)| == n
  {}
}
