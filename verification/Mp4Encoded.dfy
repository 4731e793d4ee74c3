/**
 * Fragments written in any of the forms the standard allows (sections 8.8.7 and 8.8.8 of ISO/IEC 14496-12): every
 * optional field may be there or left to a default, and the parser gives back exactly what was meant.
 */
module Mp4Encoded {
  import opened Bytes
  import opened Mp4Types
  import opened Mp4Parse
  import opened Mp4Write
  import opened Mp4Boxes

  // ----- boxes found again -----

  lemma HeadFound(d: bytes, at: nat, b: TopBox)
    requires Sized(b) && at + HeadSize(b) <= |d| && d[at..at + HeadSize(b)] == BoxHead(b)
    ensures ReadBe32(d, at) == if b.long then 1 else 8 + |b.body|
    ensures ReadBe32(d, at + 4) == b.kind
    ensures b.long ==> ReadBe64(d, at + 8) == 16 + |b.body|
  {
    hide Be32, Be64, ReadBe32, ReadBe64;
    var h := d[at..at + HeadSize(b)];
    SliceOfSlice(d, at, at + HeadSize(b), 0, 4);
    SliceOfSlice(d, at, at + HeadSize(b), 4, 8);
    var size: u32 := if b.long then 1 else 8 + |b.body|;
    assert h[0..4] == Be32(size) && h[4..8] == Be32(b.kind);
    ReadBe32Inverts(d, at, size);
    ReadBe32Inverts(d, at + 4, b.kind);
    if b.long {
      SliceOfSlice(d, at, at + 16, 8, 16);
      assert h[8..16] == Be64(16 + |b.body|);
      ReadBe64Inverts(d, at + 8, 16 + |b.body|);
    }
  }

  /** A box of any size and either header is found where it stands. */
  lemma BoxFound(d: bytes, at: nat, b: TopBox)
    requires Sized(b) && |BoxBytes(b)| <= I32_MAX && at + |BoxBytes(b)| <= |d| && d[at..at + |BoxBytes(b)|] == BoxBytes(b)
    ensures TryReadBox(d, at) == Some(BoxRef(b.kind, HeadSize(b), BoxBytes(b), at + |BoxBytes(b)|))
  {
    hide BoxHead, ReadBe32, ReadBe64;
    assert d[at..at + HeadSize(b)] == d[at..at + |BoxBytes(b)|][..HeadSize(b)] == BoxHead(b);
    HeadFound(d, at, b);
  }

  /** A word of the body, wherever the header ends. */
  lemma WordReads(b: TopBox, k: nat, v: u32)
    requires k + 4 <= |b.body| && b.body[k..k + 4] == Be32(v)
    ensures ReadBe32(BoxBytes(b), HeadSize(b) + k) == v
  {
    hide BoxHead, Be32, ReadBe32;
    var d, at := BoxBytes(b), HeadSize(b) + k;
    assert d[at..at + 4] == b.body[k..k + 4];
    ReadBe32Inverts(d, at, v);
  }

  // ----- trun -----

  /** The samples of a run, and which of their fields are written. */
  datatype TrunForm = TrunForm(
    samples: seq<Sample>, version: byte, dataOffset: Option<int>, hasFirstFlags: bool,
    hasDuration: bool, hasSize: bool, hasFlags: bool, hasOffsets: bool)

  function Optional(present: bool, v: u32): (r: bytes)
    ensures |r| == Word(present)
  {
    if present then Be32(v) else []
  }

  function LayoutOf(e: TrunForm): TrunLayout {
    TrunLayout(e.hasDuration, e.hasSize, e.hasFlags, e.hasOffsets,
               if e.hasFirstFlags && e.samples != [] then Some(e.samples[0].flags) else None)
  }

  function EntryBytes(s: Sample, e: TrunForm): (r: bytes)
    ensures |r| == EntrySize(LayoutOf(e))
  {
    Optional(e.hasDuration, s.duration) + Optional(e.hasSize, s.size) + Optional(e.hasFlags, s.flags) + Optional(e.hasOffsets, s.offset)
  }

  function EntriesBytes(ss: seq<Sample>, e: TrunForm): (r: bytes)
    ensures |r| == EntriesSize(|ss|, LayoutOf(e))
  {
    if ss == [] then [] else EntriesBytes(ss[..|ss| - 1], e) + EntryBytes(ss[|ss| - 1], e)
  }

  function Flag(present: bool, weight: nat): nat { if present then weight else 0 }

  function TrunFlagsOf(e: TrunForm): u32 {
    Flag(e.dataOffset.Some?, 1) + Flag(e.hasFirstFlags, 4) + Flag(e.hasDuration, 0x100) + Flag(e.hasSize, 0x200)
    + Flag(e.hasFlags, 0x400) + Flag(e.hasOffsets, 0x800)
  }

  function TrunBody(e: TrunForm): bytes
    requires e.version <= 1 && 0 < |e.samples| <= U32_MAX
  {
    Be32(e.version * 0x100_0000 + TrunFlagsOf(e)) + Be32(|e.samples|)
    + Optional(e.dataOffset.Some?, AsU32(if e.dataOffset.Some? then e.dataOffset.value else 0))
    + Optional(e.hasFirstFlags, e.samples[0].flags)
    + EntriesBytes(e.samples, e)
  }

  /** What is not written agrees with the defaults; the flags of the first sample may be written alone. */
  predicate Agrees(e: TrunForm, t: TrunDefaults) {
    && (e.hasDuration || (t.duration != 0 && forall s | s in e.samples :: s.duration == t.duration))
    && (e.hasSize || (t.size != 0 && forall s | s in e.samples :: s.size == t.size))
    && (e.hasFlags || forall i | (if e.hasFirstFlags then 1 else 0) <= i < |e.samples| :: e.samples[i].flags == t.flags)
    && (e.hasOffsets || forall s | s in e.samples :: s.offset == 0)
  }

  predicate TrunFormOk(e: TrunForm) {
    && 0 < |e.samples| <= MAX_TRUN_SAMPLES && e.version <= 1 && !(e.hasFirstFlags && e.hasFlags)
    && (e.dataOffset.Some? ==> FitsI32(e.dataOffset.value))
    && SumDurations(e.samples) != 0 && SumSizes(e.samples) != 0
  }

  /** The run that is meant. */
  function MeantRun(e: TrunForm, t: TrunDefaults): Run
    requires e.samples != []
  {
    Run(e.dataOffset, e.samples, e.version, e.hasOffsets, SumDurations(e.samples), SumSizes(e.samples), 0, 0,
        IsSyncSample(e.samples[0].flags), !e.hasDuration && t.durationIsHint)
  }

  lemma FlagBits(a: int, b: int, c: int, d: int, e: int, f: int, w: int)
    requires w == a + 4 * b + 0x100 * c + 0x200 * d + 0x400 * e + 0x800 * f
    requires 0 <= a <= 1 && 0 <= b <= 1 && 0 <= c <= 1 && 0 <= d <= 1 && 0 <= e <= 1 && 0 <= f <= 1
    ensures 0 <= w < 0x1000 && w / 8 % 0x20 == 0 && w / 2 % 2 == 0 && w / 1 % 2 == a && w / 4 % 2 == b
    ensures w / 0x100 % 2 == c && w / 0x200 % 2 == d && w / 0x400 % 2 == e && w / 0x800 % 2 == f
  {
    var high := c + 2 * d + 4 * e + 8 * f;
    assert w == a + 4 * b + 0x100 * high;
    assert w / 2 == 2 * (b + 0x40 * high) && w / 4 == b + 0x40 * high && w / 8 == 0x20 * high && w / 0x100 == high;
    assert w / 0x200 == d + 2 * e + 4 * f && w / 0x400 == e + 2 * f && w / 0x800 == f;
    assert w % 2 == a;
  }

  lemma TrunBits(e: TrunForm)
    ensures var w := TrunFlagsOf(e);
            && w < 0x1000 && TrunFlagsKnown(w)
            && Bit(w, 1) == e.dataOffset.Some? && Bit(w, 4) == e.hasFirstFlags && Bit(w, 0x100) == e.hasDuration
            && Bit(w, 0x200) == e.hasSize && Bit(w, 0x400) == e.hasFlags && Bit(w, 0x800) == e.hasOffsets
  {
    hide Bit, TrunFlagsOf, TrunFlagsKnown;
    var a, b, c := Flag(e.dataOffset.Some?, 1), Flag(e.hasFirstFlags, 1), Flag(e.hasDuration, 1);
    var d, f, g := Flag(e.hasSize, 1), Flag(e.hasFlags, 1), Flag(e.hasOffsets, 1);
    var w := TrunFlagsOf(e);
    FlagsAdd(e);
    FlagBits(a, b, c, d, f, g, w);
    BitIs(w, 1, a);
    BitIs(w, 2, 0);
    BitIs(w, 4, b);
    BitIs(w, 0x100, c);
    BitIs(w, 0x200, d);
    BitIs(w, 0x400, f);
    BitIs(w, 0x800, g);
    FlagsAreKnown(w);
  }

  lemma FlagsAreKnown(w: u32)
    requires w < 0x1000 && !Bit(w, 2) && w / 8 % 0x20 == 0
    ensures TrunFlagsKnown(w)
  {}

  lemma BitIs(w: u32, weight: int, bit: int)
    requires weight > 0 && w / weight % 2 == bit
    ensures Bit(w, weight) == (bit == 1)
  {}

  lemma FlagsAdd(e: TrunForm)
    ensures TrunFlagsOf(e)
         == Flag(e.dataOffset.Some?, 1) + 4 * Flag(e.hasFirstFlags, 1) + 0x100 * Flag(e.hasDuration, 1)
                  + 0x200 * Flag(e.hasSize, 1) + 0x400 * Flag(e.hasFlags, 1) + 0x800 * Flag(e.hasOffsets, 1)
  {}

  lemma SignedWord(v: int)
    requires FitsI32(v)
    ensures AsI32(AsU32(v)) == v
  {}

  /** Where the parts of a `trun` body stand. */
  lemma TrunParts(e: TrunForm)
    requires TrunFormOk(e)
    ensures var d, at := TrunBody(e), 8 + Word(e.dataOffset.Some?);
            && |d| == at + Word(e.hasFirstFlags) + EntriesSize(|e.samples|, LayoutOf(e))
            && d[0..4] == Be32(e.version * 0x100_0000 + TrunFlagsOf(e)) && d[4..8] == Be32(|e.samples|)
            && (e.dataOffset.Some? ==> d[8..12] == Be32(AsU32(e.dataOffset.value)))
            && (e.hasFirstFlags ==> d[at..at + 4] == Be32(e.samples[0].flags))
            && d[at + Word(e.hasFirstFlags)..] == EntriesBytes(e.samples, e)
  {
    hide Be32, TrunFlagsOf, AsU32, EntriesBytes, EntriesSize, SumDurations, SumSizes;
    var offset := Optional(e.dataOffset.Some?, AsU32(if e.dataOffset.Some? then e.dataOffset.value else 0));
    var first := Optional(e.hasFirstFlags, e.samples[0].flags);
    EntriesLength(e);
    TrunBits(e);
    PartsStand(Be32(e.version * 0x100_0000 + TrunFlagsOf(e)), Be32(|e.samples|), offset, first, EntriesBytes(e.samples, e));
  }

  lemma EntriesLength(e: TrunForm)
    ensures |EntriesBytes(e.samples, e)| == EntriesSize(|e.samples|, LayoutOf(e))
    ensures forall v :: |Be32(v)| == 4
  {
    hide EntriesSize;
  }

  lemma PartsStand(a: bytes, b: bytes, c: bytes, d: bytes, f: bytes)
    requires |a| == 4 && |b| == 4
    ensures var s := a + b + c + d + f;
            && |s| == 8 + |c| + |d| + |f| && s[0..4] == a && s[4..8] == b && s[8..8 + |c|] == c
            && s[8 + |c|..8 + |c| + |d|] == d && s[8 + |c| + |d|..] == f
  {}

  lemma TrunHeadReads(e: TrunForm, long: bool, t: TrunDefaults)
    requires TrunFormOk(e) && Agrees(e, t)
    ensures var b := TopBox(TRUN, long, TrunBody(e));
            ReadTrunHead(BoxBytes(b), HeadSize(b), t)
            == Ok(TrunHead(e.version, |e.samples|, e.dataOffset, LayoutOf(e),
                           HeadSize(b) + 8 + Word(e.dataOffset.Some?) + Word(e.hasFirstFlags)))
  {
    hide Be32, ReadBe32, TrunFlagsOf, EntriesBytes, EntriesSize, SumDurations, SumSizes, TrunFlagsKnown, BoxHead, TrunBody, AsU32, AsI32;
    var b := TopBox(TRUN, long, TrunBody(e));
    TrunParts(e);
    TrunBits(e);
    BoxLength(b);
    var word: u32 := e.version * 0x100_0000 + TrunFlagsOf(e);
    assert word % 0x100_0000 == TrunFlagsOf(e) && word / 0x100_0000 == e.version;
    WordReads(b, 0, word);
    WordReads(b, 4, |e.samples|);
    if e.dataOffset.Some? {
      WordReads(b, 8, AsU32(e.dataOffset.value));
      SignedWord(e.dataOffset.value);
    }
    if e.hasFirstFlags { WordReads(b, 8 + Word(e.dataOffset.Some?), e.samples[0].flags); }
  }

  lemma BoxLength(b: TopBox)
    ensures |BoxBytes(b)| == HeadSize(b) + |b.body|
  {}

  /** One entry, its missing fields filled in. */
  lemma EntryReads(d: bytes, at: nat, e: TrunForm, i: nat, t: TrunDefaults)
    requires TrunFormOk(e) && Agrees(e, t) && i < |e.samples|
    requires at + EntrySize(LayoutOf(e)) <= |d| && d[at..at + EntrySize(LayoutOf(e))] == EntryBytes(e.samples[i], e)
    ensures SampleAt(d, at, i == 0, t, LayoutOf(e)) == e.samples[i]
  {
    hide Be32, ReadBe32, SumDurations, SumSizes;
    var s := e.samples[i];
    assert s in e.samples;
    var a, b, c, f := Word(e.hasDuration), Word(e.hasSize), Word(e.hasFlags), Word(e.hasOffsets);
    var x := d[at..at + EntrySize(LayoutOf(e))];
    FourStand(Optional(e.hasDuration, s.duration), Optional(e.hasSize, s.size), Optional(e.hasFlags, s.flags), Optional(e.hasOffsets, s.offset));
    SliceOfSlice(d, at, at + |x|, 0, a);
    SliceOfSlice(d, at, at + |x|, a, a + b);
    SliceOfSlice(d, at, at + |x|, a + b, a + b + c);
    SliceOfSlice(d, at, at + |x|, a + b + c, a + b + c + f);
    if e.hasDuration { ReadBe32Inverts(d, at, s.duration); }
    if e.hasSize { ReadBe32Inverts(d, at + a, s.size); }
    if e.hasFlags { ReadBe32Inverts(d, at + a + b, s.flags); }
    if e.hasOffsets { ReadBe32Inverts(d, at + a + b + c, s.offset); }
  }

  lemma FourStand(a: bytes, b: bytes, c: bytes, d: bytes)
    ensures var s := a + b + c + d;
            && |s| == |a| + |b| + |c| + |d| && s[0..|a|] == a && s[|a|..|a| + |b|] == b
            && s[|a| + |b|..|a| + |b| + |c|] == c && s[|a| + |b| + |c|..|a| + |b| + |c| + |d|] == d
  {}

  lemma {:induction false} EntriesRead(d: bytes, at: nat, e: TrunForm, ss: seq<Sample>, end: nat, t: TrunDefaults)
    requires TrunFormOk(e) && Agrees(e, t) && ss <= e.samples && end == at + EntriesSize(|ss|, LayoutOf(e))
    requires end <= |d| && d[at..end] == EntriesBytes(ss, e)
    ensures ReadSamples(d, at, |ss|, t, LayoutOf(e)) == ss
    decreases |ss|
  {
    hide SampleAt, EntryBytes, TrunFormOk, Agrees, EntrySize, LayoutOf;
    if ss != [] {
      var n := |ss| - 1;
      var front := ss[..n];
      var mid := at + EntriesSize(n, LayoutOf(e));
      EntryLength(ss[n], e);
      FrontBack(d, at, mid, end, EntriesBytes(front, e), EntryBytes(ss[n], e));
      EntriesRead(d, at, e, front, mid, t);
      EntryReads(d, mid, e, n, t);
    }
  }

  lemma EntryLength(s: Sample, e: TrunForm)
    ensures |EntryBytes(s, e)| == EntrySize(LayoutOf(e))
  {}

  lemma FrontBack(d: bytes, at: nat, mid: nat, end: nat, a: bytes, b: bytes)
    requires at <= mid <= end <= |d| && |a| == mid - at && d[at..end] == a + b
    ensures d[at..mid] == a && d[mid..end] == b
  {
    assert d[at..mid] == d[at..end][..mid - at];
    assert d[mid..end] == d[at..end][mid - at..];
  }

  /**
   * A `trun` with any of its optional fields left to the defaults it agrees with gives back exactly its samples, its data
   * offset and whether it starts in sync.
   */
  lemma TrunMeans(e: TrunForm, long: bool, t: TrunDefaults)
    requires TrunFormOk(e) && Agrees(e, t)
    ensures var b := TopBox(TRUN, long, TrunBody(e)); NormalizedTrun(BoxBytes(b), HeadSize(b), t) == Ok(MeantRun(e, t))
  {
    hide ReadTrunHead, Agrees, SumDurations, SumSizes, EntriesSize, EntriesBytes, BoxHead, IsSyncSample, TrunBody, LayoutOf;
    var b := TopBox(TRUN, long, TrunBody(e));
    var d := BoxBytes(b);
    TrunHeadReads(e, long, t);
    TrunParts(e);
    BoxLength(b);
    var at := HeadSize(b) + 8 + Word(e.dataOffset.Some?) + Word(e.hasFirstFlags);
    var n := |e.samples|;
    assert e.samples[..n] == e.samples;
    BodyTail(b, at - HeadSize(b));
    assert d[at..] == EntriesBytes(e.samples, e);
    EntriesLength(e);
    assert at + EntriesSize(n, LayoutOf(e)) == |d|;
    assert d[at..at + EntriesSize(n, LayoutOf(e))] == d[at..];
    EntriesRead(d, at, e, e.samples, |d|, t);
    LayoutFields(e);
  }

  lemma BodyTail(b: TopBox, k: nat)
    requires k <= |b.body|
    ensures BoxBytes(b)[HeadSize(b) + k..] == b.body[k..]
  {
    hide BoxHead;
  }

  lemma LayoutFields(e: TrunForm)
    ensures LayoutOf(e).hasOffsets == e.hasOffsets && LayoutOf(e).hasDuration == e.hasDuration
  {}

  // ----- tfhd and tfdt -----

  /** The fields of a `tfhd`, each of which may be absent. */
  datatype TfhdForm = TfhdForm(
    trackId: u32, description: Option<u32>, duration: Option<u32>, size: Option<u32>, flags: Option<u32>, fromMoof: bool)

  function OptionalField32(v: Option<u32>): (r: bytes)
    ensures |r| == Word(v.Some?)
  {
    if v.Some? then Be32(v.value) else []
  }

  function TfhdFlagsOf(e: TfhdForm): u32 {
    Flag(e.description.Some?, 2) + Flag(e.duration.Some?, 8) + Flag(e.size.Some?, 0x10) + Flag(e.flags.Some?, 0x20)
    + Flag(e.fromMoof, 0x2_0000)
  }

  function TfhdBody(e: TfhdForm): bytes {
    Be32(TfhdFlagsOf(e)) + Be32(e.trackId) + OptionalField32(e.description) + OptionalField32(e.duration)
    + OptionalField32(e.size) + OptionalField32(e.flags)
  }

  predicate TfhdFormOk(e: TfhdForm) { e.trackId != 0 && e.description != Some(0) }

  lemma TfhdBits(e: TfhdForm)
    ensures var w := TfhdFlagsOf(e);
            && w < 0x100_0000 && TfhdFlagsKnown(w) && !Bit(w, 1) && !Bit(w, 0x1_0000)
            && Bit(w, 2) == e.description.Some? && Bit(w, 8) == e.duration.Some? && Bit(w, 0x10) == e.size.Some?
            && Bit(w, 0x20) == e.flags.Some?
  {
    var a, b, c := Flag(e.description.Some?, 1), Flag(e.duration.Some?, 1), Flag(e.size.Some?, 1);
    var d, f := Flag(e.flags.Some?, 1), Flag(e.fromMoof, 1);
    TfhdFlagBits(a, b, c, d, f);
    TfhdFlagsAdd(e);
    hide TfhdFlagsKnown, TfhdFlagsOf;
    assert TfhdFlagsOf(e) / 1 == TfhdFlagsOf(e);
  }

  lemma TfhdFlagBits(a: int, b: int, c: int, d: int, f: int)
    requires 0 <= a <= 1 && 0 <= b <= 1 && 0 <= c <= 1 && 0 <= d <= 1 && 0 <= f <= 1
    ensures var w := 2 * a + 8 * b + 0x10 * c + 0x20 * d + 0x2_0000 * f;
            && 0 <= w < 0x4_0000 && TfhdFlagsKnown(w) && w % 2 == 0 && w / 0x1_0000 % 2 == 0
            && w / 2 % 2 == a && w / 8 % 2 == b && w / 0x10 % 2 == c && w / 0x20 % 2 == d
  {}

  lemma TfhdFlagsAdd(e: TfhdForm)
    ensures TfhdFlagsOf(e)
         == 2 * Flag(e.description.Some?, 1) + 8 * Flag(e.duration.Some?, 1) + 0x10 * Flag(e.size.Some?, 1)
            + 0x20 * Flag(e.flags.Some?, 1) + 0x2_0000 * Flag(e.fromMoof, 1)
  {}

  lemma SixStand(a: bytes, b: bytes, c: bytes, d: bytes, e: bytes, f: bytes)
    requires |a| == 4 && |b| == 4
    ensures var s := a + b + c + d + e + f;
            var i, j, k := 8 + |c|, 8 + |c| + |d|, 8 + |c| + |d| + |e|;
            && |s| == k + |f| && s[0..4] == a && s[4..8] == b && s[8..i] == c && s[i..j] == d && s[j..k] == e && s[k..] == f
  {}

  /** One optional field of a `tfhd`. */
  lemma FieldReads(b: TopBox, k: nat, v: Option<u32>)
    requires k + Word(v.Some?) <= |b.body| && b.body[k..k + Word(v.Some?)] == OptionalField32(v)
    ensures OptionalField(BoxBytes(b), HeadSize(b) + k, v.Some?) == Some((v, HeadSize(b) + k + Word(v.Some?)))
  {
    hide BoxHead, ReadBe32, Be32;
    BoxLength(b);
    if v.Some? { WordReads(b, k, v.value); }
  }

  /** Where the four optional fields stand. */
  lemma TfhdFields(e: TfhdForm, b: TopBox)
    requires b.body == TfhdBody(e)
    ensures var d, h := BoxBytes(b), HeadSize(b);
            var i, j, k := 8 + Word(e.description.Some?), 8 + Word(e.description.Some?) + Word(e.duration.Some?),
                           8 + Word(e.description.Some?) + Word(e.duration.Some?) + Word(e.size.Some?);
            && |d| == h + k + Word(e.flags.Some?)
            && ReadBe32(d, h) == TfhdFlagsOf(e) && ReadBe32(d, h + 4) == e.trackId
            && OptionalField(d, h + 8, e.description.Some?) == Some((e.description, h + i))
            && OptionalField(d, h + i, e.duration.Some?) == Some((e.duration, h + j))
            && OptionalField(d, h + j, e.size.Some?) == Some((e.size, h + k))
            && OptionalField(d, h + k, e.flags.Some?) == Some((e.flags, |d|))
  {
    hide BoxHead, BoxBytes, ReadBe32, Be32, TfhdFlagsOf, OptionalField32, OptionalField;
    BoxLength(b);
    FieldLengths(e);
    SixStand(Be32(TfhdFlagsOf(e)), Be32(e.trackId), OptionalField32(e.description), OptionalField32(e.duration),
             OptionalField32(e.size), OptionalField32(e.flags));
    WordReads(b, 0, TfhdFlagsOf(e));
    WordReads(b, 4, e.trackId);
    var i := 8 + Word(e.description.Some?);
    var j := i + Word(e.duration.Some?);
    var k := j + Word(e.size.Some?);
    assert b.body[k..k + Word(e.flags.Some?)] == b.body[k..];
    FieldReads(b, 8, e.description);
    FieldReads(b, i, e.duration);
    FieldReads(b, j, e.size);
    FieldReads(b, k, e.flags);
  }

  lemma TfhdMeans(e: TfhdForm, long: bool)
    requires TfhdFormOk(e)
    ensures var b := TopBox(TFHD, long, TfhdBody(e));
            ParseTfhd(BoxBytes(b), HeadSize(b)) == Ok(Tfhd(e.trackId, e.description, OrZero(e.duration), OrZero(e.size), e.flags))
  {
    hide BoxHead, BoxBytes, TfhdBody, ReadBe32, TfhdFlagsOf, TfhdFlagsKnown, OptionalField, Bit;
    var b := TopBox(TFHD, long, TfhdBody(e));
    BoxLength(b);
    TfhdBits(e);
    TfhdFields(e, b);
  }

  lemma FieldLengths(e: TfhdForm)
    ensures |OptionalField32(e.description)| == Word(e.description.Some?) && |OptionalField32(e.duration)| == Word(e.duration.Some?)
    ensures |OptionalField32(e.size)| == Word(e.size.Some?) && |OptionalField32(e.flags)| == Word(e.flags.Some?)
    ensures forall v :: |Be32(v)| == 4
  {}

  /** A decode time in 32 or 64 bits. */
  function TfdtBody(time: u64, wide: bool): bytes
    requires wide || time <= U32_MAX
  {
    if wide then Be32(0x100_0000) + Be64(time) else Be32(0) + Be32(time)
  }

  lemma TfdtMeans(time: u64, wide: bool, long: bool)
    requires wide || time <= U32_MAX
    ensures var b := TopBox(TFDT, long, TfdtBody(time, wide)); ReadTfdt(BoxBytes(b), HeadSize(b)) == Some(time)
  {
    hide BoxHead, ReadBe32, ReadBe64, Be64;
    var b := TopBox(TFDT, long, TfdtBody(time, wide));
    BoxLength(b);
    var d, h := BoxBytes(b), HeadSize(b);
    assert d[h] == b.body[0];
    if wide {
      assert b.body[0] == 1;
      assert d[h + 4..h + 12] == b.body[4..12] == Be64(time);
      ReadBe64Inverts(d, h + 4, time);
    } else {
      assert b.body[0] == 0;
      assert b.body[4..8] == Be32(time);
      WordReads(b, 4, time);
    }
  }

  // ----- traf -----

  /** A child of a `traf`, with a header of either size. */
  datatype TrafChild =
    | TfhdChild(head: TfhdForm, long: bool)
    | TfdtChild(time: u64, wide: bool, long: bool)
    | TrunChild(run: TrunForm, long: bool)

  predicate ChildOk(c: TrafChild) {
    match c
    case TfhdChild(head, _) => TfhdFormOk(head)
    case TfdtChild(time, wide, _) => wide || time <= U32_MAX
    case TrunChild(run, _) => TrunFormOk(run)
  }

  predicate ChildrenOk(cs: seq<TrafChild>) { forall i :: 0 <= i < |cs| ==> ChildOk(cs[i]) }

  predicate RunsOk(es: seq<TrunForm>) { forall i :: 0 <= i < |es| ==> TrunFormOk(es[i]) }

  predicate AllAgree(es: seq<TrunForm>, t: TrunDefaults) { forall i :: 0 <= i < |es| ==> Agrees(es[i], t) }

  function ChildBox(c: TrafChild): TopBox
    requires ChildOk(c)
  {
    match c
    case TfhdChild(head, long) => TopBox(TFHD, long, TfhdBody(head))
    case TfdtChild(time, wide, long) => TopBox(TFDT, long, TfdtBody(time, wide))
    case TrunChild(run, long) => TopBox(TRUN, long, TrunBody(run))
  }

  function ChildBoxes(cs: seq<TrafChild>): seq<TopBox>
    requires ChildrenOk(cs)
  {
    if cs == [] then [] else [ChildBox(cs[0])] + ChildBoxes(cs[1..])
  }

  function Heads(cs: seq<TrafChild>): (r: seq<TfhdForm>)
    ensures ChildrenOk(cs) ==> forall i :: 0 <= i < |r| ==> TfhdFormOk(r[i])
  {
    if cs == [] then [] else (if cs[0].TfhdChild? then [cs[0].head] else []) + Heads(cs[1..])
  }

  function Times(cs: seq<TrafChild>): seq<u64> {
    if cs == [] then [] else (if cs[0].TfdtChild? then [cs[0].time] else []) + Times(cs[1..])
  }

  function Truns(cs: seq<TrafChild>): (r: seq<TrunForm>)
    ensures ChildrenOk(cs) ==> RunsOk(r)
  {
    if cs == [] then [] else (if cs[0].TrunChild? then [cs[0].run] else []) + Truns(cs[1..])
  }

  // What stands where a `trun` leaves a field out.

  /** The first value that is given, zero if none is. */
  function FirstGiven(vs: seq<u32>): u32 {
    if vs == [] then 0 else if vs[0] != 0 then vs[0] else FirstGiven(vs[1..])
  }

  function Given(head: TfhdForm, trex: Trex, hint: u32): TrunDefaults {
    TrunDefaults(
      FirstGiven([OrZero(head.duration), trex.duration, hint]),
      FirstGiven([OrZero(head.size), trex.size]),
      if head.flags.Some? then head.flags.value else trex.flags,
      FirstGiven([OrZero(head.duration), trex.duration]) == 0 && hint != 0)
  }

  function ParsedHead(head: TfhdForm): Tfhd {
    Tfhd(head.trackId, head.description, OrZero(head.duration), OrZero(head.size), head.flags)
  }

  lemma DefaultsAreGiven(head: TfhdForm, trex: Trex, hint: u32)
    ensures DefaultsFor(ParsedHead(head), trex, hint) == Given(head, trex, hint)
  {
    var a, b := OrZero(head.duration), OrZero(head.size);
    assert [a, trex.duration, hint][1..] == [trex.duration, hint] && [trex.duration, hint][1..] == [hint];
    assert [a, trex.duration][1..] == [trex.duration];
    assert [b, trex.size][1..] == [trex.size];
    assert FirstGiven([hint]) == hint && FirstGiven([trex.duration]) == trex.duration && FirstGiven([trex.size]) == trex.size;
    assert FirstGiven([trex.duration, hint]) == if trex.duration != 0 then trex.duration else hint;
  }

  /** The first of the boxes at `at`. */
  lemma NextFound(d: bytes, at: nat, bs: seq<TopBox>)
    requires at <= |d| <= I32_MAX && d[at..] == BoxesBytes(bs)
    ensures bs == [] ==> TryReadBox(d, at) == None
    ensures bs != [] ==>
              var next := at + |BoxBytes(bs[0])|;
              && next <= |d| && d[next..] == BoxesBytes(bs[1..])
              && TryReadBox(d, at) == Some(BoxRef(bs[0].kind, HeadSize(bs[0]), BoxBytes(bs[0]), next))
  {
    hide BoxBytes, TryReadBox;
    if bs == [] {
      assert |d| == at;
      NothingFound(d);
    } else {
      var b, rest := bs[0], BoxesBytes(bs[1..]);
      var next := at + |BoxBytes(b)|;
      assert |d| - at == |BoxBytes(b)| + |rest|;
      FrontBack(d, at, next, |d|, BoxBytes(b), rest);
      BoxLength(b);
      BoxFound(d, at, b);
    }
  }

  lemma NothingFound(d: bytes)
    ensures TryReadBox(d, |d|) == None
  {}

  /** The first pass finds the one `tfhd` and the one `tfdt`, wherever they stand. */
  lemma {:induction false} FieldsFound(d: bytes, at: nat, cs: seq<TrafChild>, tfhd: Option<Tfhd>, time: Option<u64>)
    requires ChildrenOk(cs)
    requires at <= |d| <= I32_MAX && d[at..] == BoxesBytes(ChildBoxes(cs))
    requires |Heads(cs)| + (if tfhd.Some? then 1 else 0) <= 1 && |Times(cs)| + (if time.Some? then 1 else 0) <= 1
    ensures TrafFields(d, at, tfhd, time)
         == Ok((if Heads(cs) != [] then Some(ParsedHead(Heads(cs)[0])) else tfhd, if Times(cs) != [] then Some(Times(cs)[0]) else time))
    decreases |cs|
  {
    hide BoxesBytes, BoxBytes, TryReadBox, ParseTfhd, ReadTfdt, TfhdBody, TfdtBody, TrunBody, TrunFormOk;
    NextFound(d, at, ChildBoxes(cs));
    if cs != [] {
      assert ChildBoxes(cs)[1..] == ChildBoxes(cs[1..]);
      var next := at + |BoxBytes(ChildBox(cs[0]))|;
      match cs[0]
      case TfhdChild(head, long) =>
        TfhdMeans(head, long);
        FieldsFound(d, next, cs[1..], Some(ParsedHead(head)), time);
      case TfdtChild(t, wide, long) =>
        TfdtMeans(t, wide, long);
        FieldsFound(d, next, cs[1..], tfhd, Some(t));
      case TrunChild(_, _) =>
        FieldsFound(d, next, cs[1..], tfhd, time);
    }
  }

  function MeantRuns(es: seq<TrunForm>, t: TrunDefaults): (r: seq<Run>)
    requires RunsOk(es)
    ensures |r| == |es| && forall i | 0 <= i < |es| :: r[i] == MeantRun(es[i], t)
  {
    if es == [] then [] else [MeantRun(es[0], t)] + MeantRuns(es[1..], t)
  }

  lemma HasSamples(e: TrunForm)
    requires TrunFormOk(e)
    ensures e.samples != []
  {}

  lemma NoDuration()
    ensures RunsDuration([]) == 0
  {}

  /** The second pass finds the runs, in their order. */
  lemma {:induction false} RunsFound(d: bytes, at: nat, cs: seq<TrafChild>, t: TrunDefaults, total: nat)
    requires ChildrenOk(cs)
    requires at <= |d| <= I32_MAX && d[at..] == BoxesBytes(ChildBoxes(cs))
    requires AllAgree(Truns(cs), t) && total <= U64_MAX
    ensures var runs := MeantRuns(Truns(cs), t);
            TrafRuns(d, at, t, total)
            == if total + RunsDuration(runs) <= U64_MAX then Ok(runs) else Err(FragmentDurationOverflow)
    decreases |cs|
  {
    hide BoxesBytes, BoxBytes, TryReadBox, NormalizedTrun, TfhdBody, TfdtBody, TrunBody, Agrees, MeantRun, TfhdFormOk,
         Heads, Times, RunsDuration, TrunFormOk;
    NextFound(d, at, ChildBoxes(cs));
    NoDuration();
    if cs != [] {
      assert ChildBoxes(cs)[1..] == ChildBoxes(cs[1..]);
      var next := at + |BoxBytes(ChildBox(cs[0]))|;
      if cs[0].TrunChild? {
        var e := cs[0].run;
        assert Truns(cs) == [e] + Truns(cs[1..]);
        assert Truns(cs)[1..] == Truns(cs[1..]) && Truns(cs)[0] == e;
        HasSamples(e);
        TrunMeans(e, cs[0].long, t);
        var run, rest := MeantRun(e, t), MeantRuns(Truns(cs[1..]), t);
        assert MeantRuns(Truns(cs), t) == [run] + rest;
        FirstDuration(run, rest);
        if total + run.duration <= U64_MAX {
          RunsFound(d, next, cs[1..], t, total + run.duration);
        }
      } else {
        assert Truns(cs) == Truns(cs[1..]);
        RunsFound(d, next, cs[1..], t, total);
      }
    }
  }

  lemma FirstDuration(run: Run, rest: seq<Run>)
    ensures RunsDuration([run] + rest) == run.duration + RunsDuration(rest)
  {
    RunsDurationConcat([run], rest);
    assert [run][..0] == [];
  }

  /** The fragment that a `traf` means. */
  function MeantFragment(head: TfhdForm, time: u64, es: seq<TrunForm>, ids: TrackIds, hint: u32): Fragment
    requires es != [] && RunsOk(es)
    requires RunsDuration(MeantRuns(es, Given(head, ids.trex, hint))) <= U64_MAX
  {
    var t := Given(head, ids.trex, hint);
    var runs := MeantRuns(es, t);
    var index := if head.description.Some? then head.description.value else ids.trex.descriptionIndex;
    Fragment(head.trackId, ids.timescale, time, RunsDuration(runs), IsSyncSample(es[0].samples[0].flags), index,
             CanonicalTfhd(head.trackId, index), runs, 0, 0, t.durationIsHint && exists e :: e in es && !e.hasDuration)
  }

  lemma InferredIsMeant(es: seq<TrunForm>, t: TrunDefaults)
    requires RunsOk(es)
    ensures AnyInferred(MeantRuns(es, t)) == (t.durationIsHint && exists e :: e in es && !e.hasDuration)
  {
    var runs := MeantRuns(es, t);
    if t.durationIsHint && exists e :: e in es && !e.hasDuration {
      var i :| 0 <= i < |es| && !es[i].hasDuration;
      assert runs[i] in runs && runs[i].inferred;
    }
    if AnyInferred(runs) {
      var i :| 0 <= i < |runs| && runs[i].inferred;
      assert es[i] in es && !es[i].hasDuration;
    }
  }

  lemma {:induction false} SomeDuration(es: seq<TrunForm>, t: TrunDefaults)
    requires es != [] && RunsOk(es)
    ensures RunsDuration(MeantRuns(es, t)) > 0
  {
    FirstDuration(MeantRun(es[0], t), MeantRuns(es[1..], t));
  }

  /**
   * A `traf` whose children come in any order, each with any of its optional fields left out, is read as exactly the fragment
   * it means: an absent duration or size is the one of the `tfhd`, else of the `trex`, else (a duration) the hint.
   */
  lemma TrafMeans(cs: seq<TrafChild>, long: bool, ids: TrackIds, hint: u32,
                  video: TrackIds, audio: TrackIds, videoHint: u32, audioHint: u32)
    requires ChildrenOk(cs) && |Heads(cs)| == 1 && |Times(cs)| == 1 && Truns(cs) != []
    requires TrackOf(Heads(cs)[0].trackId, video, audio, videoHint, audioHint) == Some((ids, hint)) && ids.timescale != 0
    requires Heads(cs)[0].description.Some? || ids.trex.descriptionIndex != 0
    requires AllAgree(Truns(cs), Given(Heads(cs)[0], ids.trex, hint))
    requires |BoxBytes(TopBox(TRAF, long, BoxesBytes(ChildBoxes(cs))))| <= I32_MAX
    ensures var b := TopBox(TRAF, long, BoxesBytes(ChildBoxes(cs)));
            ParsedTraf(BoxBytes(b), HeadSize(b), video, audio, videoHint, audioHint)
            == if RunsDuration(MeantRuns(Truns(cs), Given(Heads(cs)[0], ids.trex, hint))) <= U64_MAX
               then Ok(MeantFragment(Heads(cs)[0], Times(cs)[0], Truns(cs), ids, hint)) else Err(FragmentDurationOverflow)
  {
    hide TrafFields, TrafRuns, BoxesBytes, BoxHead, Given, DefaultsFor, TrackOf, AnyInferred, Agrees, CanonicalTfhd,
         RunsDuration, IsSyncSample, ChildOk, MeantRun;
    var b := TopBox(TRAF, long, BoxesBytes(ChildBoxes(cs)));
    var head := Heads(cs)[0];
    var t := Given(head, ids.trex, hint);
    BodyTail(b, 0);
    FieldsFound(BoxBytes(b), HeadSize(b), cs, None, None);
    DefaultsAreGiven(head, ids.trex, hint);
    RunsFound(BoxBytes(b), HeadSize(b), cs, t, 0);
    InferredIsMeant(Truns(cs), t);
    SomeDuration(Truns(cs), t);
    StartsMeant(Truns(cs)[0], t);
  }

  lemma StartsMeant(e: TrunForm, t: TrunDefaults)
    requires e.samples != []
    ensures MeantRun(e, t).startsWithSync == IsSyncSample(e.samples[0].flags)
  {}

  // ----- moof -----

  lemma {:induction false} OthersPassed(
    d: bytes, at: nat, bs: seq<TopBox>, found: Option<Fragment>, video: TrackIds, audio: TrackIds, videoHint: u32, audioHint: u32)
    requires (forall b | b in bs :: b.kind != TRAF) && at <= |d| <= I32_MAX && d[at..] == BoxesBytes(bs)
    ensures MoofTraf(d, at, found, video, audio, videoHint, audioHint) == Ok(found)
    decreases |bs|
  {
    hide BoxesBytes, BoxBytes, TryReadBox, ParsedTraf;
    NextFound(d, at, bs);
    if bs != [] {
      assert bs[0] in bs;
      OthersPassed(d, at + |BoxBytes(bs[0])|, bs[1..], found, video, audio, videoHint, audioHint);
    }
  }

  lemma {:induction false} TrafReached(
    d: bytes, at: nat, before: seq<TopBox>, traf: TopBox, after: seq<TopBox>,
    video: TrackIds, audio: TrackIds, videoHint: u32, audioHint: u32)
    requires (forall b | b in before + after :: b.kind != TRAF) && traf.kind == TRAF
    requires at <= |d| <= I32_MAX && d[at..] == BoxesBytes(before + [traf] + after)
    ensures MoofTraf(d, at, None, video, audio, videoHint, audioHint)
         == match ParsedTraf(BoxBytes(traf), HeadSize(traf), video, audio, videoHint, audioHint)
            case Err(e) => Err(e)
            case Ok(f) => Ok(Some(f))
    decreases |before|
  {
    hide BoxesBytes, BoxBytes, TryReadBox, ParsedTraf;
    var bs := before + [traf] + after;
    NextFound(d, at, bs);
    var next := at + |BoxBytes(bs[0])|;
    if before == [] {
      assert bs[0] == traf && bs[1..] == after;
      match ParsedTraf(BoxBytes(traf), HeadSize(traf), video, audio, videoHint, audioHint)
      case Err(_) =>
      case Ok(f) => OthersPassed(d, next, after, Some(f), video, audio, videoHint, audioHint);
    } else {
      assert bs[0] == before[0] && before[0] in before + after;
      assert bs[1..] == before[1..] + [traf] + after;
      TrafReached(d, next, before[1..], traf, after, video, audio, videoHint, audioHint);
    }
  }

  /** A `moof` is read as its one `traf`, whatever other boxes stand around it. */
  lemma MoofMeans(before: seq<TopBox>, traf: TopBox, after: seq<TopBox>, long: bool,
                  video: TrackIds, audio: TrackIds, videoHint: u32, audioHint: u32)
    requires (forall b | b in before + after :: b.kind != TRAF) && traf.kind == TRAF
    requires |BoxBytes(TopBox(MOOF, long, BoxesBytes(before + [traf] + after)))| <= I32_MAX
    ensures ParsedMoof(BoxBytes(TopBox(MOOF, long, BoxesBytes(before + [traf] + after))), video, audio, videoHint, audioHint)
         == ParsedTraf(BoxBytes(traf), HeadSize(traf), video, audio, videoHint, audioHint)
  {
    hide BoxesBytes, BoxHead, TryReadBox, ParsedTraf, MoofTraf;
    var b := TopBox(MOOF, long, BoxesBytes(before + [traf] + after));
    var d := BoxBytes(b);
    assert d[0..|d|] == d;
    BoxFound(d, 0, b);
    BodyTail(b, 0);
    TrafReached(d, HeadSize(b), before, traf, after, video, audio, videoHint, audioHint);
  }
}
