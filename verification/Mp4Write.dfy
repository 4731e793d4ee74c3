/**
 * Writing one `moof`: sizes and data offsets are fixed before anything is written
 * (sections 8.8.4-8.8.8 and 8.8.12 of ISO/IEC 14496-12), and what is written is what the parser reads.
 */
module Mp4Write {
  import opened Bytes
  import opened Mp4Types
  import opened Mp4Parse

  // ----- sizes, computed before writing -----

  function TrunSize(run: Run): int {
    20 + |run.samples| * (if run.hasOffsets then 16 else 12)
  }

  function TrunsSize(runs: seq<Run>): int {
    if runs == [] then 0 else TrunSize(runs[0]) + TrunsSize(runs[1..])
  }

  /** `traf_size`: header, canonical `tfhd`, version-1 `tfdt` and the runs of `fs`. */
  function TrafSize(fs: seq<Fragment>): int {
    8 + CANONICAL_TFHD_SIZE + 20 + TrunsSize(QueueRuns(fs))
  }

  // ----- boxes -----

  function Header(size: u32, kind: u32): (r: bytes)
    ensures |r| == 8
  {
    Be32(size) + Be32(kind)
  }

  function Mfhd(sequence: u32): (r: bytes)
    ensures |r| == 16
  {
    Header(16, MFHD) + Be32(0) + Be32(sequence)
  }

  function Tfdt(decodeTime: u64): (r: bytes)
    ensures |r| == 20
  {
    Header(20, TFDT) + Be32(0x100_0000) + Be64(decodeTime)
  }

  function MdatHeader(length: int, headerSize: int): (r: bytes)
    ensures |r| == if headerSize == 8 then 8 else 16
  {
    if headerSize == 8 then Header((length + 8) % 0x1_0000_0000, MDAT)
    else Header(1, MDAT) + Be64(Wrap64(length + 16))
  }

  function AsU32(v: int): u32 { v % 0x1_0000_0000 }

  function SampleBytes(s: Sample, hasOffsets: bool): (r: bytes)
    ensures |r| == if hasOffsets then 16 else 12
  {
    Be32(s.duration) + Be32(s.size) + Be32(s.flags) + (if hasOffsets then Be32(s.offset) else [])
  }

  function SamplesBytes(ss: seq<Sample>, hasOffsets: bool): bytes {
    if ss == [] then [] else SamplesBytes(ss[..|ss| - 1], hasOffsets) + SampleBytes(ss[|ss| - 1], hasOffsets)
  }

  function TrunFlagWord(run: Run): u32
    requires run.version <= 1
  {
    run.version * 0x100_0000 + (if run.hasOffsets then 0xF01 else 0x701)
  }

  /** `write_canonical_trun`: explicit duration, size and flags for every sample. */
  function WriteTrun(run: Run, dataOffset: int): Result<bytes> {
    if run.samples == [] then Err(TrunWithoutSamples) else
    if run.version > 1 then Err(TrunVersion) else
    if TrunSize(run) > U32_MAX then Err(TrunTooLarge) else
    Ok(Header(TrunSize(run), TRUN) + Be32(TrunFlagWord(run)) + Be32(|run.samples|) + Be32(AsU32(dataOffset))
       + SamplesBytes(run.samples, run.hasOffsets))
  }

  function FitsI32(v: int): bool { -0x8000_0000 <= v <= I32_MAX }

  /** The runs of a `traf`; `base` is the distance from the `moof` start to the payload. */
  function WriteTruns(runs: seq<Run>, base: int): Result<bytes> {
    if runs == [] then Ok([]) else
    if !FitsI32(base + runs[0].outputOffset) then Err(TrunOffsetTooLarge) else
    match WriteTrun(runs[0], base + runs[0].outputOffset)
    case Err(e) => Err(e)
    case Ok(first) =>
      match WriteTruns(runs[1..], base)
      case Err(e) => Err(e)
      case Ok(rest) => Ok(first + rest)
  }

  /** `add_tfdt_offset` with a whole number of seconds. */
  function AddTfdtOffset(value: u64, timescale: u32, seconds: nat): Result<u64> {
    if seconds == 0 then Ok(value) else
    if seconds * timescale > U64_MAX then Err(TfdtOverflow) else
    if value as int + seconds * timescale > U64_MAX then Err(TfdtOverflow) else
    Ok(value as int + seconds * timescale)
  }

  function WriteTraf(fs: seq<Fragment>, base: int, offsetSeconds: nat): Result<bytes>
    requires fs != []
  {
    if TrafSize(fs) > U32_MAX || TrafSize(fs) < 0 then Err(TrafTooLarge) else
    match AddTfdtOffset(fs[0].decodeTime, fs[0].timescale, offsetSeconds)
    case Err(e) => Err(e)
    case Ok(time) =>
      match WriteTruns(QueueRuns(fs), base)
      case Err(e) => Err(e)
      case Ok(runs) => Ok(Header(TrafSize(fs), TRAF) + fs[0].tfhd + Tfdt(time) + runs)
  }

  // ----- the writing loops -----

  method EmitTrun(run: Run, dataOffset: int) returns (r: Result<bytes>)
    ensures r == WriteTrun(run, dataOffset)
  {
    hide Be32, SampleBytes;
    if run.samples == [] { return Err(TrunWithoutSamples); }
    if run.version > 1 { return Err(TrunVersion); }
    if TrunSize(run) > U32_MAX { return Err(TrunTooLarge); }
    var entries: bytes := [];
    for i := 0 to |run.samples|
      invariant entries == SamplesBytes(run.samples[..i], run.hasOffsets)
    {
      assert run.samples[..i + 1][..i] == run.samples[..i];
      entries := entries + SampleBytes(run.samples[i], run.hasOffsets);
    }
    assert run.samples[..|run.samples|] == run.samples;
    return Ok(Header(TrunSize(run), TRUN) + Be32(TrunFlagWord(run)) + Be32(|run.samples|) + Be32(AsU32(dataOffset))
              + entries);
  }

  function After(data: bytes, r: Result<bytes>): Result<bytes> {
    match r
    case Err(e) => Err(e)
    case Ok(rest) => Ok(data + rest)
  }

  lemma AfterMore(data: bytes, piece: bytes, r: Result<bytes>)
    ensures After(data, After(piece, r)) == After(data + piece, r)
  {
    if r.Ok? {
      assert data + (piece + r.value) == data + piece + r.value;
    }
  }

  method EmitTraf(fs: seq<Fragment>, base: int, offsetSeconds: nat) returns (r: Result<bytes>)
    requires fs != []
    ensures r == WriteTraf(fs, base, offsetSeconds)
  {
    hide TrunsSize, WriteTrun, Header, Tfdt;
    if TrafSize(fs) > U32_MAX || TrafSize(fs) < 0 { return Err(TrafTooLarge); }
    var time := AddTfdtOffset(fs[0].decodeTime, fs[0].timescale, offsetSeconds);
    if time.Err? { return Err(time.error); }
    var runs := QueueRuns(fs);
    var out: bytes := [];
    assert runs[0..] == runs;
    assert WriteTruns(runs, base).Ok? ==> [] + WriteTruns(runs, base).value == WriteTruns(runs, base).value;
    for i := 0 to |runs|
      invariant WriteTruns(runs, base) == After(out, WriteTruns(runs[i..], base))
    {
      assert runs[i..][1..] == runs[i + 1..];
      if !FitsI32(base + runs[i].outputOffset) { return Err(TrunOffsetTooLarge); }
      var trun := EmitTrun(runs[i], base + runs[i].outputOffset);
      if trun.Err? { return Err(trun.error); }
      AfterMore(out, trun.value, WriteTruns(runs[i + 1..], base));
      out := out + trun.value;
    }
    assert out + [] == out;
    return Ok(Header(TrafSize(fs), TRAF) + fs[0].tfhd + Tfdt(time.value) + out);
  }

  // ----- the predicted sizes are the written sizes -----

  lemma {:induction false} SamplesBytesLength(ss: seq<Sample>, hasOffsets: bool)
    ensures |SamplesBytes(ss, hasOffsets)| == |ss| * (if hasOffsets then 16 else 12)
  {
    if ss != [] {
      SamplesBytesLength(ss[..|ss| - 1], hasOffsets);
    }
  }

  lemma WriteTrunLength(run: Run, dataOffset: int)
    ensures WriteTrun(run, dataOffset).Ok? ==> |WriteTrun(run, dataOffset).value| == TrunSize(run)
  {
    SamplesBytesLength(run.samples, run.hasOffsets);
  }

  lemma {:induction false} WriteTrunsLength(runs: seq<Run>, base: int)
    ensures WriteTruns(runs, base).Ok? ==> |WriteTruns(runs, base).value| == TrunsSize(runs)
  {
    if runs != [] {
      WriteTrunLength(runs[0], base + runs[0].outputOffset);
      WriteTrunsLength(runs[1..], base);
    }
  }

  /** `traf_size` predicts exactly the bytes `write_traf` emits. */
  lemma WriteTrafLength(fs: seq<Fragment>, base: int, offsetSeconds: nat)
    requires fs != [] && |fs[0].tfhd| == CANONICAL_TFHD_SIZE
    ensures var r := WriteTraf(fs, base, offsetSeconds); r.Ok? ==> |r.value| == TrafSize(fs)
  {
    hide Header, Tfdt;
    WriteTrunsLength(QueueRuns(fs), base);
  }

  // ----- what is written parses back -----

  /** A box of at least eight bytes whose size field is right is read back whole. */
  lemma ReadBoxBack(d: bytes, at: nat, b: bytes, kind: u32)
    requires 8 <= |b| <= I32_MAX && b[..8] == Header(|b|, kind)
    requires at + |b| <= |d| && d[at..at + |b|] == b
    ensures TryReadBox(d, at) == Some(BoxRef(kind, 8, b, at + |b|))
  {
    SliceOfSlice(d, at, at + |b|, 0, 4);
    SliceOfSlice(d, at, at + |b|, 4, 8);
    assert b[0..4] == b[..8][..4] == Be32(|b|);
    assert b[4..8] == b[..8][4..] == Be32(kind);
    ReadBe32Inverts(d, at, |b|);
    ReadBe32Inverts(d, at + 4, kind);
  }

  function WrittenLayout(hasOffsets: bool): TrunLayout {
    TrunLayout(true, true, true, hasOffsets, None)
  }

  lemma SampleReadsBack(d: bytes, at: nat, s: Sample, hasOffsets: bool, first: bool, t: TrunDefaults)
    requires at + EntrySize(WrittenLayout(hasOffsets)) <= |d|
    requires d[at..at + EntrySize(WrittenLayout(hasOffsets))] == SampleBytes(s, hasOffsets)
    requires !hasOffsets ==> s.offset == 0
    ensures SampleAt(d, at, first, t, WrittenLayout(hasOffsets)) == s
  {
    hide Be32, ReadBe32;
    var n := EntrySize(WrittenLayout(hasOffsets));
    var e := d[at..at + n];
    SliceOfSlice(d, at, at + n, 0, 4);
    SliceOfSlice(d, at, at + n, 4, 8);
    SliceOfSlice(d, at, at + n, 8, 12);
    assert e[0..4] == Be32(s.duration) && e[4..8] == Be32(s.size) && e[8..12] == Be32(s.flags);
    ReadBe32Inverts(d, at, s.duration);
    ReadBe32Inverts(d, at + 4, s.size);
    ReadBe32Inverts(d, at + 8, s.flags);
    if hasOffsets {
      SliceOfSlice(d, at, at + n, 12, 16);
      assert e[12..16] == Be32(s.offset);
      ReadBe32Inverts(d, at + 12, s.offset);
    }
  }

  lemma {:induction false} SamplesReadBack(d: bytes, at: nat, ss: seq<Sample>, hasOffsets: bool, t: TrunDefaults)
    requires at + EntriesSize(|ss|, WrittenLayout(hasOffsets)) <= |d|
    requires d[at..at + EntriesSize(|ss|, WrittenLayout(hasOffsets))] == SamplesBytes(ss, hasOffsets)
    requires !hasOffsets ==> forall i | 0 <= i < |ss| :: ss[i].offset == 0
    ensures ReadSamples(d, at, |ss|, t, WrittenLayout(hasOffsets)) == ss
  {
    hide SampleAt, SampleBytes;
    if ss != [] {
      var l := WrittenLayout(hasOffsets);
      var front, last := ss[..|ss| - 1], ss[|ss| - 1];
      var middle := at + EntriesSize(|front|, l);
      var whole := d[at..at + EntriesSize(|ss|, l)];
      SamplesBytesLength(front, hasOffsets);
      EntriesSizeIsProduct(|front|, l);
      assert d[at..middle] == whole[..|SamplesBytes(front, hasOffsets)|] == SamplesBytes(front, hasOffsets);
      assert d[middle..middle + EntrySize(l)] == whole[|SamplesBytes(front, hasOffsets)|..]
          == SampleBytes(last, hasOffsets);
      SamplesReadBack(d, at, front, hasOffsets, t);
      SampleReadsBack(d, middle, last, hasOffsets, |ss| == 1, t);
      assert ss == front + [last];
    }
  }

  /** The run the parser sees in a written `trun`. */
  function Reread(run: Run, dataOffset: int): Run {
    Run(Some(dataOffset), run.samples, run.version, run.hasOffsets, run.duration, run.dataSize, 0, 0,
        run.startsWithSync, false)
  }

  lemma WrittenHeadReadsBack(d: bytes, run: Run, dataOffset: int, t: TrunDefaults)
    requires RunOk(run) && FitsI32(dataOffset) && |d| >= 20
    requires d[8..12] == Be32(TrunFlagWord(run)) && d[12..16] == Be32(|run.samples|)
    requires d[16..20] == Be32(AsU32(dataOffset))
    ensures ReadTrunHead(d, 8, t)
         == Ok(TrunHead(run.version, |run.samples|, Some(dataOffset), WrittenLayout(run.hasOffsets), 20))
  {
    hide Be32, ReadBe32, SumDurations, SumSizes;
    ReadBe32Inverts(d, 8, TrunFlagWord(run));
    ReadBe32Inverts(d, 12, |run.samples|);
    ReadBe32Inverts(d, 16, AsU32(dataOffset));
  }

  /** A written run is read back sample by sample, unless its total duration is zero, which the parser refuses. */
  lemma WrittenTrunReadsBack(run: Run, dataOffset: int, t: TrunDefaults)
    requires RunOk(run) && FitsI32(dataOffset) && WriteTrun(run, dataOffset).Ok?
    ensures NormalizedTrun(WriteTrun(run, dataOffset).value, 8, t)
         == if run.duration == 0 then Err(InvalidTrunBody) else Ok(Reread(run, dataOffset))
  {
    var d := WriteTrun(run, dataOffset).value;
    var l := WrittenLayout(run.hasOffsets);
    SamplesBytesLength(run.samples, run.hasOffsets);
    EntriesSizeIsProduct(|run.samples|, l);
    WrittenTrunFields(run, dataOffset);
    WrittenHeadReadsBack(d, run, dataOffset, t);
    SamplesReadBack(d, 20, run.samples, run.hasOffsets, t);
  }

  lemma WrittenTrunFields(run: Run, dataOffset: int)
    requires WriteTrun(run, dataOffset).Ok? && run.version <= 1
    ensures var d := WriteTrun(run, dataOffset).value;
            && |d| >= 20 && d[..8] == Header(TrunSize(run), TRUN)
            && d[8..12] == Be32(TrunFlagWord(run)) && d[12..16] == Be32(|run.samples|)
            && d[16..20] == Be32(AsU32(dataOffset)) && d[20..] == SamplesBytes(run.samples, run.hasOffsets)
  {
    hide Be32, Header, TrunFlagWord, AsU32, SamplesBytes;
  }

  /** The runs a written `traf` reads back to. */
  function RereadRuns(runs: seq<Run>, base: int): seq<Run> {
    if runs == [] then [] else
    [Reread(runs[0], base + runs[0].outputOffset)] + RereadRuns(runs[1..], base)
  }

  /** Every run lasts, and the total duration fits in 64 bits: exactly what the parser requires of a written `traf`. */
  predicate Rereadable(runs: seq<Run>, total: int) {
    runs == [] || (runs[0].duration != 0 && total + runs[0].duration <= U64_MAX
                   && Rereadable(runs[1..], total + runs[0].duration))
  }

  lemma {:induction false} WrittenTrunsReadBack(d: bytes, at: nat, runs: seq<Run>, base: int, t: TrunDefaults, total: nat)
    requires forall r | r in runs :: RunOk(r)
    requires WriteTruns(runs, base).Ok? && at <= |d| <= I32_MAX && d[at..] == WriteTruns(runs, base).value
    ensures var r := TrafRuns(d, at, t, total);
            if Rereadable(runs, total) then r == Ok(RereadRuns(runs, base)) else r.Err?
    decreases |runs|
  {
    hide NormalizedTrun, TryReadBox, RunOk, Header, WriteTrun;
    if runs == [] {
      assert TryReadBox(d, at).None? by { NoBoxAtEnd(d, at); }
    } else {
      var run, offset := runs[0], base + runs[0].outputOffset;
      var first := WriteTrun(run, offset).value;
      assert run in runs;
      RunFacts(run, offset);
      WrittenTrunReadsBack(run, offset, t);
      assert d[at..at + |first|] == d[at..][..|first|] == first;
      ReadBoxBack(d, at, first, TRUN);
      assert d[at + |first|..] == d[at..][|first|..] == WriteTruns(runs[1..], base).value;
      if run.duration != 0 && total + run.duration <= U64_MAX {
        WrittenTrunsReadBack(d, at + |first|, runs[1..], base, t, total + run.duration);
      }
    }
  }

  lemma NoBoxAtEnd(d: bytes, at: nat)
    requires at == |d|
    ensures TryReadBox(d, at).None?
  {}

  lemma RunFacts(run: Run, offset: int)
    requires RunOk(run) && WriteTrun(run, offset).Ok?
    ensures 8 <= |WriteTrun(run, offset).value| == TrunSize(run) <= U32_MAX
    ensures WriteTrun(run, offset).value[..8] == Header(TrunSize(run), TRUN)
  {
    WriteTrunLength(run, offset);
    WrittenTrunFields(run, offset);
  }

  lemma {:induction false} WrittenTrunsAddNoFields(
    d: bytes, at: nat, runs: seq<Run>, base: int, tfhd: Option<Tfhd>, time: Option<u64>)
    requires forall r | r in runs :: RunOk(r)
    requires WriteTruns(runs, base).Ok? && at <= |d| <= I32_MAX && d[at..] == WriteTruns(runs, base).value
    ensures TrafFields(d, at, tfhd, time) == Ok((tfhd, time))
    decreases |runs|
  {
    hide TryReadBox, RunOk, Header, WriteTrun, ParseTfhd, ReadTfdt;
    if runs == [] {
      NoBoxAtEnd(d, at);
    } else {
      var run, offset := runs[0], base + runs[0].outputOffset;
      var first := WriteTrun(run, offset).value;
      assert run in runs;
      RunFacts(run, offset);
      assert d[at..at + |first|] == d[at..][..|first|] == first;
      ReadBoxBack(d, at, first, TRUN);
      assert d[at + |first|..] == d[at..][|first|..] == WriteTruns(runs[1..], base).value;
      WrittenTrunsAddNoFields(d, at + |first|, runs[1..], base, tfhd, time);
    }
  }

  lemma CanonicalTfhdReadsBack(id: u32, index: u32)
    requires id != 0 && index != 0
    ensures CanonicalTfhd(id, index)[..8] == Header(20, TFHD)
    ensures ParseTfhd(CanonicalTfhd(id, index), 8) == Ok(Tfhd(id, Some(index), 0, 0, None))
  {
    hide Be32, ReadBe32;
    var d := CanonicalTfhd(id, index);
    assert d[8..12] == Be32(0x2_0002) && d[12..16] == Be32(id) && d[16..20] == Be32(index);
    ReadBe32Inverts(d, 8, 0x2_0002);
    ReadBe32Inverts(d, 12, id);
    ReadBe32Inverts(d, 16, index);
  }

  lemma TfdtReadsBack(time: u64)
    ensures Tfdt(time)[..8] == Header(20, TFDT)
    ensures ReadTfdt(Tfdt(time), 8) == Some(time)
  {
    hide Be64, ReadBe64;
    var d := Tfdt(time);
    assert d[8..12] == Be32(0x100_0000);
    assert d[8] == Be32(0x100_0000)[0] == 1 by { assert d[8] == d[8..12][0]; }
    assert d[12..20] == Be64(time);
    ReadBe64Inverts(d, 12, time);
  }

  lemma {:induction false} QueueRunsOk(fs: seq<Fragment>)
    requires QueueOk(fs)
    ensures forall r | r in QueueRuns(fs) :: RunOk(r)
    ensures fs != [] ==> fs[0].runs != [] && QueueRuns(fs) != [] && QueueRuns(fs)[0] == fs[0].runs[0]
  {
    hide RunOk;
    if fs != [] {
      assert fs[0] in fs && Attached(fs[0]);
      assert QueueOk(fs[1..]) by { assert forall f | f in fs[1..] :: f in fs; }
      QueueRunsOk(fs[1..]);
    }
  }

  predicate AllLast(runs: seq<Run>) { forall r | r in runs :: r.duration != 0 }

  lemma {:induction false} RereadableMeaning(runs: seq<Run>, total: nat)
    requires forall r | r in runs :: RunOk(r)
    requires total <= U64_MAX
    ensures Rereadable(runs, total) <==> AllLast(runs) && total + RunsDuration(runs) <= U64_MAX
  {
    if runs != [] {
      var head, rest := runs[0], runs[1..];
      assert head in runs && RunOk(head);
      assert runs == [head] + rest;
      RunsDurationConcat([head], rest);
      assert [head][..0] == [];
      assert RunsDuration([head]) == head.duration;
      assert forall r | r in runs :: r == head || r in rest;
      RereadableMeaning(rest, if total + head.duration <= U64_MAX then total + head.duration else 0);
    }
  }

  lemma {:induction false} RereadTotals(runs: seq<Run>, base: int)
    requires forall r | r in runs :: RunOk(r)
    ensures RunsDuration(RereadRuns(runs, base)) == RunsDuration(runs)
    ensures |RereadRuns(runs, base)| == |runs| && !AnyInferred(RereadRuns(runs, base))
    ensures AllLast(runs) ==> RunsDuration(runs) >= |runs|
  {
    if runs != [] {
      var run, rest := Reread(runs[0], base + runs[0].outputOffset), RereadRuns(runs[1..], base);
      assert RunOk(runs[0]) by { assert runs[0] in runs; }
      RereadTotals(runs[1..], base);
      assert runs == [runs[0]] + runs[1..];
      RunsDurationConcat([runs[0]], runs[1..]);
      RunsDurationConcat([run], rest);
      assert [run][..0] == [] && [runs[0]][..0] == [];
      assert RunsDuration([run]) == run.duration == RunsDuration([runs[0]]);
    }
  }

  /** Twelve bytes a sample leave room for fewer samples than could outlast 64 bits. */
  lemma {:induction false} DurationsBySize(runs: seq<Run>)
    requires forall r | r in runs :: RunOk(r)
    ensures 0 <= 12 * RunsDuration(runs) <= TrunsSize(runs) * U32_MAX
  {
    if runs != [] {
      hide RunsDuration;
      var run, rest := runs[0], runs[1..];
      assert run in runs && RunOk(run);
      assert runs == [run] + rest;
      RunsDurationConcat([run], rest);
      OneDuration(run);
      SampleTotalsFit(run.samples);
      DurationsBySize(rest);
      assert 12 * run.duration <= TrunSize(run) * U32_MAX;
    }
  }

  lemma OneDuration(run: Run)
    ensures RunsDuration([run]) == run.duration
  {
    assert [run][..0] == [];
  }

  /**
   * The written `traf` parses back exactly when every run lasts; then it gives the merged runs, their decode time (with
   * the timeline offset) and their total duration, which always fits in 64 bits.
   */
  lemma TrafRoundTrip(
    fs: seq<Fragment>, base: int, offsetSeconds: nat,
    video: TrackIds, audio: TrackIds, videoHint: u32, audioHint: u32)
    requires fs != [] && QueueOk(fs)
    requires WriteTraf(fs, base, offsetSeconds).Ok? && TrafSize(fs) <= I32_MAX
    requires var track := TrackOf(fs[0].trackId, video, audio, videoHint, audioHint);
             track.Some? && track.value.0.timescale == fs[0].timescale
    ensures var f, runs := fs[0], QueueRuns(fs);
            var r := ParsedTraf(WriteTraf(fs, base, offsetSeconds).value, 8, video, audio, videoHint, audioHint);
            && RunsDuration(runs) <= U64_MAX && (r.Ok? <==> AllLast(runs)) && (r.Ok? ==> 0 < RunsDuration(runs))
            && (r.Ok? ==> r.value == Fragment(
                  f.trackId, f.timescale, AddTfdtOffset(f.decodeTime, f.timescale, offsetSeconds).value,
                  RunsDuration(runs), f.startsWithSync, f.descriptionIndex, f.tfhd,
                  RereadRuns(runs, base), 0, 0, false))
  {
    hide TryReadBox, RunOk, ParseTfhd, ReadTfdt, Header, Tfdt, CanonicalTfhd, NormalizedTrun, WriteTrun, TrunsSize,
      Rereadable, AllLast, TrafRuns, TrafFields, WriteTruns, QueueRuns, QueueOk, Attached, RereadRuns, RunsDuration;
    var f, runs := fs[0], QueueRuns(fs);
    FirstFacts(fs);
    QueueRunsOk(fs);
    WriteTrafLength(fs, base, offsetSeconds);
    var time := AddTfdtOffset(f.decodeTime, f.timescale, offsetSeconds).value;
    var body := WriteTruns(runs, base).value;
    var d := Header(TrafSize(fs), TRAF) + f.tfhd + Tfdt(time) + body;
    assert d[8..28] == f.tfhd && d[28..48] == Tfdt(time) && d[48..] == body;
    CanonicalTfhdReadsBack(f.trackId, f.descriptionIndex);
    TfdtReadsBack(time);
    ReadBoxBack(d, 8, f.tfhd, TFHD);
    ReadBoxBack(d, 28, Tfdt(time), TFDT);
    var tfhd := Tfhd(f.trackId, Some(f.descriptionIndex), 0, 0, None);
    TrafFieldsStart(d, tfhd, time, runs, base);
    var track := TrackOf(f.trackId, video, audio, videoHint, audioHint).value;
    TrafRunsStart(d, DefaultsFor(tfhd, track.0.trex, track.1), runs, base);
    RereadableMeaning(runs, 0);
    DurationsBySize(runs);
    RereadTotals(runs, base);
    RereadFirst(runs, base);
  }

  lemma FirstFacts(fs: seq<Fragment>)
    requires fs != [] && QueueOk(fs)
    ensures var f := fs[0];
            && f.tfhd == CanonicalTfhd(f.trackId, f.descriptionIndex) && f.trackId != 0 && f.descriptionIndex != 0
            && f.timescale != 0 && f.runs != [] && f.startsWithSync == f.runs[0].startsWithSync
  {
    assert fs[0] in fs && Attached(fs[0]);
  }

  lemma RereadFirst(runs: seq<Run>, base: int)
    requires runs != []
    ensures RereadRuns(runs, base) != [] && RereadRuns(runs, base)[0].startsWithSync == runs[0].startsWithSync
  {}

  lemma TrafFieldsStart(d: bytes, tfhd: Tfhd, time: u64, runs: seq<Run>, base: int)
    requires forall r | r in runs :: RunOk(r)
    requires WriteTruns(runs, base).Ok? && 48 <= |d| <= I32_MAX && d[48..] == WriteTruns(runs, base).value
    requires TryReadBox(d, 8) == Some(BoxRef(TFHD, 8, d[8..28], 28)) && ParseTfhd(d[8..28], 8) == Ok(tfhd)
    requires TryReadBox(d, 28) == Some(BoxRef(TFDT, 8, d[28..48], 48)) && ReadTfdt(d[28..48], 8) == Some(time)
    ensures TrafFields(d, 8, None, None) == Ok((Some(tfhd), Some(time)))
  {
    hide TryReadBox, ParseTfhd, ReadTfdt, WriteTruns, RunOk;
    WrittenTrunsAddNoFields(d, 48, runs, base, Some(tfhd), Some(time));
    assert TrafFields(d, 28, Some(tfhd), None) == TrafFields(d, 48, Some(tfhd), Some(time));
  }

  lemma TrafRunsStart(d: bytes, t: TrunDefaults, runs: seq<Run>, base: int)
    requires forall r | r in runs :: RunOk(r)
    requires WriteTruns(runs, base).Ok? && 48 <= |d| <= I32_MAX && d[48..] == WriteTruns(runs, base).value
    requires TryReadBox(d, 8) == Some(BoxRef(TFHD, 8, d[8..28], 28))
    requires TryReadBox(d, 28) == Some(BoxRef(TFDT, 8, d[28..48], 48))
    ensures var r := TrafRuns(d, 8, t, 0);
            if Rereadable(runs, 0) then r == Ok(RereadRuns(runs, base)) else r.Err?
  {
    hide TryReadBox, NormalizedTrun, WriteTruns, RunOk, Rereadable, RereadRuns;
    WrittenTrunsReadBack(d, 48, runs, base, t, 0);
    assert TrafRuns(d, 28, t, 0) == TrafRuns(d, 48, t, 0);
  }
}
