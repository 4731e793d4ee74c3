/**
 * Reading boxes: `moof` with one `traf` (sections 8.8.4-8.8.8 and 8.8.12 of ISO/IEC 14496-12) and the
 * tracks of the initialization. Each cursor loop is a method proved against the function of the same shape.
 */
module Mp4Parse {
  import opened Bytes
  import opened Mp4Types

  /** A box found at a position: its type, header size, all its bytes, and where the next one starts. */
  datatype BoxRef = BoxRef(kind: u32, header: nat, body: bytes, next: nat)

  function TryReadBox(d: bytes, start: nat): (r: Option<BoxRef>)
    ensures r.Some? ==> start + 8 <= r.value.next <= |d| && r.value.body == d[start..r.value.next]
    ensures r.Some? ==> r.value.header <= |r.value.body| && r.value.header in {8, 16}
  {
    if start > |d| || |d| - start < 8 then None else
    var size32: int := ReadBe32(d, start);
    var kind := ReadBe32(d, start + 4);
    if size32 == 1 && |d| - start < 16 then None else
    var size: int := if size32 == 1 then ReadBe64(d, start + 8) else if size32 == 0 then |d| - start else size32;
    var header: nat := if size32 == 1 then 16 else 8;
    if size < header || size > I32_MAX || size > |d| - start then None else
    Some(BoxRef(kind, header, d[start..start + size], start + size))
  }

  // ----- trun -----

  datatype TrunDefaults = TrunDefaults(duration: u32, size: u32, flags: u32, durationIsHint: bool)

  datatype TrunLayout = TrunLayout(
    hasDuration: bool, hasSize: bool, hasFlags: bool, hasOffsets: bool, firstFlags: Option<u32>)

  function Word(present: bool): nat { if present then 4 else 0 }

  function EntrySize(l: TrunLayout): nat {
    Word(l.hasDuration) + Word(l.hasSize) + Word(l.hasFlags) + Word(l.hasOffsets)
  }

  predicate TrunFlagsKnown(flags: u32) {
    flags < 0x1000 && !Bit(flags, 2) && flags / 8 % 0x20 == 0
  }

  function AsI32(v: u32): int {
    if v > I32_MAX then v as int - 0x1_0000_0000 else v
  }

  function SampleAt(d: bytes, at: nat, first: bool, t: TrunDefaults, l: TrunLayout): Sample
    requires at + EntrySize(l) <= |d|
  {
    var atSize := at + Word(l.hasDuration);
    var atFlags := atSize + Word(l.hasSize);
    var atOffset := atFlags + Word(l.hasFlags);
    Sample(
      if l.hasDuration then ReadBe32(d, at) else t.duration,
      if l.hasSize then ReadBe32(d, atSize) else t.size,
      if l.hasFlags then ReadBe32(d, atFlags)
      else if first && l.firstFlags.Some? then l.firstFlags.value else t.flags,
      if l.hasOffsets then ReadBe32(d, atOffset) else 0)
  }

  /** The bytes of `n` entries. */
  function EntriesSize(n: nat, l: TrunLayout): nat {
    if n == 0 then 0 else EntriesSize(n - 1, l) + EntrySize(l)
  }

  lemma {:induction false} EntriesSizeIsProduct(n: nat, l: TrunLayout)
    ensures EntriesSize(n, l) == n * EntrySize(l)
  {
    if n > 0 {
      EntriesSizeIsProduct(n - 1, l);
    }
  }

  lemma {:induction false} EntriesSizeMonotone(m: nat, n: nat, l: TrunLayout)
    requires m <= n
    ensures EntriesSize(m, l) <= EntriesSize(n, l)
  {
    if m < n {
      EntriesSizeMonotone(m, n - 1, l);
    }
  }

  function ReadSamples(d: bytes, at: nat, n: nat, t: TrunDefaults, l: TrunLayout): (r: seq<Sample>)
    requires at + EntriesSize(n, l) <= |d|
    ensures |r| == n
  {
    if n == 0 then [] else
    ReadSamples(d, at, n - 1, t, l) + [SampleAt(d, at + EntriesSize(n - 1, l), n == 1, t, l)]
  }

  /** The fields of a `trun` before its entries; `cursor` is where the entries start. */
  datatype TrunHead = TrunHead(version: byte, count: u32, dataOffset: Option<int>, layout: TrunLayout, cursor: nat)

  function ReadTrunHead(d: bytes, header: nat, t: TrunDefaults): Result<TrunHead> {
    if |d| < header + 8 then Err(SmallTrun) else
    var flags: u32 := ReadBe32(d, header) % 0x100_0000;
    var version: byte := ReadBe32(d, header) / 0x100_0000;
    if version > 1 then Err(TrunVersion) else
    if !TrunFlagsKnown(flags) then Err(TrunFlags) else
    var count: u32 := ReadBe32(d, header + 4);
    if count == 0 then Err(EmptyTrun) else
    var at := header + 8 + Word(Bit(flags, 1));
    if at > |d| then Err(InvalidTrunField) else
    var dataOffset := if Bit(flags, 1) then Some(AsI32(ReadBe32(d, header + 8))) else None;
    if Bit(flags, 4) && Bit(flags, 0x400) then Err(FirstAndSampleFlags) else
    if Bit(flags, 4) && at + 4 > |d| then Err(InvalidTrunField) else
    var firstFlags := if Bit(flags, 4) then Some(ReadBe32(d, at)) else None;
    var l := TrunLayout(Bit(flags, 0x100), Bit(flags, 0x200), Bit(flags, 0x400), Bit(flags, 0x800), firstFlags);
    if !l.hasDuration && t.duration == 0 then Err(NoSampleDuration) else
    if !l.hasSize && t.size == 0 then Err(NoSampleSize) else
    if count > MAX_TRUN_SAMPLES then Err(TooManySamples) else
    Ok(TrunHead(version, count, dataOffset, l, at + Word(Bit(flags, 4))))
  }

  /** What `normalize_trun` answers for the box `d` with a header of `header` bytes. */
  function NormalizedTrun(d: bytes, header: nat, t: TrunDefaults): Result<Run> {
    match ReadTrunHead(d, header, t)
    case Err(e) => Err(e)
    case Ok(h) =>
      if h.cursor + EntriesSize(h.count, h.layout) != |d| then Err(InvalidTrunBody) else
      var samples := ReadSamples(d, h.cursor, h.count, t, h.layout);
      if SumDurations(samples) == 0 || SumSizes(samples) == 0 then Err(InvalidTrunBody) else
      Ok(Run(h.dataOffset, samples, h.version, h.layout.hasOffsets, SumDurations(samples), SumSizes(samples), 0, 0,
             samples != [] && IsSyncSample(samples[0].flags), !h.layout.hasDuration && t.durationIsHint))
  }

  lemma {:induction false} ReadSamplesOffsets(d: bytes, at: nat, n: nat, t: TrunDefaults, l: TrunLayout)
    requires at + EntriesSize(n, l) <= |d|
    requires !l.hasOffsets
    ensures forall i | 0 <= i < n :: ReadSamples(d, at, n, t, l)[i].offset == 0
  {
    if n > 0 {
      ReadSamplesOffsets(d, at, n - 1, t, l);
    }
  }

  lemma NormalizedTrunOk(d: bytes, header: nat, t: TrunDefaults)
    requires NormalizedTrun(d, header, t).Ok?
    ensures RunOk(NormalizedTrun(d, header, t).value)
  {
    var h := ReadTrunHead(d, header, t).value;
    if !h.layout.hasOffsets {
      ReadSamplesOffsets(d, h.cursor, h.count, t, h.layout);
    }
  }

  lemma NoTotals()
    ensures SumDurations([]) == 0 && SumSizes([]) == 0
  {}

  lemma Appended(samples: seq<Sample>, sample: Sample)
    ensures SumDurations(samples + [sample]) == SumDurations(samples) + sample.duration as int
    ensures SumSizes(samples + [sample]) == SumSizes(samples) + sample.size as int
  {
    assert (samples + [sample])[..|samples|] == samples;
  }

  method NormalizeTrun(d: bytes, header: nat, t: TrunDefaults) returns (r: Result<Run>)
    ensures r == NormalizedTrun(d, header, t)
  {
    hide ReadTrunHead, SampleAt, IsSyncSample, EntrySize, SumDurations, SumSizes;
    NoTotals();
    var head := ReadTrunHead(d, header, t);
    if head.Err? { return Err(head.error); }
    var h := head.value;
    EntriesSizeIsProduct(h.count, h.layout);
    if h.cursor + h.count * EntrySize(h.layout) != |d| { return Err(InvalidTrunBody); }
    var samples: seq<Sample>, duration: nat, size: nat, firstFlags: u32 := [], 0, 0, 0;
    var cursor := h.cursor;
    for index := 0 to h.count
      invariant cursor == h.cursor + EntriesSize(index, h.layout)
      invariant EntriesSize(index, h.layout) <= EntriesSize(h.count, h.layout)
      invariant samples == ReadSamples(d, h.cursor, index, t, h.layout)
      invariant duration == SumDurations(samples) && size == SumSizes(samples)
      invariant index > 0 ==> firstFlags == samples[0].flags
    {
      EntriesSizeMonotone(index + 1, h.count, h.layout);
      var sample := SampleAt(d, cursor, index == 0, t, h.layout);
      Appended(samples, sample);
      if index == 0 { firstFlags := sample.flags; }
      duration := duration + sample.duration as int;
      size := size + sample.size as int;
      samples := samples + [sample];
      cursor := cursor + EntrySize(h.layout);
    }
    if duration == 0 || size == 0 { return Err(InvalidTrunBody); }
    return Ok(Run(h.dataOffset, samples, h.version, h.layout.hasOffsets, duration, size, 0, 0,
                  IsSyncSample(firstFlags), !h.layout.hasDuration && t.durationIsHint));
  }

  // ----- tfhd and tfdt -----

  datatype Tfhd = Tfhd(
    trackId: u32, descriptionIndex: Option<u32>, duration: u32, size: u32, flags: Option<u32>)

  predicate TfhdFlagsKnown(flags: u32) {
    flags < 0x4_0000 && !Bit(flags, 4) && flags / 0x40 % 0x400 == 0
  }

  /** The optional field at `at`: its value and where the next field starts. */
  function OptionalField(d: bytes, at: nat, present: bool): (r: Option<(Option<u32>, nat)>)
    ensures r.Some? && present ==> r.value.0.Some?
  {
    if !present then Some((None, at)) else
    if at + 4 > |d| then None else
    Some((Some(ReadBe32(d, at)), at + 4))
  }

  function OrZero(v: Option<u32>): u32 { if v.Some? then v.value else 0 }

  function ParseTfhd(d: bytes, header: nat): Result<Tfhd> {
    if |d| < header + 8 then Err(SmallTfhd) else
    var flags: u32 := ReadBe32(d, header) % 0x100_0000;
    if ReadBe32(d, header) / 0x100_0000 != 0 then Err(TfhdVersion) else
    if !TfhdFlagsKnown(flags) then Err(TfhdFlags) else
    if Bit(flags, 1) then Err(TfhdBaseOffset) else
    if Bit(flags, 0x1_0000) then Err(TfhdEmptyDuration) else
    var trackId := ReadBe32(d, header + 4);
    if trackId == 0 then Err(ZeroTrackId) else
    var index := OptionalField(d, header + 8, Bit(flags, 2));
    if index.None? || index.value.0 == Some(0) then Err(InvalidTfhdField) else
    var duration := OptionalField(d, index.value.1, Bit(flags, 8));
    if duration.None? then Err(InvalidTfhdField) else
    var size := OptionalField(d, duration.value.1, Bit(flags, 0x10));
    if size.None? then Err(InvalidTfhdField) else
    var sampleFlags := OptionalField(d, size.value.1, Bit(flags, 0x20));
    if sampleFlags.None? then Err(InvalidTfhdField) else
    if sampleFlags.value.1 != |d| then Err(InvalidTfhdBody) else
    Ok(Tfhd(trackId, index.value.0, OrZero(duration.value.0), OrZero(size.value.0), sampleFlags.value.0))
  }

  function ReadTfdt(d: bytes, header: nat): Option<u64> {
    if |d| < header + 8 then None else
    if d[header] == 1 then (if |d| >= header + 12 then Some(ReadBe64(d, header + 4)) else None) else
    if d[header] == 0 then Some(ReadBe32(d, header + 4)) else None
  }

  // ----- traf -----

  /** First pass over a `traf`: its `tfhd` and `tfdt`, each at most once, and no foreign box. */
  function TrafFields(d: bytes, at: nat, tfhd: Option<Tfhd>, time: Option<u64>)
    : Result<(Option<Tfhd>, Option<u64>)>
    decreases |d| - at
  {
    match TryReadBox(d, at)
    case None => Ok((tfhd, time))
    case Some(b) =>
      if b.kind == TFHD then
        if tfhd.Some? then Err(DuplicateTfhd) else
        match ParseTfhd(b.body, b.header)
        case Err(e) => Err(e)
        case Ok(v) => TrafFields(d, b.next, Some(v), time)
      else if b.kind == TFDT then
        if time.Some? then Err(DuplicateTfdt) else
        var v := ReadTfdt(b.body, b.header);
        if v.None? then Err(InvalidTfdt) else TrafFields(d, b.next, tfhd, v)
      else if b.kind == TRUN then TrafFields(d, b.next, tfhd, time)
      else Err(UnsupportedTrafChild)
  }

  /** Second pass: the runs, `total` being the duration of those before `at`. */
  function TrafRuns(d: bytes, at: nat, t: TrunDefaults, total: nat): Result<seq<Run>>
    decreases |d| - at
  {
    match TryReadBox(d, at)
    case None => Ok([])
    case Some(b) =>
      if b.kind != TRUN then TrafRuns(d, b.next, t, total) else
      match NormalizedTrun(b.body, b.header, t)
      case Err(e) => Err(e)
      case Ok(run) =>
        if total + run.duration > U64_MAX then Err(FragmentDurationOverflow) else
        match TrafRuns(d, b.next, t, total + run.duration)
        case Err(e) => Err(e)
        case Ok(rest) => Ok([run] + rest)
  }

  /** The track a `tfhd` names, with its duration hint. */
  function TrackOf(trackId: u32, video: TrackIds, audio: TrackIds, videoHint: u32, audioHint: u32)
    : Option<(TrackIds, u32)>
  {
    if trackId == video.id then Some((video, videoHint))
    else if audio.id != 0 && trackId == audio.id then Some((audio, audioHint))
    else None
  }

  /** Duration fallback: `tfhd`, then `trex`, then the hint. */
  function DefaultsFor(tfhd: Tfhd, trex: Trex, hint: u32): TrunDefaults {
    var known := if tfhd.duration != 0 then tfhd.duration else trex.duration;
    TrunDefaults(
      if known != 0 then known else hint,
      if tfhd.size == 0 then trex.size else tfhd.size,
      if tfhd.flags.Some? then tfhd.flags.value else trex.flags,
      known == 0 && hint != 0)
  }

  predicate AnyInferred(rs: seq<Run>) { exists r | r in rs :: r.inferred }

  function ParsedTraf(d: bytes, header: nat, video: TrackIds, audio: TrackIds, videoHint: u32, audioHint: u32)
    : Result<Fragment>
  {
    match TrafFields(d, header, None, None)
    case Err(e) => Err(e)
    case Ok(fields) =>
      if fields.0.None? || fields.1.None? then Err(NoTfhdOrTfdt) else
      var tfhd := fields.0.value;
      var track := TrackOf(tfhd.trackId, video, audio, videoHint, audioHint);
      if track.None? then Err(UnsupportedTrack) else
      var (ids, hint) := track.value;
      if ids.timescale == 0 then Err(ZeroTimescale) else
      var index := if tfhd.descriptionIndex.Some? then tfhd.descriptionIndex.value else ids.trex.descriptionIndex;
      if index == 0 then Err(NoDescriptionIndex) else
      match TrafRuns(d, header, DefaultsFor(tfhd, ids.trex, hint), 0)
      case Err(e) => Err(e)
      case Ok(runs) =>
        if runs == [] || RunsDuration(runs) == 0 || RunsDuration(runs) > U64_MAX then Err(NoTrunOrDuration) else
        Ok(Fragment(tfhd.trackId, ids.timescale, fields.1.value, RunsDuration(runs), runs[0].startsWithSync,
                    index, CanonicalTfhd(tfhd.trackId, index), runs, 0, 0, AnyInferred(runs)))
  }

  lemma {:induction false} TrafFieldsTrack(d: bytes, at: nat, tfhd: Option<Tfhd>, time: Option<u64>)
    requires tfhd.Some? ==> tfhd.value.trackId != 0
    ensures var r := TrafFields(d, at, tfhd, time);
            r.Ok? && r.value.0.Some? ==> r.value.0.value.trackId != 0
    decreases |d| - at
  {
    match TryReadBox(d, at)
    case None =>
    case Some(b) =>
      if b.kind == TFHD {
        match ParseTfhd(b.body, b.header)
        case Err(_) =>
        case Ok(v) => TrafFieldsTrack(d, b.next, Some(v), time);
      } else if b.kind == TFDT {
        TrafFieldsTrack(d, b.next, tfhd, ReadTfdt(b.body, b.header));
      } else {
        TrafFieldsTrack(d, b.next, tfhd, time);
      }
  }

  /** Well-formed runs whose durations still fit after `total`. */
  ghost predicate RunsFit(rs: seq<Run>, total: nat) {
    && (forall run | run in rs :: RunOk(run))
    && (rs != [] ==> total + RunsDuration(rs) <= U64_MAX)
  }

  lemma RunsFitPrepend(run: Run, rest: seq<Run>, total: nat)
    requires RunOk(run) && total + run.duration <= U64_MAX
    requires RunsFit(rest, total + run.duration)
    ensures RunsFit([run] + rest, total)
  {
    RunsDurationConcat([run], rest);
    assert [run][..0] == [];
    assert RunsDuration([run]) == run.duration;
  }

  lemma {:induction false} TrafRunsOk(d: bytes, at: nat, t: TrunDefaults, total: nat)
    ensures TrafRuns(d, at, t, total).Ok? ==> RunsFit(TrafRuns(d, at, t, total).value, total)
    decreases |d| - at
  {
    hide NormalizedTrun, TryReadBox, RunOk;
    var next := TryReadBox(d, at);
    if next.Some? {
      var b := next.value;
      if b.kind != TRUN {
        TrafRunsOk(d, b.next, t, total);
      } else {
        var run := NormalizedTrun(b.body, b.header, t);
        if run.Ok? {
          NormalizedTrunOk(b.body, b.header, t);
          if total + run.value.duration <= U64_MAX {
            TrafRunsOk(d, b.next, t, total + run.value.duration);
            var rest := TrafRuns(d, b.next, t, total + run.value.duration);
            if rest.Ok? {
              RunsFitPrepend(run.value, rest.value, total);
            }
          }
        }
      }
    }
  }

  /** A parsed `traf` has nonempty runs whose totals match their samples, and a canonical `tfhd`. */
  lemma ParsedTrafOk(d: bytes, header: nat, video: TrackIds, audio: TrackIds, videoHint: u32, audioHint: u32)
    ensures var r := ParsedTraf(d, header, video, audio, videoHint, audioHint);
            r.Ok? ==> FragmentOk(r.value) &&
                      (r.value.trackId == video.id || (audio.id != 0 && r.value.trackId == audio.id))
  {
    TrafFieldsTrack(d, header, None, None);
    match TrafFields(d, header, None, None)
    case Err(_) =>
    case Ok(fields) =>
      if fields.0.Some? {
        var track := TrackOf(fields.0.value.trackId, video, audio, videoHint, audioHint);
        if track.Some? {
          TrafRunsOk(d, header, DefaultsFor(fields.0.value, track.value.0.trex, track.value.1), 0);
        }
      }
  }

  method ParseTraf(d: bytes, header: nat, video: TrackIds, audio: TrackIds, videoHint: u32, audioHint: u32)
    returns (r: Result<Fragment>)
    ensures r == ParsedTraf(d, header, video, audio, videoHint, audioHint)
  {
    var tfhd: Option<Tfhd>, time: Option<u64> := None, None;
    var position := header;
    var next := TryReadBox(d, position);
    while next.Some?
      invariant next == TryReadBox(d, position)
      invariant TrafFields(d, header, None, None) == TrafFields(d, position, tfhd, time)
      decreases |d| - position
    {
      var b := next.value;
      if b.kind == TFHD {
        if tfhd.Some? { return Err(DuplicateTfhd); }
        var v := ParseTfhd(b.body, b.header);
        if v.Err? { return Err(v.error); }
        tfhd := Some(v.value);
      } else if b.kind == TFDT {
        if time.Some? { return Err(DuplicateTfdt); }
        time := ReadTfdt(b.body, b.header);
        if time.None? { return Err(InvalidTfdt); }
      } else if b.kind != TRUN {
        return Err(UnsupportedTrafChild);
      }
      position := b.next;
      next := TryReadBox(d, position);
    }
    if tfhd.None? || time.None? { return Err(NoTfhdOrTfdt); }
    var track := TrackOf(tfhd.value.trackId, video, audio, videoHint, audioHint);
    if track.None? { return Err(UnsupportedTrack); }
    var (ids, hint) := track.value;
    if ids.timescale == 0 { return Err(ZeroTimescale); }
    var index := if tfhd.value.descriptionIndex.Some? then tfhd.value.descriptionIndex.value
                 else ids.trex.descriptionIndex;
    if index == 0 { return Err(NoDescriptionIndex); }
    var runs, duration, inferred := CollectRuns(d, header, DefaultsFor(tfhd.value, ids.trex, hint));
    if runs.Err? { return Err(runs.error); }
    TrafRunsOk(d, header, DefaultsFor(tfhd.value, ids.trex, hint), 0);
    if runs.value == [] || duration == 0 { return Err(NoTrunOrDuration); }
    return Ok(Fragment(tfhd.value.trackId, ids.timescale, time.value, duration, runs.value[0].startsWithSync,
                       index, CanonicalTfhd(tfhd.value.trackId, index), runs.value, 0, 0, inferred));
  }

  method CollectRuns(d: bytes, header: nat, t: TrunDefaults)
    returns (r: Result<seq<Run>>, duration: nat, inferred: bool)
    ensures r == TrafRuns(d, header, t, 0)
    ensures r.Ok? ==> duration == RunsDuration(r.value) && inferred == AnyInferred(r.value)
  {
    hide NormalizedTrun, TryReadBox, RunOk, AnyInferred;
    assert !AnyInferred([]) by { AnyInferredNone(); }
    var runs: seq<Run> := [];
    duration, inferred := 0, false;
    var position := header;
    var next := TryReadBox(d, position);
    PrependedNone(TrafRuns(d, header, t, 0));
    while next.Some?
      invariant next == TryReadBox(d, position)
      invariant duration == RunsDuration(runs) && inferred == AnyInferred(runs)
      invariant Prepended(runs, TrafRuns(d, position, t, duration)) == TrafRuns(d, header, t, 0)
      decreases |d| - position
    {
      var b := next.value;
      if b.kind == TRUN {
        var run := NormalizeTrun(b.body, b.header, t);
        if run.Err? { r := Err(run.error); return; }
        NormalizedTrunOk(b.body, b.header, t);
        if duration + run.value.duration > U64_MAX { r := Err(FragmentDurationOverflow); return; }
        PrependedMore(runs, run.value, TrafRuns(d, b.next, t, duration + run.value.duration));
        assert (runs + [run.value])[..|runs + [run.value]| - 1] == runs;
        AnyInferredMore(runs, run.value);
        inferred := inferred || run.value.inferred;
        duration := duration + run.value.duration;
        runs := runs + [run.value];
      }
      position := b.next;
      next := TryReadBox(d, position);
    }
    assert runs + [] == runs;
    r := Ok(runs);
  }

  function Prepended(front: seq<Run>, r: Result<seq<Run>>): Result<seq<Run>> {
    match r
    case Err(e) => Err(e)
    case Ok(rest) => Ok(front + rest)
  }

  lemma PrependedNone(r: Result<seq<Run>>)
    ensures Prepended([], r) == r
  {
    if r.Ok? {
      assert [] + r.value == r.value;
    }
  }

  lemma PrependedMore(front: seq<Run>, run: Run, r: Result<seq<Run>>)
    ensures Prepended(front, Prepended([run], r)) == Prepended(front + [run], r)
  {
    if r.Ok? {
      assert front + ([run] + r.value) == front + [run] + r.value;
    }
  }

  lemma AnyInferredNone()
    ensures !AnyInferred([])
  {}

  lemma AnyInferredMore(runs: seq<Run>, run: Run)
    ensures AnyInferred(runs + [run]) == (AnyInferred(runs) || run.inferred)
  {
    if AnyInferred(runs) {
      var r :| r in runs && r.inferred;
      assert r in runs + [run];
    }
    if run.inferred { assert run in runs + [run]; }
  }

  // ----- moof -----

  function MoofTraf(
    d: bytes, at: nat, found: Option<Fragment>,
    video: TrackIds, audio: TrackIds, videoHint: u32, audioHint: u32): Result<Option<Fragment>>
    decreases |d| - at
  {
    match TryReadBox(d, at)
    case None => Ok(found)
    case Some(b) =>
      if b.kind != TRAF then MoofTraf(d, b.next, found, video, audio, videoHint, audioHint) else
      if found.Some? then Err(SeveralTrafs) else
      match ParsedTraf(b.body, b.header, video, audio, videoHint, audioHint)
      case Err(e) => Err(e)
      case Ok(f) => MoofTraf(d, b.next, Some(f), video, audio, videoHint, audioHint)
  }

  function ParsedMoof(d: bytes, video: TrackIds, audio: TrackIds, videoHint: u32, audioHint: u32): Result<Fragment> {
    var root := TryReadBox(d, 0);
    if root.None? || root.value.kind != MOOF || root.value.next != |d| then Err(NotOneMoof) else
    match MoofTraf(root.value.body, root.value.header, None, video, audio, videoHint, audioHint)
    case Err(e) => Err(e)
    case Ok(None) => Err(NoTraf)
    case Ok(Some(f)) => Ok(f)
  }

  ghost predicate TrackFragment(f: Fragment, video: TrackIds, audio: TrackIds) {
    FragmentOk(f) && (f.trackId == video.id || (audio.id != 0 && f.trackId == audio.id))
  }

  lemma {:induction false} MoofTrafOk(
    d: bytes, at: nat, found: Option<Fragment>,
    video: TrackIds, audio: TrackIds, videoHint: u32, audioHint: u32)
    requires found.Some? ==> TrackFragment(found.value, video, audio)
    ensures var r := MoofTraf(d, at, found, video, audio, videoHint, audioHint);
            r.Ok? && r.value.Some? ==> TrackFragment(r.value.value, video, audio)
    decreases |d| - at
  {
    match TryReadBox(d, at)
    case None =>
    case Some(b) =>
      if b.kind != TRAF {
        MoofTrafOk(d, b.next, found, video, audio, videoHint, audioHint);
      } else if found.None? {
        ParsedTrafOk(b.body, b.header, video, audio, videoHint, audioHint);
        match ParsedTraf(b.body, b.header, video, audio, videoHint, audioHint)
        case Err(_) =>
        case Ok(f) => MoofTrafOk(d, b.next, Some(f), video, audio, videoHint, audioHint);
      }
  }

  lemma ParsedMoofOk(d: bytes, video: TrackIds, audio: TrackIds, videoHint: u32, audioHint: u32)
    ensures var r := ParsedMoof(d, video, audio, videoHint, audioHint);
            r.Ok? ==> TrackFragment(r.value, video, audio)
  {
    var root := TryReadBox(d, 0);
    if root.Some? {
      MoofTrafOk(root.value.body, root.value.header, None, video, audio, videoHint, audioHint);
    }
  }

  method ParseMoof(d: bytes, video: TrackIds, audio: TrackIds, videoHint: u32, audioHint: u32)
    returns (r: Result<Fragment>)
    ensures r == ParsedMoof(d, video, audio, videoHint, audioHint)
  {
    var root := TryReadBox(d, 0);
    if root.None? || root.value.kind != MOOF || root.value.next != |d| { return Err(NotOneMoof); }
    var moof := root.value.body;
    var position := root.value.header;
    var found: Option<Fragment> := None;
    var next := TryReadBox(moof, position);
    while next.Some?
      invariant next == TryReadBox(moof, position)
      invariant MoofTraf(moof, root.value.header, None, video, audio, videoHint, audioHint)
             == MoofTraf(moof, position, found, video, audio, videoHint, audioHint)
      decreases |moof| - position
    {
      var b := next.value;
      if b.kind == TRAF {
        if found.Some? { return Err(SeveralTrafs); }
        var f := ParseTraf(b.body, b.header, video, audio, videoHint, audioHint);
        if f.Err? { return f; }
        found := Some(f.value);
      }
      position := b.next;
      next := TryReadBox(moof, position);
    }
    if found.None? { return Err(NoTraf); }
    return Ok(found.value);
  }

  // ----- initialization tracks -----

  /** The boxes read one after the other from `at`, up to the first that does not fit. */
  function Boxes(d: bytes, at: nat): seq<BoxRef>
    decreases |d| - at
  {
    match TryReadBox(d, at)
    case None => []
    case Some(b) => [b] + Boxes(d, b.next)
  }

  function VersionedField(d: bytes, header: nat): u32 {
    if header >= |d| || d[header] > 1 then 0 else
    var at := header + (if d[header] == 1 then 20 else 12);
    if |d| >= at + 4 then ReadBe32(d, at) else 0
  }

  /** Timescale and handler from the children of `mdia`; a later box overrides an earlier one. */
  function MediaFields(boxes: seq<BoxRef>, timescale: u32, handler: u32): (u32, u32) {
    if boxes == [] then (timescale, handler) else
    var b := boxes[0];
    if b.kind == MDHD then MediaFields(boxes[1..], VersionedField(b.body, b.header), handler) else
    if b.kind == HDLR then
      MediaFields(boxes[1..], timescale,
                  if |b.body| >= b.header + 12 then ReadBe32(b.body, b.header + 8) else 0)
    else MediaFields(boxes[1..], timescale, handler)
  }

  /** Track id, timescale and handler from the children of `trak`. */
  function TrackFields(boxes: seq<BoxRef>, id: u32, timescale: u32, handler: u32): (u32, u32, u32) {
    if boxes == [] then (id, timescale, handler) else
    var b := boxes[0];
    if b.kind == TKHD then TrackFields(boxes[1..], VersionedField(b.body, b.header), timescale, handler) else
    if b.kind == MDIA then
      var media := MediaFields(Boxes(b.body, b.header), timescale, handler);
      TrackFields(boxes[1..], id, media.0, media.1)
    else TrackFields(boxes[1..], id, timescale, handler)
  }

  function ReadTrex(d: bytes, header: nat): Option<(u32, Trex)> {
    if |d| < header + 24 then None else
    var id := ReadBe32(d, header + 4);
    var index := ReadBe32(d, header + 8);
    if id == 0 || index == 0 then None else
    Some((id, Trex(index, ReadBe32(d, header + 12), ReadBe32(d, header + 16), ReadBe32(d, header + 20))))
  }

  function TrexEntries(boxes: seq<BoxRef>, found: seq<(u32, Trex)>): Result<seq<(u32, Trex)>> {
    if boxes == [] then Ok(found) else
    if boxes[0].kind != TREX then TrexEntries(boxes[1..], found) else
    var entry := ReadTrex(boxes[0].body, boxes[0].header);
    if entry.None? then Err(InvalidTrex) else TrexEntries(boxes[1..], found + [entry.value])
  }

  datatype InitTracks = InitTracks(video: (u32, u32), audio: (u32, u32), trex: seq<(u32, Trex)>)

  function MoovFields(boxes: seq<BoxRef>, t: InitTracks): Result<InitTracks> {
    if boxes == [] then Ok(t) else
    var b := boxes[0];
    if b.kind == TRAK then
      var (id, timescale, handler) := TrackFields(Boxes(b.body, b.header), 0, 0, 0);
      if handler == HANDLER_VIDEO then
        if t.video.0 != 0 then Err(SeveralVideoTracks) else MoovFields(boxes[1..], t.(video := (id, timescale)))
      else if handler == HANDLER_AUDIO then
        if t.audio.0 != 0 then Err(SeveralAudioTracks) else MoovFields(boxes[1..], t.(audio := (id, timescale)))
      else MoovFields(boxes[1..], t)
    else if b.kind == MVEX then
      match TrexEntries(Boxes(b.body, b.header), t.trex)
      case Err(e) => Err(e)
      case Ok(trex) => MoovFields(boxes[1..], t.(trex := trex))
    else MoovFields(boxes[1..], t)
  }

  /** The first entry for a track wins; without one the defaults are all zero. */
  function TrexFor(entries: seq<(u32, Trex)>, id: u32): Trex {
    if entries == [] then NO_TRACK.trex else
    if entries[0].0 == id then entries[0].1 else TrexFor(entries[1..], id)
  }

  function FindMoov(boxes: seq<BoxRef>): Option<BoxRef> {
    if boxes == [] then None else
    if boxes[0].kind == MOOV then Some(boxes[0]) else FindMoov(boxes[1..])
  }

  /** `parse_init_tracks`: the video track, and the audio track if there is one. */
  function ParseInitTracks(init: bytes): Result<(TrackIds, TrackIds)> {
    var moov := FindMoov(Boxes(init, 0));
    if moov.None? then Err(NoMoov) else
    match MoovFields(Boxes(moov.value.body, moov.value.header), InitTracks((0, 0), (0, 0), []))
    case Err(e) => Err(e)
    case Ok(t) =>
      if t.video.0 == 0 || t.video.1 == 0 then Err(NoVideoTrack) else
      var video := TrackIds(t.video.0, t.video.1, TrexFor(t.trex, t.video.0));
      if t.audio.0 == 0 then Ok((video, NO_TRACK)) else
      if t.audio.1 == 0 then Err(ZeroAudioTimescale) else
      Ok((video, TrackIds(t.audio.0, t.audio.1, TrexFor(t.trex, t.audio.0))))
  }
}
