/** Fragments, runs and samples of the fragmented-MP4 reader, and the facts every queued fragment keeps. */
module Mp4Types {
  import opened Bytes

  const STYP: u32 := 0x7374_7970
  const SIDX: u32 := 0x7369_6478
  const EMSG: u32 := 0x656d_7367
  const FREE: u32 := 0x6672_6565
  const PRFT: u32 := 0x7072_6674
  const MOOV: u32 := 0x6d6f_6f76
  const MOOF: u32 := 0x6d6f_6f66
  const MDAT: u32 := 0x6d64_6174
  const MFHD: u32 := 0x6d66_6864
  const TRAF: u32 := 0x7472_6166
  const TFHD: u32 := 0x7466_6864
  const TFDT: u32 := 0x7466_6474
  const TRUN: u32 := 0x7472_756e
  const TRAK: u32 := 0x7472_616b
  const TKHD: u32 := 0x746b_6864
  const MDIA: u32 := 0x6d64_6961
  const MDHD: u32 := 0x6d64_6864
  const HDLR: u32 := 0x6864_6c72
  const MVEX: u32 := 0x6d76_6578
  const TREX: u32 := 0x7472_6578
  const MFRA: u32 := 0x6d66_7261
  const HANDLER_VIDEO: u32 := 0x7669_6465
  const HANDLER_AUDIO: u32 := 0x736f_756e

  const MAX_TRUN_SAMPLES: int := 1_000_000
  const CANONICAL_TFHD_SIZE: int := 20
  const NANOSECONDS: int := 1_000_000_000

  /** One value per error the reader reports. */
  datatype Error =
    | ZeroBoxSize | InvalidBoxSize | BoxTooLarge | MdatBeforeInit | MfraBeforeInit
    | BoxAfterFinalMoov | OnlyMoovAfterMfra | MoofBeforeMdat | MdatWithoutMoof
    | StypInsideFragment | MfraInsideFragment | DuplicateMfra | UnexpectedMoov | DuplicateMoov
    | MoovInsideFragment | UnsupportedBox | IncompleteInit | DeferredNotConsumed
    | NotOneMoof | SeveralTrafs | NoTraf | DuplicateTfhd | DuplicateTfdt | InvalidTfdt
    | UnsupportedTrafChild | NoTfhdOrTfdt | UnsupportedTrack | ZeroTimescale | NoDescriptionIndex
    | FragmentDurationOverflow | NoTrunOrDuration
    | SmallTfhd | TfhdVersion | TfhdFlags | TfhdBaseOffset | TfhdEmptyDuration | ZeroTrackId
    | InvalidTfhdField | InvalidTfhdBody
    | SmallTrun | TrunVersion | TrunFlags | EmptyTrun | InvalidTrunField | FirstAndSampleFlags
    | NoSampleDuration | NoSampleSize | TooManySamples | InvalidTrunBody
    | NoMoov | SeveralVideoTracks | SeveralAudioTracks | InvalidTrex | NoVideoTrack
    | ZeroAudioTimescale
    | InferredMarkerMissing | InvalidInferredDuration | DecodeTimeBackwards | InferredTooLong
    | NonContiguousMdat | MdatSizeMismatch
    | NonSyncStart | InvalidTimeline | AudioOverflow | AudioDurationMismatch | InvalidSplit
    | SplitRunEmpty | SplitDurationMismatch | SplitPayloadMismatch | SplitDecodeOverflow
    | CannotMerge | MoofTooLarge | TrafTooLarge | TrunTooLarge | TrunOffsetTooLarge | TrunWithoutSamples
    | TimelineOverflow | TfdtOverflow | PayloadOutOfRange | InvalidFragmentCount | MissingTrack

  datatype Result<+T> = Ok(value: T) | Err(error: Error)

  datatype Trex = Trex(descriptionIndex: u32, duration: u32, size: u32, flags: u32)

  datatype TrackIds = TrackIds(id: u32, timescale: u32, trex: Trex)

  const NO_TRACK: TrackIds := TrackIds(0, 0, Trex(0, 0, 0, 0))

  datatype Sample = Sample(duration: u32, size: u32, flags: u32, offset: u32)

  datatype Run = Run(
    sourceDataOffset: Option<int>, samples: seq<Sample>, version: byte, hasOffsets: bool,
    duration: nat, dataSize: nat, payloadOffset: nat, outputOffset: nat,
    startsWithSync: bool, inferred: bool)

  datatype Fragment = Fragment(
    trackId: u32, timescale: u32, decodeTime: u64, duration: u64, startsWithSync: bool,
    descriptionIndex: u32, tfhd: bytes, runs: seq<Run>,
    payloadStart: nat, payloadLen: nat, inferred: bool)

  datatype Segment = Segment(data: bytes, startNs: u64, endNs: u64)

  /** `Fragment::end_time`, in unchecked `u64` arithmetic. */
  function EndTime(f: Fragment): u64 {
    Wrap64(f.decodeTime as int + f.duration as int)
  }

  /** A sample is a sync sample unless marked non-sync or depending on another (section 8.8.3.1 of ISO/IEC 14496-12). */
  predicate IsSyncSample(flags: u32) {
    !Bit(flags, 0x1_0000) && flags / 0x100_0000 % 4 != 1
  }

  function CanonicalTfhd(trackId: u32, descriptionIndex: u32): (r: bytes)
    ensures |r| == CANONICAL_TFHD_SIZE
  {
    Be32(CANONICAL_TFHD_SIZE) + Be32(TFHD) + Be32(0x2_0002) + Be32(trackId) + Be32(descriptionIndex)
  }

  function SumDurations(s: seq<Sample>): nat {
    if s == [] then 0 else SumDurations(s[..|s| - 1]) + s[|s| - 1].duration as int
  }

  function SumSizes(s: seq<Sample>): nat {
    if s == [] then 0 else SumSizes(s[..|s| - 1]) + s[|s| - 1].size as int
  }

  function RunsDuration(rs: seq<Run>): nat {
    if rs == [] then 0 else RunsDuration(rs[..|rs| - 1]) + rs[|rs| - 1].duration
  }

  function RunsSize(rs: seq<Run>): nat {
    if rs == [] then 0 else RunsSize(rs[..|rs| - 1]) + rs[|rs| - 1].dataSize
  }

  /** All samples of `rs`, in order. */
  function RunSamples(rs: seq<Run>): seq<Sample> {
    if rs == [] then [] else RunSamples(rs[..|rs| - 1]) + rs[|rs| - 1].samples
  }

  /** All samples of a queue, in order. */
  function QueueSamples(fs: seq<Fragment>): seq<Sample> {
    if fs == [] then [] else RunSamples(fs[0].runs) + QueueSamples(fs[1..])
  }

  /** All runs of a queue, in order. */
  function QueueRuns(fs: seq<Fragment>): seq<Run> {
    if fs == [] then [] else fs[0].runs + QueueRuns(fs[1..])
  }

  function QueuePayloadLength(fs: seq<Fragment>): nat {
    if fs == [] then 0 else fs[0].payloadLen + QueuePayloadLength(fs[1..])
  }

  /** What a parsed or rebuilt run always satisfies. */
  ghost predicate RunOk(r: Run) {
    && 1 <= |r.samples| <= MAX_TRUN_SAMPLES
    && r.version <= 1
    && r.duration == SumDurations(r.samples)
    && r.dataSize == SumSizes(r.samples)
    && r.dataSize > 0
    && r.startsWithSync == IsSyncSample(r.samples[0].flags)
    && (!r.hasOffsets ==> forall i | 0 <= i < |r.samples| :: r.samples[i].offset == 0)
  }

  /** What a parsed fragment satisfies before its payload is attached. */
  ghost predicate FragmentOk(f: Fragment) {
    && f.trackId != 0 && f.timescale != 0 && f.descriptionIndex != 0
    && f.tfhd == CanonicalTfhd(f.trackId, f.descriptionIndex)
    && f.runs != []
    && (forall r | r in f.runs :: RunOk(r))
    && f.duration == Wrap64(RunsDuration(f.runs))
    && f.startsWithSync == f.runs[0].startsWithSync
  }

  /** A fragment whose payload range holds its runs one after the other. */
  ghost predicate Attached(f: Fragment) {
    && FragmentOk(f)
    && f.payloadLen == RunsSize(f.runs)
    && (forall i | 0 <= i < |f.runs| :: f.runs[i].payloadOffset == RunsSize(f.runs[..i]))
  }

  ghost predicate QueueOk(fs: seq<Fragment>) {
    forall f | f in fs :: Attached(f)
  }

  lemma {:induction false} SumDurationsConcat(a: seq<Sample>, b: seq<Sample>)
    ensures SumDurations(a + b) == SumDurations(a) + SumDurations(b)
  {
    if b == [] {
      assert a + b == a;
    } else {
      assert (a + b)[..|a + b| - 1] == a + b[..|b| - 1];
      SumDurationsConcat(a, b[..|b| - 1]);
    }
  }

  lemma {:induction false} SumSizesConcat(a: seq<Sample>, b: seq<Sample>)
    ensures SumSizes(a + b) == SumSizes(a) + SumSizes(b)
  {
    if b == [] {
      assert a + b == a;
    } else {
      assert (a + b)[..|a + b| - 1] == a + b[..|b| - 1];
      SumSizesConcat(a, b[..|b| - 1]);
    }
  }

  /** The checked additions over one run cannot overflow: a million 32-bit values fit in 64 bits. */
  lemma {:induction false} SampleTotalsFit(s: seq<Sample>)
    ensures SumDurations(s) <= |s| * U32_MAX && SumSizes(s) <= |s| * U32_MAX
  {
    if s != [] {
      SampleTotalsFit(s[..|s| - 1]);
    }
  }

  lemma {:induction false} RunsDurationConcat(a: seq<Run>, b: seq<Run>)
    ensures RunsDuration(a + b) == RunsDuration(a) + RunsDuration(b)
  {
    if b == [] {
      assert a + b == a;
    } else {
      assert (a + b)[..|a + b| - 1] == a + b[..|b| - 1];
      RunsDurationConcat(a, b[..|b| - 1]);
    }
  }

  lemma {:induction false} RunsSizeConcat(a: seq<Run>, b: seq<Run>)
    ensures RunsSize(a + b) == RunsSize(a) + RunsSize(b)
  {
    if b == [] {
      assert a + b == a;
    } else {
      assert (a + b)[..|a + b| - 1] == a + b[..|b| - 1];
      RunsSizeConcat(a, b[..|b| - 1]);
    }
  }

  lemma {:induction false} RunSamplesConcat(a: seq<Run>, b: seq<Run>)
    ensures RunSamples(a + b) == RunSamples(a) + RunSamples(b)
  {
    if b == [] {
      assert a + b == a;
    } else {
      assert (a + b)[..|a + b| - 1] == a + b[..|b| - 1];
      RunSamplesConcat(a, b[..|b| - 1]);
    }
  }

  /** The totals kept in the runs are the totals over their samples. */
  lemma {:induction false} RunTotals(rs: seq<Run>)
    requires forall r | r in rs :: RunOk(r)
    ensures RunsDuration(rs) == SumDurations(RunSamples(rs))
    ensures RunsSize(rs) == SumSizes(RunSamples(rs))
    ensures |rs| <= RunsSize(rs)
    ensures |rs| <= |RunSamples(rs)|
  {
    if rs != [] {
      var front, last := rs[..|rs| - 1], rs[|rs| - 1];
      assert last in rs && RunOk(last);
      RunTotals(front);
      SumDurationsConcat(RunSamples(front), last.samples);
      SumSizesConcat(RunSamples(front), last.samples);
    }
  }

  /** Runs that differ only in where they lie. */
  ghost predicate Alike(a: seq<Run>, b: seq<Run>) {
    |a| == |b| && forall i | 0 <= i < |a| ::
      a[i].samples == b[i].samples && a[i].duration == b[i].duration && a[i].dataSize == b[i].dataSize
  }

  lemma {:induction false} AlikeTotals(a: seq<Run>, b: seq<Run>)
    requires Alike(a, b)
    ensures RunSamples(a) == RunSamples(b) && RunsSize(a) == RunsSize(b) && RunsDuration(a) == RunsDuration(b)
  {
    if a != [] {
      var n := |a| - 1;
      assert Alike(a[..n], b[..n]);
      AlikeTotals(a[..n], b[..n]);
    }
  }

  lemma {:induction false} QueueSamplesConcat(a: seq<Fragment>, b: seq<Fragment>)
    ensures QueueSamples(a + b) == QueueSamples(a) + QueueSamples(b)
  {
    if a == [] {
      assert a + b == b;
    } else {
      assert (a + b)[1..] == a[1..] + b && (a + b)[0] == a[0];
      QueueSamplesConcat(a[1..], b);
    }
  }

  lemma {:induction false} QueueRunsConcat(a: seq<Fragment>, b: seq<Fragment>)
    ensures QueueRuns(a + b) == QueueRuns(a) + QueueRuns(b)
  {
    if a == [] {
      assert a + b == b;
    } else {
      assert (a + b)[1..] == a[1..] + b && (a + b)[0] == a[0];
      QueueRunsConcat(a[1..], b);
    }
  }

  lemma {:induction false} QueuePayloadConcat(a: seq<Fragment>, b: seq<Fragment>)
    ensures QueuePayloadLength(a + b) == QueuePayloadLength(a) + QueuePayloadLength(b)
  {
    if a == [] {
      assert a + b == b;
    } else {
      assert (a + b)[1..] == a[1..] + b && (a + b)[0] == a[0];
      QueuePayloadConcat(a[1..], b);
    }
  }
}
