/** Merging queued fragments into one segment: `moof`, `mdat` header and the payload of both tracks. */
module Mp4Build {
  import opened Bytes
  import opened Mp4Types
  import opened Mp4Parse
  import opened Mp4Write
  import opened Mp4Select

  // ----- merging -----

  /** `validate_track`: the fragments form one uninterrupted `traf`. */
  predicate Mergeable(fs: seq<Fragment>) {
    forall i | 1 <= i < |fs| ::
      && fs[i].trackId == fs[0].trackId && fs[i].timescale == fs[0].timescale
      && fs[i].descriptionIndex == fs[0].descriptionIndex && fs[i].tfhd == fs[0].tfhd
      && fs[i].decodeTime == EndTime(fs[i - 1])
  }

  method ValidateTrack(fs: seq<Fragment>) returns (ok: bool)
    requires fs != []
    ensures ok == Mergeable(fs)
  {
    var first, expected := fs[0], EndTime(fs[0]);
    for i := 1 to |fs|
      invariant Mergeable(fs[..i]) && expected == EndTime(fs[i - 1])
    {
      var current := fs[i];
      assert fs[..i + 1][..i] == fs[..i];
      if current.trackId != first.trackId || current.timescale != first.timescale || current.decodeTime != expected
         || current.descriptionIndex != first.descriptionIndex || current.tfhd != first.tfhd {
        return false;
      }
      expected := EndTime(current);
    }
    assert fs[..|fs|] == fs;
    return true;
  }

  /** Where each run lands in the emitted payload. */
  function AssignRuns(runs: seq<Run>, base: nat): (r: seq<Run>)
    ensures |r| == |runs|
    ensures forall i | 0 <= i < |runs| :: r[i] == runs[i].(outputOffset := base + runs[i].payloadOffset)
  {
    if runs == [] then [] else [runs[0].(outputOffset := base + runs[0].payloadOffset)] + AssignRuns(runs[1..], base)
  }

  function AssignOffsets(fs: seq<Fragment>, base: nat): (r: seq<Fragment>)
    ensures |r| == |fs|
  {
    if fs == [] then [] else
    [fs[0].(runs := AssignRuns(fs[0].runs, base))] + AssignOffsets(fs[1..], base + fs[0].payloadLen)
  }

  method PlaceFragments(fs: seq<Fragment>, base: nat) returns (placed: seq<Fragment>, length: nat)
    ensures placed == AssignOffsets(fs, base) && length == base + QueuePayloadLength(fs)
  {
    placed, length := [], base;
    assert fs[0..] == fs;
    for i := 0 to |fs|
      invariant AssignOffsets(fs, base) == placed + AssignOffsets(fs[i..], length)
      invariant length + QueuePayloadLength(fs[i..]) == base + QueuePayloadLength(fs)
    {
      assert fs[i..][1..] == fs[i + 1..];
      placed := placed + [fs[i].(runs := AssignRuns(fs[i].runs, length))];
      length := length + fs[i].payloadLen;
    }
  }

  /** Assigning offsets changes nothing else: same samples, same payload ranges, same sizes. */
  lemma AssignKeeps(fs: seq<Fragment>, base: nat)
    requires QueueOk(fs)
    ensures QueueOk(AssignOffsets(fs, base))
    ensures QueuePayloadLength(AssignOffsets(fs, base)) == QueuePayloadLength(fs)
    ensures TrunsSize(QueueRuns(AssignOffsets(fs, base))) == TrunsSize(QueueRuns(fs))
    ensures fs != [] ==> AssignOffsets(fs, base)[0] == fs[0].(runs := AssignRuns(fs[0].runs, base))
  {
    hide QueueOk, QueuePayloadLength, TrunsSize, QueueRuns;
    AssignKeepsQueue(fs, base);
    AssignKeepsSizes(fs, base);
  }

  lemma {:induction false} AssignKeepsQueue(fs: seq<Fragment>, base: nat)
    requires QueueOk(fs)
    ensures QueueOk(AssignOffsets(fs, base))
  {
    hide Attached, AssignRuns;
    if fs != [] {
      assert fs[0] in fs;
      assert forall g | g in fs[1..] :: g in fs;
      AssignKeepsAttached(fs[0], base);
      AssignKeepsQueue(fs[1..], base + fs[0].payloadLen);
    }
  }

  lemma {:induction false} AssignKeepsSizes(fs: seq<Fragment>, base: nat)
    ensures QueuePayloadLength(AssignOffsets(fs, base)) == QueuePayloadLength(fs)
    ensures TrunsSize(QueueRuns(AssignOffsets(fs, base))) == TrunsSize(QueueRuns(fs))
  {
    hide TrunsSize, AssignRuns;
    if fs != [] {
      var f := fs[0].(runs := AssignRuns(fs[0].runs, base));
      AssignKeepsSizes(fs[1..], base + fs[0].payloadLen);
      AssignKeepsTruns(fs[0].runs, base);
      TrunsSizeConcat(fs[0].runs, QueueRuns(fs[1..]));
      TrunsSizeConcat(f.runs, QueueRuns(AssignOffsets(fs[1..], base + fs[0].payloadLen)));
    }
  }

  lemma {:induction false} TrunsSizeConcat(a: seq<Run>, b: seq<Run>)
    ensures TrunsSize(a + b) == TrunsSize(a) + TrunsSize(b)
  {
    hide TrunSize;
    if a == [] {
      assert a + b == b;
    } else {
      assert (a + b)[1..] == a[1..] + b && (a + b)[0] == a[0];
      TrunsSizeConcat(a[1..], b);
    }
  }

  lemma {:induction false} AssignKeepsTruns(runs: seq<Run>, base: nat)
    ensures TrunsSize(AssignRuns(runs, base)) == TrunsSize(runs)
  {
    if runs != [] {
      AssignKeepsTruns(runs[1..], base);
    }
  }

  lemma AssignKeepsTotals(runs: seq<Run>, base: nat)
    ensures RunsSize(AssignRuns(runs, base)) == RunsSize(runs)
    ensures RunsDuration(AssignRuns(runs, base)) == RunsDuration(runs)
  {
    hide AssignRuns, RunsSize, RunsDuration, RunSamples;
    AlikeTotals(AssignRuns(runs, base), runs);
  }

  lemma AssignedRunsOk(runs: seq<Run>, base: nat)
    requires forall r | r in runs :: RunOk(r)
    ensures forall r | r in AssignRuns(runs, base) :: RunOk(r)
  {
    hide SumDurations, SumSizes, IsSyncSample;
    forall r | r in AssignRuns(runs, base) ensures RunOk(r) {
      var i :| 0 <= i < |runs| && AssignRuns(runs, base)[i] == r;
      assert RunOk(runs[i]) by { assert runs[i] in runs; }
    }
  }

  lemma AssignedPrefix(runs: seq<Run>, base: nat, i: nat)
    requires i <= |runs|
    ensures RunsSize(AssignRuns(runs, base)[..i]) == RunsSize(runs[..i])
  {
    hide AssignRuns, RunsSize;
    assert AssignRuns(runs, base)[..i] == AssignRuns(runs[..i], base);
    AssignKeepsTotals(runs[..i], base);
  }

  lemma AssignKeepsAttached(f: Fragment, base: nat)
    requires Attached(f)
    ensures Attached(f.(runs := AssignRuns(f.runs, base)))
  {
    hide CanonicalTfhd, RunOk, RunsSize, RunsDuration;
    AssignKeepsTotals(f.runs, base);
    AssignedRunsOk(f.runs, base);
    forall i | 0 <= i < |f.runs|
      ensures AssignRuns(f.runs, base)[i].payloadOffset == RunsSize(AssignRuns(f.runs, base)[..i])
    {
      AssignedPrefix(f.runs, base, i);
    }
  }

  // ----- payload -----

  predicate InBounds(payload: bytes, fs: seq<Fragment>) {
    forall f | f in fs :: f.payloadStart + f.payloadLen <= |payload|
  }

  function FragmentBytes(payload: bytes, f: Fragment): bytes
    requires f.payloadStart + f.payloadLen <= |payload|
  {
    payload[f.payloadStart..f.payloadStart + f.payloadLen]
  }

  /** The payload of a queue, fragment after fragment. */
  function QueueBytes(payload: bytes, fs: seq<Fragment>): bytes
    requires InBounds(payload, fs)
  {
    if fs == [] then [] else
    assert fs[0] in fs;
    FragmentBytes(payload, fs[0]) + QueueBytes(payload, fs[1..])
  }

  lemma {:induction false} QueueBytesLength(payload: bytes, fs: seq<Fragment>)
    requires InBounds(payload, fs)
    ensures |QueueBytes(payload, fs)| == QueuePayloadLength(fs)
  {
    if fs != [] {
      assert fs[0] in fs;
      QueueBytesLength(payload, fs[1..]);
    }
  }

  lemma {:induction false} QueueBytesConcat(payload: bytes, a: seq<Fragment>, b: seq<Fragment>)
    requires InBounds(payload, a) && InBounds(payload, b)
    ensures InBounds(payload, a + b) && QueueBytes(payload, a + b) == QueueBytes(payload, a) + QueueBytes(payload, b)
  {
    if a == [] {
      assert a + b == b;
    } else {
      assert a[0] in a;
      assert (a + b)[1..] == a[1..] + b && (a + b)[0] == a[0];
      QueueBytesConcat(payload, a[1..], b);
    }
  }

  /** The payload loop of `build_segment`; a range outside the buffer is an error. */
  function CollectPayload(payload: bytes, fs: seq<Fragment>): Result<bytes> {
    if fs == [] then Ok([]) else
    if fs[0].payloadLen != 0 && fs[0].payloadStart + fs[0].payloadLen > |payload| then Err(PayloadOutOfRange) else
    match CollectPayload(payload, fs[1..])
    case Err(e) => Err(e)
    case Ok(rest) =>
      Ok((if fs[0].payloadLen == 0 then []
          else payload[fs[0].payloadStart..fs[0].payloadStart + fs[0].payloadLen]) + rest)
  }

  lemma {:induction false} CollectInBounds(payload: bytes, fs: seq<Fragment>)
    requires InBounds(payload, fs)
    ensures CollectPayload(payload, fs) == Ok(QueueBytes(payload, fs))
  {
    if fs != [] {
      assert fs[0] in fs;
      assert fs[0].payloadLen == 0 ==> FragmentBytes(payload, fs[0]) == [];
      CollectInBounds(payload, fs[1..]);
    }
  }

  method AppendPayload(data: bytes, payload: bytes, fs: seq<Fragment>) returns (r: Result<bytes>)
    ensures r == After(data, CollectPayload(payload, fs))
  {
    var out := data;
    assert fs[0..] == fs;
    for i := 0 to |fs|
      invariant After(data, CollectPayload(payload, fs)) == After(out, CollectPayload(payload, fs[i..]))
    {
      assert fs[i..][1..] == fs[i + 1..];
      var end := fs[i].payloadStart + fs[i].payloadLen;
      if fs[i].payloadLen != 0 && end > |payload| { return Err(PayloadOutOfRange); }
      var piece := if fs[i].payloadLen == 0 then [] else payload[fs[i].payloadStart..end];
      AfterMore(out, piece, CollectPayload(payload, fs[i + 1..]));
      out := out + piece;
    }
    assert out + [] == out;
    return Ok(out);
  }

  // ----- the segment -----

  /** What goes into a segment besides the fragments. */
  datatype Envelope = Envelope(styp: bytes, prefix: bytes, sequence: u32, offsetSeconds: nat)

  function MoofSize(video: seq<Fragment>, audio: seq<Fragment>): int {
    24 + TrafSize(video) + (if audio == [] then 0 else TrafSize(audio))
  }

  function MdatHeaderSize(length: int): int {
    if length + 8 > U32_MAX then 16 else 8
  }

  function OffsetNs(offsetSeconds: nat): u64 {
    Min(offsetSeconds * NANOSECONDS, U64_MAX)
  }

  /** The `moof` box, both `traf`s referring to payload `base` bytes after its start. */
  function MoofBytes(e: Envelope, v: seq<Fragment>, a: seq<Fragment>, size: u32, base: int): Result<bytes>
    requires v != []
  {
    match WriteTraf(v, base, e.offsetSeconds)
    case Err(error) => Err(error)
    case Ok(videoTraf) =>
      match (if a == [] then Ok([]) else WriteTraf(a, base, e.offsetSeconds))
      case Err(error) => Err(error)
      case Ok(audioTraf) => Ok(Header(size, MOOF) + Mfhd(e.sequence) + videoTraf + audioTraf)
  }

  /** Start and end of the segment on the timeline, from its video fragments. */
  function SegmentTimes(video: seq<Fragment>, offsetNs: u64): Result<(u64, u64)>
    requires video != []
  {
    match TimelineNanoseconds(video[0].decodeTime, video[0].timescale)
    case Err(error) => Err(error)
    case Ok(start) =>
      match TimelineNanoseconds(EndTime(video[|video| - 1]), video[|video| - 1].timescale)
      case Err(error) => Err(error)
      case Ok(end) =>
        if U64_MAX - start < offsetNs || U64_MAX - end < offsetNs then Err(TimelineOverflow)
        else Ok((start as int + offsetNs as int, end as int + offsetNs as int))
  }

  /** `build_segment` for the chosen fragments of a regular segment. */
  function SegmentOf(e: Envelope, video: seq<Fragment>, audio: seq<Fragment>, payload: bytes): Result<Segment>
    requires video != []
  {
    if !Mergeable(video) || !Mergeable(audio) then Err(CannotMerge) else
    var v := AssignOffsets(video, 0);
    var a := AssignOffsets(audio, QueuePayloadLength(video));
    var length := QueuePayloadLength(video) + QueuePayloadLength(audio);
    var size := MoofSize(v, a);
    if size < 0 || size > U32_MAX then Err(MoofTooLarge) else
    match MoofBytes(e, v, a, size, size + MdatHeaderSize(length))
    case Err(error) => Err(error)
    case Ok(moof) =>
      match SegmentTimes(video, OffsetNs(e.offsetSeconds))
      case Err(error) => Err(error)
      case Ok((start, end)) =>
        match CollectPayload(payload, video + audio)
        case Err(error) => Err(error)
        case Ok(body) =>
          Ok(Segment(e.styp + e.prefix + moof + MdatHeader(length, MdatHeaderSize(length)) + body, start, end))
  }

  /** The predicted `moof` size is the number of bytes written. */
  lemma MoofBytesLength(e: Envelope, v: seq<Fragment>, a: seq<Fragment>, size: u32, base: int)
    requires v != [] && QueueOk(v) && QueueOk(a) && size == MoofSize(v, a)
    ensures var r := MoofBytes(e, v, a, size, base); r.Ok? ==> |r.value| == size
  {
    hide TrafSize, WriteTraf, Header, Mfhd;
    assert v[0] in v && Attached(v[0]);
    WriteTrafLength(v, base, e.offsetSeconds);
    if a != [] {
      assert a[0] in a && Attached(a[0]);
      WriteTrafLength(a, base, e.offsetSeconds);
    }
  }

  /** The bytes of a segment: `moof` of the predicted size, an `mdat` of the right size, video then audio payload. */
  lemma SegmentLayout(e: Envelope, video: seq<Fragment>, audio: seq<Fragment>, payload: bytes)
    requires video != [] && QueueOk(video) && QueueOk(audio)
    requires InBounds(payload, video) && InBounds(payload, audio)
    requires SegmentOf(e, video, audio, payload).Ok?
    ensures var v, a := AssignOffsets(video, 0), AssignOffsets(audio, QueuePayloadLength(video));
            var length := QueuePayloadLength(video) + QueuePayloadLength(audio);
            var size := MoofSize(v, a);
            var base := size + MdatHeaderSize(length);
            && 0 <= size <= U32_MAX && MoofBytes(e, v, a, size, base).Ok?
            && |MoofBytes(e, v, a, size, base).value| == size
            && SegmentOf(e, video, audio, payload).value.data
               == e.styp + e.prefix + MoofBytes(e, v, a, size, base).value
                  + MdatHeader(length, MdatHeaderSize(length))
                  + (QueueBytes(payload, video) + QueueBytes(payload, audio))
            && |MdatHeader(length, MdatHeaderSize(length))| == MdatHeaderSize(length)
            && length == |QueueBytes(payload, video)| + |QueueBytes(payload, audio)|
  {
    hide MoofBytes, SegmentTimes, MoofSize, Attached, Mergeable, CollectPayload, QueueBytes, MdatHeader, AssignOffsets,
      QueuePayloadLength;
    var v, a := AssignOffsets(video, 0), AssignOffsets(audio, QueuePayloadLength(video));
    AssignKeeps(video, 0);
    AssignKeeps(audio, QueuePayloadLength(video));
    var length := QueuePayloadLength(video) + QueuePayloadLength(audio);
    var size := MoofSize(v, a);
    MoofBytesLength(e, v, a, size, size + MdatHeaderSize(length));
    QueueBytesConcat(payload, video, audio);
    CollectInBounds(payload, video + audio);
    QueueBytesLength(payload, video);
    QueueBytesLength(payload, audio);
  }

  // ----- data offsets -----

  /** The payload bytes of each run of a queue. */
  function QueueRunBytes(payload: bytes, fs: seq<Fragment>): (r: seq<bytes>)
    requires QueueRunsInBounds(payload, fs)
    ensures |r| == |QueueRuns(fs)|
  {
    if fs == [] then [] else RunBytes(payload, fs[0], fs[0].runs) + QueueRunBytes(payload, fs[1..])
  }

  predicate QueueRunsInBounds(payload: bytes, fs: seq<Fragment>) {
    fs == [] || (RunsInBounds(payload, fs[0], fs[0].runs) && QueueRunsInBounds(payload, fs[1..]))
  }

  predicate RunsInBounds(payload: bytes, f: Fragment, runs: seq<Run>) {
    forall i | 0 <= i < |runs| :: f.payloadStart + runs[i].payloadOffset + runs[i].dataSize <= |payload|
  }

  function RunBytes(payload: bytes, f: Fragment, runs: seq<Run>): (r: seq<bytes>)
    requires RunsInBounds(payload, f, runs)
    ensures |r| == |runs|
    ensures forall i | 0 <= i < |runs| ::
        r[i] == payload[f.payloadStart + runs[i].payloadOffset..f.payloadStart + runs[i].payloadOffset + runs[i].dataSize]
  {
    seq(|runs|, i requires 0 <= i < |runs| =>
      payload[f.payloadStart + runs[i].payloadOffset..f.payloadStart + runs[i].payloadOffset + runs[i].dataSize])
  }

  lemma {:induction false} RunsSizeMonotone(runs: seq<Run>, i: nat)
    requires i < |runs|
    ensures RunsSize(runs[..i]) + runs[i].dataSize <= RunsSize(runs)
  {
    if i < |runs| - 1 {
      assert runs[..|runs| - 1][..i] == runs[..i];
      RunsSizeMonotone(runs[..|runs| - 1], i);
    }
  }

  lemma AttachedRunsInBounds(payload: bytes, f: Fragment)
    requires Attached(f) && f.payloadStart + f.payloadLen <= |payload|
    ensures RunsInBounds(payload, f, f.runs)
    ensures forall i | 0 <= i < |f.runs| :: f.runs[i].payloadOffset + f.runs[i].dataSize <= f.payloadLen
  {
    forall i | 0 <= i < |f.runs| ensures f.runs[i].payloadOffset + f.runs[i].dataSize <= f.payloadLen {
      RunsSizeMonotone(f.runs, i);
    }
  }

  /** Where the runs of `fs` land: each at its output offset, holding exactly its own bytes. */
  ghost predicate RunsLand(body: bytes, placed: seq<Run>, contents: seq<bytes>, base: nat) {
    && |placed| == |contents|
    && forall k | 0 <= k < |placed| ::
         && base <= placed[k].outputOffset
         && placed[k].outputOffset - base + placed[k].dataSize <= |body|
         && body[placed[k].outputOffset - base..placed[k].outputOffset - base + placed[k].dataSize] == contents[k]
  }

  lemma RunLands(payload: bytes, f: Fragment, r: Run)
    requires f.payloadStart + f.payloadLen <= |payload| && r.payloadOffset + r.dataSize <= f.payloadLen
    ensures FragmentBytes(payload, f)[r.payloadOffset..r.payloadOffset + r.dataSize]
         == payload[f.payloadStart + r.payloadOffset..f.payloadStart + r.payloadOffset + r.dataSize]
  {
    SliceOfSlice(payload, f.payloadStart, f.payloadStart + f.payloadLen, r.payloadOffset, r.payloadOffset + r.dataSize);
  }

  lemma FragmentLands(payload: bytes, f: Fragment, base: nat)
    requires Attached(f) && f.payloadStart + f.payloadLen <= |payload|
    ensures RunsInBounds(payload, f, f.runs)
    ensures RunsLand(FragmentBytes(payload, f), AssignRuns(f.runs, base), RunBytes(payload, f, f.runs), base)
  {
    hide Attached;
    AttachedRunsInBounds(payload, f);
    var body, contents := FragmentBytes(payload, f), RunBytes(payload, f, f.runs);
    forall k | 0 <= k < |f.runs|
      ensures body[f.runs[k].payloadOffset..f.runs[k].payloadOffset + f.runs[k].dataSize] == contents[k]
    {
      RunLands(payload, f, f.runs[k]);
    }
  }

  lemma LandsJoin(
    body1: bytes, placed1: seq<Run>, contents1: seq<bytes>, body2: bytes, placed2: seq<Run>, contents2: seq<bytes>, base: nat)
    requires RunsLand(body1, placed1, contents1, base) && RunsLand(body2, placed2, contents2, base + |body1|)
    ensures RunsLand(body1 + body2, placed1 + placed2, contents1 + contents2, base)
  {
    var body, placed, contents := body1 + body2, placed1 + placed2, contents1 + contents2;
    forall k | 0 <= k < |placed|
      ensures && base <= placed[k].outputOffset
              && placed[k].outputOffset - base + placed[k].dataSize <= |body|
              && body[placed[k].outputOffset - base..placed[k].outputOffset - base + placed[k].dataSize] == contents[k]
    {
      if k < |placed1| {
        assert placed[k] == placed1[k] && contents[k] == contents1[k];
        var at := placed1[k].outputOffset - base;
        assert body[at..at + placed1[k].dataSize] == body1[at..at + placed1[k].dataSize];
      } else {
        var j := k - |placed1|;
        assert placed[k] == placed2[j] && contents[k] == contents2[j];
        var at := placed2[j].outputOffset - base - |body1|;
        assert body[|body1| + at..|body1| + at + placed2[j].dataSize] == body2[at..at + placed2[j].dataSize];
      }
    }
  }

  lemma {:induction false} QueueLands(payload: bytes, fs: seq<Fragment>, base: nat)
    requires QueueOk(fs) && InBounds(payload, fs)
    ensures QueueRunsInBounds(payload, fs)
    ensures RunsLand(QueueBytes(payload, fs), QueueRuns(AssignOffsets(fs, base)), QueueRunBytes(payload, fs), base)
  {
    hide Attached, RunsLand, RunBytes, AssignRuns, RunsInBounds;
    if fs == [] {
      NothingLands(base);
    } else {
      assert fs[0] in fs;
      assert forall g | g in fs[1..] :: g in fs;
      FragmentLands(payload, fs[0], base);
      QueueLands(payload, fs[1..], base + fs[0].payloadLen);
      LandsJoin(FragmentBytes(payload, fs[0]), AssignRuns(fs[0].runs, base), RunBytes(payload, fs[0], fs[0].runs),
                QueueBytes(payload, fs[1..]), QueueRuns(AssignOffsets(fs[1..], base + fs[0].payloadLen)),
                QueueRunBytes(payload, fs[1..]), base);
    }
  }

  lemma NothingLands(base: nat)
    ensures RunsLand([], [], [], base)
  {}

  /** `data[offset..]` starts with `content`. */
  predicate Selects(data: bytes, offset: int, content: bytes) {
    0 <= offset && offset + |content| <= |data| && data[offset..offset + |content|] == content
  }

  lemma {:induction false} RereadOffset(runs: seq<Run>, base: int, k: nat)
    requires k < |runs|
    ensures |RereadRuns(runs, base)| == |runs|
    ensures RereadRuns(runs, base)[k] == Reread(runs[k], base + runs[k].outputOffset)
  {
    if k > 0 {
      RereadOffset(runs[1..], base, k - 1);
    } else {
      RereadLength(runs, base);
    }
  }

  lemma {:induction false} RereadLength(runs: seq<Run>, base: int)
    ensures |RereadRuns(runs, base)| == |runs|
  {
    if runs != [] {
      RereadLength(runs[1..], base);
    }
  }

  /** Both tracks land in the joint payload, audio after video. */
  lemma TracksLand(payload: bytes, video: seq<Fragment>, audio: seq<Fragment>)
    requires QueueOk(video) && QueueOk(audio) && InBounds(payload, video) && InBounds(payload, audio)
    ensures QueueRunsInBounds(payload, video) && QueueRunsInBounds(payload, audio)
    ensures RunsLand(QueueBytes(payload, video) + QueueBytes(payload, audio),
                     QueueRuns(AssignOffsets(video, 0)) + QueueRuns(AssignOffsets(audio, QueuePayloadLength(video))),
                     QueueRunBytes(payload, video) + QueueRunBytes(payload, audio), 0)
  {
    hide RunsLand, Attached, QueueRuns, QueueRunBytes, AssignOffsets, QueueBytes, QueueRunsInBounds;
    QueueLands(payload, video, 0);
    QueueLands(payload, audio, QueuePayloadLength(video));
    QueueBytesLength(payload, video);
    LandsJoin(QueueBytes(payload, video), QueueRuns(AssignOffsets(video, 0)), QueueRunBytes(payload, video),
              QueueBytes(payload, audio), QueueRuns(AssignOffsets(audio, QueuePayloadLength(video))),
              QueueRunBytes(payload, audio), 0);
  }

  /** The merged runs of both tracks with their places in the payload. */
  function PlacedRuns(video: seq<Fragment>, audio: seq<Fragment>): seq<Run> {
    QueueRuns(AssignOffsets(video, 0)) + QueueRuns(AssignOffsets(audio, QueuePayloadLength(video)))
  }

  /** From the start of the `moof` to the first payload byte. */
  function PayloadBase(video: seq<Fragment>, audio: seq<Fragment>): int {
    MoofSize(AssignOffsets(video, 0), AssignOffsets(audio, QueuePayloadLength(video)))
    + MdatHeaderSize(QueuePayloadLength(video) + QueuePayloadLength(audio))
  }

  /** The source bytes of the merged runs. */
  function RunContents(payload: bytes, video: seq<Fragment>, audio: seq<Fragment>): seq<bytes>
    requires QueueRunsInBounds(payload, video) && QueueRunsInBounds(payload, audio)
  {
    QueueRunBytes(payload, video) + QueueRunBytes(payload, audio)
  }

  lemma SegmentHead(e: Envelope, video: seq<Fragment>, audio: seq<Fragment>, payload: bytes) returns (head: bytes)
    requires video != [] && QueueOk(video) && QueueOk(audio)
    requires InBounds(payload, video) && InBounds(payload, audio)
    requires SegmentOf(e, video, audio, payload).Ok?
    ensures SegmentOf(e, video, audio, payload).value.data
         == head + (QueueBytes(payload, video) + QueueBytes(payload, audio))
    ensures |head| == |e.styp| + |e.prefix| + PayloadBase(video, audio)
  {
    hide SegmentOf, MoofBytes, MoofSize, MdatHeader, MdatHeaderSize, Attached, QueueOk, QueueBytes, AssignOffsets;
    SegmentLayout(e, video, audio, payload);
    var v, a := AssignOffsets(video, 0), AssignOffsets(audio, QueuePayloadLength(video));
    var length := QueuePayloadLength(video) + QueuePayloadLength(audio);
    head := e.styp + e.prefix + MoofBytes(e, v, a, MoofSize(v, a), PayloadBase(video, audio)).value
            + MdatHeader(length, MdatHeaderSize(length));
  }

  /**
   * Counted from the start of the `moof`, the data offset the parser reads from any written run selects exactly
   * that run's source bytes in the emitted segment.
   */
  lemma DataOffsetsSelectPayload(e: Envelope, video: seq<Fragment>, audio: seq<Fragment>, payload: bytes, k: nat)
    requires video != [] && QueueOk(video) && QueueOk(audio)
    requires InBounds(payload, video) && InBounds(payload, audio)
    requires SegmentOf(e, video, audio, payload).Ok?
    requires k < |PlacedRuns(video, audio)|
    ensures QueueRunsInBounds(payload, video) && QueueRunsInBounds(payload, audio)
    ensures |RunContents(payload, video, audio)| == |PlacedRuns(video, audio)|
    ensures var reread := RereadRuns(PlacedRuns(video, audio), PayloadBase(video, audio));
            && |reread| == |PlacedRuns(video, audio)| && reread[k].sourceDataOffset.Some?
            && Selects(SegmentOf(e, video, audio, payload).value.data,
                       |e.styp| + |e.prefix| + reread[k].sourceDataOffset.value,
                       RunContents(payload, video, audio)[k])
  {
    hide SegmentOf, MoofSize, MdatHeaderSize, Attached, QueueOk, QueueBytes, QueueRunBytes, PayloadBase,
      AssignOffsets, QueueRuns, QueueRunsInBounds, RunsLand, RereadRuns, Selects, QueuePayloadLength;
    TracksLand(payload, video, audio);
    var runs, body := PlacedRuns(video, audio), QueueBytes(payload, video) + QueueBytes(payload, audio);
    LandsCount(body, runs, RunContents(payload, video, audio), 0);
    LandsAt(body, runs, RunContents(payload, video, audio), 0, k);
    RereadOffset(runs, PayloadBase(video, audio), k);
    var head := SegmentHead(e, video, audio, payload);
    SelectsAfter(head, body, runs[k].outputOffset, RunContents(payload, video, audio)[k]);
  }

  lemma LandsCount(body: bytes, placed: seq<Run>, contents: seq<bytes>, base: nat)
    requires RunsLand(body, placed, contents, base)
    ensures |placed| == |contents|
  {}

  lemma LandsAt(body: bytes, placed: seq<Run>, contents: seq<bytes>, base: nat, k: nat)
    requires RunsLand(body, placed, contents, base) && k < |contents|
    ensures |placed| == |contents| && base <= placed[k].outputOffset
    ensures placed[k].outputOffset - base + |contents[k]| <= |body|
    ensures body[placed[k].outputOffset - base..placed[k].outputOffset - base + |contents[k]|] == contents[k]
  {}

  lemma SelectsAfter(head: bytes, body: bytes, at: nat, content: bytes)
    requires at + |content| <= |body| && body[at..at + |content|] == content
    ensures Selects(head + body, |head| + at, content)
  {}

  // ----- reading an emitted segment back -----

  /** The boxes a parser walks through inside the emitted `moof`. */
  function MoofChildren(e: Envelope, videoTraf: bytes, audioTraf: bytes): seq<BoxRef> {
    var first := BoxRef(MFHD, 8, Mfhd(e.sequence), 24);
    var second := BoxRef(TRAF, 8, videoTraf, 24 + |videoTraf|);
    [first, second]
    + if audioTraf == [] then [] else [BoxRef(TRAF, 8, audioTraf, 24 + |videoTraf| + |audioTraf|)]
  }

  lemma TrafHeader(fs: seq<Fragment>, base: int, offsetSeconds: nat)
    requires fs != [] && QueueOk(fs) && WriteTraf(fs, base, offsetSeconds).Ok?
    ensures var r := WriteTraf(fs, base, offsetSeconds).value;
            |r| == TrafSize(fs) >= 48 && r[..8] == Header(TrafSize(fs), TRAF)
    ensures base <= I32_MAX && base + TrafSize(fs) >= base
  {
    hide Attached, TrafSize, Header, QueueRuns, WriteTrun;
    QueueRunsOk(fs);
    FirstFacts(fs);
    WriteTrafLength(fs, base, offsetSeconds);
    assert QueueRuns(fs)[0].outputOffset >= 0;
    TrafSizeBound(fs);
  }

  lemma {:induction false} TrunsSizeNonNegative(runs: seq<Run>)
    ensures TrunsSize(runs) >= 0
  {
    if runs != [] {
      TrunsSizeNonNegative(runs[1..]);
    }
  }

  lemma TrafSizeBound(fs: seq<Fragment>)
    ensures TrafSize(fs) >= 48
  {
    TrunsSizeNonNegative(QueueRuns(fs));
  }

  /** The `moof` of an emitted segment is read whole, and its children are `mfhd` and the `traf` of each track. */
  lemma MoofReadsBack(e: Envelope, v: seq<Fragment>, a: seq<Fragment>, size: u32, base: int)
    requires v != [] && QueueOk(v) && QueueOk(a)
    requires size == MoofSize(v, a) <= base && MoofBytes(e, v, a, size, base).Ok?
    ensures var moof := MoofBytes(e, v, a, size, base).value;
            var audioTraf := if a == [] then [] else WriteTraf(a, base, e.offsetSeconds).value;
            && size <= I32_MAX
            && TryReadBox(moof, 0) == Some(BoxRef(MOOF, 8, moof, size))
            && Boxes(moof, 8) == MoofChildren(e, WriteTraf(v, base, e.offsetSeconds).value, audioTraf)
  {
    hide WriteTraf, Header, TrafSize, TryReadBox, Attached, QueueOk;
    var videoTraf := WriteTraf(v, base, e.offsetSeconds).value;
    var audioTraf := if a == [] then [] else WriteTraf(a, base, e.offsetSeconds).value;
    var moof := Header(size, MOOF) + Mfhd(e.sequence) + videoTraf + audioTraf;
    MoofBytesLength(e, v, a, size, base);
    TrafHeader(v, base, e.offsetSeconds);
    assert moof[..8] == Header(size, MOOF) && moof[0..|moof|] == moof;
    ReadBoxBack(moof, 0, moof, MOOF);
    if a != [] {
      TrafHeader(a, base, e.offsetSeconds);
    }
    ChildrenReadBack(e, Header(size, MOOF), videoTraf, audioTraf);
  }

  /** The children written one after the other behind `head` are the boxes a parser finds there. */
  lemma ChildrenReadBack(e: Envelope, head: bytes, videoTraf: bytes, audioTraf: bytes)
    requires |head| == 8 && 8 <= |videoTraf| <= I32_MAX && videoTraf[..8] == Header(|videoTraf|, TRAF)
    requires audioTraf != [] ==> 8 <= |audioTraf| <= I32_MAX && audioTraf[..8] == Header(|audioTraf|, TRAF)
    ensures Boxes(head + Mfhd(e.sequence) + videoTraf + audioTraf, 8) == MoofChildren(e, videoTraf, audioTraf)
  {
    hide Header, TryReadBox, Boxes, Mfhd;
    var m := Mfhd(e.sequence);
    MfhdHeader(e.sequence);
    Regroup(head, m, videoTraf, audioTraf);
    var moof := head + m + videoTraf + audioTraf;
    var end, last := 24 + |videoTraf|, 24 + |videoTraf| + |audioTraf|;
    NextBox(moof, head, m, videoTraf + audioTraf, MFHD, 8, 24);
    NextBox(moof, head + m, videoTraf, audioTraf, TRAF, 24, end);
    if audioTraf != [] {
      NextBox(moof, head + m + videoTraf, audioTraf, [], TRAF, end, last);
    }
    NoMoreBoxes(moof, last);
    JoinBoxes(e, videoTraf, audioTraf, moof, end, last);
  }

  lemma JoinBoxes(e: Envelope, videoTraf: bytes, audioTraf: bytes, d: bytes, end: nat, last: nat)
    requires end == 24 + |videoTraf| && last == end + |audioTraf| && Boxes(d, last) == []
    requires Boxes(d, 8) == [BoxRef(MFHD, 8, Mfhd(e.sequence), 24)] + Boxes(d, 24)
    requires Boxes(d, 24) == [BoxRef(TRAF, 8, videoTraf, end)] + Boxes(d, end)
    requires audioTraf != [] ==> Boxes(d, end) == [BoxRef(TRAF, 8, audioTraf, last)] + Boxes(d, last)
    ensures Boxes(d, 8) == MoofChildren(e, videoTraf, audioTraf)
  {
    hide Boxes, Mfhd;
  }

  lemma Regroup(a: bytes, b: bytes, c: bytes, d: bytes)
    ensures a + b + c + d == a + b + (c + d)
    ensures a + b + c + d == a + b + c + d + []
  {}

  lemma NextBox(d: bytes, front: bytes, box: bytes, rest: bytes, kind: u32, at: nat, next: nat)
    requires 8 <= |box| <= I32_MAX && box[..8] == Header(|box|, kind) && d == front + box + rest
    requires at == |front| && next == at + |box|
    ensures Boxes(d, at) == [BoxRef(kind, 8, box, next)] + Boxes(d, next)
  {
    hide Header, TryReadBox, Boxes;
    assert d[at..next] == box;
    ReadBoxBack(d, at, box, kind);
    BoxesStep(d, at);
  }

  lemma NoMoreBoxes(d: bytes, at: nat)
    requires at == |d|
    ensures Boxes(d, at) == []
  {}

  lemma BoxesStep(d: bytes, at: nat)
    ensures Boxes(d, at) == match TryReadBox(d, at) case None => [] case Some(b) => [b] + Boxes(d, b.next)
  {}

  lemma MfhdHeader(sequence: u32)
    ensures |Mfhd(sequence)| == 16 && Mfhd(sequence)[..8] == Header(16, MFHD)
  {
    hide Be32;
  }

  /**
   * Each `traf` of an emitted segment parses back exactly when its runs last; then it gives the merged runs of its
   * track, their first decode time on the output timeline and their total duration.
   */
  lemma SegmentTrafReadsBack(
    fs: seq<Fragment>, start: nat, base: int, offsetSeconds: nat,
    video: TrackIds, audio: TrackIds, videoHint: u32, audioHint: u32)
    requires fs != [] && QueueOk(fs)
    requires TrafSize(AssignOffsets(fs, start)) <= base && WriteTraf(AssignOffsets(fs, start), base, offsetSeconds).Ok?
    requires var track := TrackOf(fs[0].trackId, video, audio, videoHint, audioHint);
             track.Some? && track.value.0.timescale == fs[0].timescale
    ensures var placed := AssignOffsets(fs, start);
            var r := ParsedTraf(WriteTraf(placed, base, offsetSeconds).value, 8, video, audio, videoHint, audioHint);
            && (r.Ok? <==> AllLast(QueueRuns(fs)))
            && (r.Ok? ==> r.value.runs == RereadRuns(QueueRuns(placed), base)
                          && r.value.decodeTime == AddTfdtOffset(fs[0].decodeTime, fs[0].timescale, offsetSeconds).value
                          && r.value.duration == RunsDuration(QueueRuns(fs))
                          && RunSamples(r.value.runs) == QueueSamples(fs))
  {
    hide Attached, QueueOk, TrafSize, WriteTraf, ParsedTraf, AllLast, RunsDuration, QueueRuns, QueueSamples, RunSamples,
      AddTfdtOffset, RereadRuns;
    var placed := AssignOffsets(fs, start);
    AssignKeeps(fs, start);
    TrafHeader(placed, base, offsetSeconds);
    TrafRoundTrip(placed, base, offsetSeconds, video, audio, videoHint, audioHint);
    PlacedSameRuns(fs, start);
    SameRunsTotals(QueueRuns(fs), QueueRuns(placed));
    RereadSamples(QueueRuns(placed), base);
    QueueRunsSamples(fs);
  }

  /** `b` is `a` but for where the runs lie. */
  ghost predicate SameRuns(a: seq<Run>, b: seq<Run>) {
    |a| == |b| && forall i | 0 <= i < |a| :: b[i] == a[i].(outputOffset := b[i].outputOffset)
  }

  lemma {:induction false} PlacedSameRuns(fs: seq<Fragment>, start: nat)
    ensures SameRuns(QueueRuns(fs), QueueRuns(AssignOffsets(fs, start)))
  {
    if fs != [] {
      PlacedSameRuns(fs[1..], start + fs[0].payloadLen);
    }
  }

  lemma SameRunsTotals(a: seq<Run>, b: seq<Run>)
    requires SameRuns(a, b)
    ensures RunsDuration(a) == RunsDuration(b) && RunSamples(a) == RunSamples(b) && (AllLast(a) <==> AllLast(b))
  {
    hide RunsSize, RunsDuration, RunSamples;
    AlikeTotals(a, b);
    if AllLast(a) { SameRunsLast(a, b); }
    if AllLast(b) { SameRunsLast(b, a); }
  }

  lemma SameRunsLast(a: seq<Run>, b: seq<Run>)
    requires SameRuns(a, b) && AllLast(a)
    ensures AllLast(b)
  {
    forall r | r in b ensures r.duration > 0 {
      var i :| 0 <= i < |b| && b[i] == r;
      assert a[i] in a;
    }
  }

  lemma {:induction false} RereadSamples(runs: seq<Run>, base: int)
    ensures RunSamples(RereadRuns(runs, base)) == RunSamples(runs)
  {
    if runs != [] {
      FirstRunSamples(runs);
      FirstRunSamples(RereadRuns(runs, base));
      assert RereadRuns(runs, base)[1..] == RereadRuns(runs[1..], base);
      RereadSamples(runs[1..], base);
    }
  }

  lemma {:induction false} QueueRunsSamples(fs: seq<Fragment>)
    ensures RunSamples(QueueRuns(fs)) == QueueSamples(fs)
  {
    if fs != [] {
      QueueRunsSamples(fs[1..]);
      RunSamplesConcat(fs[0].runs, QueueRuns(fs[1..]));
    }
  }
}
