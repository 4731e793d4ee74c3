/**
 * What a player makes of every segment a reader emits: a `moof` it can walk, a `traf` a track with the very samples that
 * were queued, and for each run a data offset that selects the very bytes that were queued.
 */
module Mp4Segments {
  import opened Bytes
  import opened Mp4Types
  import opened Mp4Parse
  import opened Mp4Write
  import opened Mp4Select
  import opened Mp4Audio
  import opened Mp4Build
  import opened Mp4Reader
  import opened Mp4Keeps
  import opened Mp4Steps
  import opened Mp4Boundaries

  /** Run by run: the offset read, counted from `at`, leads to the run's own bytes. */
  ghost predicate RunsSelect(data: bytes, at: nat, read: seq<Run>, contents: seq<bytes>) {
    && |read| == |contents|
    && forall k | 0 <= k < |read| ::
         read[k].sourceDataOffset.Some? && Selects(data, at + read[k].sourceDataOffset.value, contents[k])
  }

  /** A parser that knows the track reads the fragments back: their samples in order, their time and their bytes. */
  ghost predicate TrackReads(data: bytes, at: nat, traf: bytes, fs: seq<Fragment>, payload: bytes, ids: TrackIds, offsetSeconds: nat) {
    var r := ParsedTraf(traf, 8, ids, NO_TRACK, 0, 0);
    && fs != [] && QueueRunsInBounds(payload, fs)
    && (r.Ok? <==> AllLast(QueueRuns(fs)))
    && (r.Ok? ==>
          && RunSamples(r.value.runs) == QueueSamples(fs) && r.value.duration == RunsDuration(QueueRuns(fs))
          && AddTfdtOffset(fs[0].decodeTime, fs[0].timescale, offsetSeconds) == Ok(r.value.decodeTime)
          && RunsSelect(data, at, r.value.runs, QueueRunBytes(payload, fs)))
  }

  /** Behind its prefix the segment is a `moof` and the payload its runs select. */
  ghost predicate SegmentReads(
    data: bytes, e: Envelope, video: seq<Fragment>, audio: seq<Fragment>, payload: bytes, u: Setup)
  {
    var at := |e.styp| + |e.prefix|;
    exists moof: bytes, videoTraf: bytes, audioTraf: bytes ::
      && at <= |data| && data[..at] == e.styp + e.prefix
      && TryReadBox(data, at) == Some(BoxRef(MOOF, 8, moof, at + |moof|))
      && Boxes(moof, 8) == MoofChildren(e, videoTraf, audioTraf)
      && TrackReads(data, at, videoTraf, video, payload, u.video, e.offsetSeconds)
      && (if audio == [] then audioTraf == []
          else TrackReads(data, at, audioTraf, audio, payload, u.audio, e.offsetSeconds))
  }

  /** The first `v` video fragments up to a sync one, and the shortest audio that reaches their end. */
  ghost predicate WellChosen(q: Queue, u: Setup, video: seq<Fragment>, audio: seq<Fragment>) {
    exists v: nat, cut: seq<Fragment>, a: nat :: ChosenBy(q, u, video, audio, v, cut, a)
  }

  ghost predicate ChosenBy(
    q: Queue, u: Setup, video: seq<Fragment>, audio: seq<Fragment>, v: nat, cut: seq<Fragment>, a: nat)
  {
    && 0 < v < |q.video| && q.video[v].startsWithSync && video == q.video[..v]
    && a <= |cut| && audio == cut[..a]
    && (if u.audio.id == 0 then a == 0
        else a > 0 && CutCorrect(q.audio, cut, a, u.video.timescale, EndTime(q.video[v - 1]), u.audio.timescale))
  }

  /** The bytes of a segment in three parts. */
  lemma SegmentParts(e: Envelope, video: seq<Fragment>, audio: seq<Fragment>, payload: bytes)
    returns (moof: bytes, behind: bytes)
    requires video != [] && QueueOk(video) && QueueOk(audio)
    requires InBounds(payload, video) && InBounds(payload, audio)
    requires SegmentOf(e, video, audio, payload).Ok?
    ensures SegmentOf(e, video, audio, payload).value.data == e.styp + e.prefix + moof + behind
    ensures var v, a := AssignOffsets(video, 0), AssignOffsets(audio, QueuePayloadLength(video));
            && 0 <= MoofSize(v, a) <= U32_MAX && MoofSize(v, a) <= PayloadBase(video, audio) && v != []
            && MoofBytes(e, v, a, MoofSize(v, a), PayloadBase(video, audio)) == Ok(moof) && |moof| == MoofSize(v, a)
  {
    hide SegmentOf, MoofBytes, MoofSize, MdatHeader, Attached, QueueOk, QueueBytes, AssignOffsets, InBounds,
      QueuePayloadLength;
    SegmentLayout(e, video, audio, payload);
    AssignLength(video, 0);
    var v, a := AssignOffsets(video, 0), AssignOffsets(audio, QueuePayloadLength(video));
    var length := QueuePayloadLength(video) + QueuePayloadLength(audio);
    moof := MoofBytes(e, v, a, MoofSize(v, a), PayloadBase(video, audio)).value;
    var header, body := MdatHeader(length, MdatHeaderSize(length)), QueueBytes(payload, video) + QueueBytes(payload, audio);
    behind := header + body;
    assert e.styp + e.prefix + moof + header + body == e.styp + e.prefix + moof + behind;
  }

  lemma AssignLength(fs: seq<Fragment>, base: nat)
    ensures |AssignOffsets(fs, base)| == |fs|
  {}

  /** The runs read from one `traf` select their bytes in the whole segment. */
  lemma TrackSelects(
    e: Envelope, video: seq<Fragment>, audio: seq<Fragment>, payload: bytes,
    placed: seq<Run>, contents: seq<bytes>, first: nat)
    requires video != [] && QueueOk(video) && QueueOk(audio)
    requires InBounds(payload, video) && InBounds(payload, audio)
    requires SegmentOf(e, video, audio, payload).Ok?
    requires QueueRunsInBounds(payload, video) && QueueRunsInBounds(payload, audio)
    requires |placed| == |contents| && first + |placed| <= |PlacedRuns(video, audio)| == |RunContents(payload, video, audio)|
    requires forall k | 0 <= k < |placed| ::
               placed[k] == PlacedRuns(video, audio)[first + k] && contents[k] == RunContents(payload, video, audio)[first + k]
    ensures RunsSelect(SegmentOf(e, video, audio, payload).value.data, |e.styp| + |e.prefix|,
                       RereadRuns(placed, PayloadBase(video, audio)), contents)
  {
    hide SegmentOf, PlacedRuns, RunContents, PayloadBase, RereadRuns, Selects, QueueOk, InBounds, QueueRunsInBounds;
    var base := PayloadBase(video, audio);
    RereadLength(placed, base);
    forall k | 0 <= k < |placed|
      ensures var r := RereadRuns(placed, base)[k];
              r.sourceDataOffset.Some?
              && Selects(SegmentOf(e, video, audio, payload).value.data, |e.styp| + |e.prefix| + r.sourceDataOffset.value, contents[k])
    {
      RereadOffset(placed, base, k);
      RereadOffset(PlacedRuns(video, audio), base, first + k);
      DataOffsetsSelectPayload(e, video, audio, payload, first + k);
    }
  }

  /** Where the two tracks lie among the merged runs. */
  lemma TrackRuns(video: seq<Fragment>, audio: seq<Fragment>, payload: bytes)
    requires QueueOk(video) && QueueOk(audio) && InBounds(payload, video) && InBounds(payload, audio)
    ensures QueueRunsInBounds(payload, video) && QueueRunsInBounds(payload, audio)
    ensures var v, a := QueueRuns(AssignOffsets(video, 0)), QueueRuns(AssignOffsets(audio, QueuePayloadLength(video)));
            var cv, ca := QueueRunBytes(payload, video), QueueRunBytes(payload, audio);
            && |v| == |cv| && |a| == |ca| && PlacedRuns(video, audio) == v + a && RunContents(payload, video, audio) == cv + ca
  {
    hide Attached, QueueOk, InBounds, AssignOffsets, QueueRuns, QueueRunBytes, QueueRunsInBounds, RunsLand;
    TracksLand(payload, video, audio);
    PlacedSameRuns(video, 0);
    PlacedSameRuns(audio, QueuePayloadLength(video));
  }

  /** One track of an emitted segment. */
  lemma TrackReadsBack(
    e: Envelope, video: seq<Fragment>, audio: seq<Fragment>, payload: bytes, fs: seq<Fragment>, start: nat, ids: TrackIds)
    requires video != [] && QueueOk(video) && QueueOk(audio)
    requires InBounds(payload, video) && InBounds(payload, audio)
    requires SegmentOf(e, video, audio, payload).Ok?
    requires (fs == video && start == 0) || (fs == audio && start == QueuePayloadLength(video))
    requires fs != [] && OfTrack(fs, ids)
    requires TrafSize(AssignOffsets(fs, start)) <= PayloadBase(video, audio)
    requires WriteTraf(AssignOffsets(fs, start), PayloadBase(video, audio), e.offsetSeconds).Ok?
    ensures TrackReads(SegmentOf(e, video, audio, payload).value.data, |e.styp| + |e.prefix|,
                       WriteTraf(AssignOffsets(fs, start), PayloadBase(video, audio), e.offsetSeconds).value,
                       fs, payload, ids, e.offsetSeconds)
  {
    hide SegmentOf, Attached, QueueOk, InBounds, AssignOffsets, QueueRuns, QueueRunBytes, QueueRunsInBounds,
      PayloadBase, WriteTraf, ParsedTraf, AllLast, RunsDuration, RunSamples, QueueSamples, AddTfdtOffset,
      RereadRuns, RunsSelect, TrafSize, QueuePayloadLength;
    var base := PayloadBase(video, audio);
    var placed := AssignOffsets(fs, start);
    assert fs[0] in fs;
    SegmentTrafReadsBack(fs, start, base, e.offsetSeconds, ids, NO_TRACK, 0, 0);
    TfdtFits(placed, base, e.offsetSeconds);
    PlacedTimes(fs, start);
    EitherSelects(e, video, audio, payload, fs, start);
  }

  lemma EitherSelects(e: Envelope, video: seq<Fragment>, audio: seq<Fragment>, payload: bytes, fs: seq<Fragment>, start: nat)
    requires video != [] && QueueOk(video) && QueueOk(audio)
    requires InBounds(payload, video) && InBounds(payload, audio)
    requires SegmentOf(e, video, audio, payload).Ok?
    requires (fs == video && start == 0) || (fs == audio && start == QueuePayloadLength(video))
    ensures QueueRunsInBounds(payload, fs)
    ensures RunsSelect(SegmentOf(e, video, audio, payload).value.data, |e.styp| + |e.prefix|,
                       RereadRuns(QueueRuns(AssignOffsets(fs, start)), PayloadBase(video, audio)), QueueRunBytes(payload, fs))
  {
    hide SegmentOf, QueueOk, InBounds, AssignOffsets, QueueRuns, QueueRunBytes, QueueRunsInBounds, PlacedRuns, RunContents,
      PayloadBase, RereadRuns, RunsSelect, QueuePayloadLength;
    TrackRuns(video, audio, payload);
    var v := QueueRuns(AssignOffsets(video, 0));
    if fs == video && start == 0 {
      TrackSelects(e, video, audio, payload, v, QueueRunBytes(payload, video), 0);
    } else {
      var a := QueueRuns(AssignOffsets(audio, QueuePayloadLength(video)));
      TrackSelects(e, video, audio, payload, a, QueueRunBytes(payload, audio), |v|);
    }
  }

  lemma TfdtFits(fs: seq<Fragment>, base: int, offsetSeconds: nat)
    requires fs != [] && WriteTraf(fs, base, offsetSeconds).Ok?
    ensures AddTfdtOffset(fs[0].decodeTime, fs[0].timescale, offsetSeconds).Ok?
  {
    hide AddTfdtOffset, TrafSize;
  }

  lemma PlacedTimes(fs: seq<Fragment>, start: nat)
    requires fs != []
    ensures AssignOffsets(fs, start) != []
    ensures AssignOffsets(fs, start)[0].decodeTime == fs[0].decodeTime && AssignOffsets(fs, start)[0].timescale == fs[0].timescale
  {}

  /** Any segment built from queued fragments reads back as those fragments. */
  lemma BuiltSegmentReads(e: Envelope, video: seq<Fragment>, audio: seq<Fragment>, payload: bytes, u: Setup)
    requires video != [] && QueueOk(video) && QueueOk(audio) && OfTrack(video, u.video) && OfTrack(audio, u.audio)
    requires InBounds(payload, video) && InBounds(payload, audio)
    requires SegmentOf(e, video, audio, payload).Ok?
    ensures SegmentReads(SegmentOf(e, video, audio, payload).value.data, e, video, audio, payload, u)
  {
    hide SegmentOf, MoofBytes, Attached, QueueOk, InBounds, AssignOffsets, PayloadBase, WriteTraf, TrackReads, TryReadBox,
      Boxes, TrafSize, OfTrack, QueuePayloadLength;
    var data := SegmentOf(e, video, audio, payload).value.data;
    var at := |e.styp| + |e.prefix|;
    var base := PayloadBase(video, audio);
    var moof, behind := SegmentParts(e, video, audio, payload);
    var v, a := AssignOffsets(video, 0), AssignOffsets(audio, QueuePayloadLength(video));
    AssignKeeps(video, 0);
    AssignKeeps(audio, QueuePayloadLength(video));
    AssignLength(video, 0);
    AssignLength(audio, QueuePayloadLength(video));
    MoofReadsBack(e, v, a, MoofSize(v, a), base);
    TrafsWritten(e, v, a, MoofSize(v, a), base);
    MoofMoves(data, e.styp + e.prefix, moof, behind);
    TrafSizeBound(v);
    TrafSizeBound(a);
    var videoTraf := WriteTraf(v, base, e.offsetSeconds).value;
    TrackReadsBack(e, video, audio, payload, video, 0, u.video);
    if audio == [] {
      Witness(data, e, video, audio, payload, u, moof, videoTraf, []);
    } else {
      TrackReadsBack(e, video, audio, payload, audio, QueuePayloadLength(video), u.audio);
      Witness(data, e, video, audio, payload, u, moof, videoTraf, WriteTraf(a, base, e.offsetSeconds).value);
    }
  }

  lemma Witness(
    data: bytes, e: Envelope, video: seq<Fragment>, audio: seq<Fragment>, payload: bytes, u: Setup,
    moof: bytes, videoTraf: bytes, audioTraf: bytes)
    requires var at := |e.styp| + |e.prefix|;
             && at <= |data| && data[..at] == e.styp + e.prefix
             && TryReadBox(data, at) == Some(BoxRef(MOOF, 8, moof, at + |moof|))
             && Boxes(moof, 8) == MoofChildren(e, videoTraf, audioTraf)
             && TrackReads(data, at, videoTraf, video, payload, u.video, e.offsetSeconds)
             && (if audio == [] then audioTraf == []
                 else TrackReads(data, at, audioTraf, audio, payload, u.audio, e.offsetSeconds))
    ensures SegmentReads(data, e, video, audio, payload, u)
  {
    hide TryReadBox, Boxes, TrackReads, MoofChildren;
  }

  /** A box that is read whole on its own is read wherever it stands. */
  lemma MoofMoves(data: bytes, front: bytes, moof: bytes, behind: bytes)
    requires data == front + moof + behind && 8 <= |moof| && TryReadBox(moof, 0) == Some(BoxRef(MOOF, 8, moof, |moof|))
    requires ReadBe32(moof, 0) as int == |moof|
    ensures data[..|front|] == front && TryReadBox(data, |front|) == Some(BoxRef(MOOF, 8, moof, |front| + |moof|))
  {
    assert data[|front|..|front| + |moof|] == moof;
    assert forall i | 0 <= i < 8 :: data[|front| + i] == moof[i];
  }

  lemma TrafsWritten(e: Envelope, v: seq<Fragment>, a: seq<Fragment>, size: u32, base: int)
    requires v != [] && MoofBytes(e, v, a, size, base).Ok?
    ensures WriteTraf(v, base, e.offsetSeconds).Ok? && (a != [] ==> WriteTraf(a, base, e.offsetSeconds).Ok?)
    ensures |MoofBytes(e, v, a, size, base).value| >= 8 && ReadBe32(MoofBytes(e, v, a, size, base).value, 0) == size
  {
    hide WriteTraf, Mfhd;
    var moof := MoofBytes(e, v, a, size, base).value;
    assert moof[0..4] == Be32(size);
    ReadBe32Inverts(moof, 0, size);
  }

  /**
   * Whatever a whole reader has queued, a segment it emits was chosen well and reads back as what was chosen. Every
   * reader reached by pushes and drains is whole.
   */
  lemma EmittedSegmentReads(s: Core)
    requires Keeps(s)
    ensures match TryBuild(s)
            case Ok(Progress(_, Some(segment))) =>
              exists video: seq<Fragment>, audio: seq<Fragment> ::
                && WellChosen(s.queue, s.setup, video, audio)
                && SegmentReads(segment.data, EnvelopeOf(s), video, audio, s.queue.payload, s.setup)
            case _ => true
  {
    hide SegmentOf, ChooseCut, Reclaim, Drop, QueuesKeep, QueuesOk, SegmentReads, WellChosen, EnvelopeOf;
    match TryBuild(s)
    case Ok(Progress(_, Some(segment))) =>
      var q, u := s.queue, s.setup;
      var cut := ChooseCut(q, s.config, u).value;
      CutKeeps(q, s.config, u, Limit(s));
      PartsAreSound(q.(audio := cut.audio), u, Limit(s), cut.v, cut.a);
      ChosenWell(q, s.config, u);
      BuiltSegmentReads(EnvelopeOf(s), q.video[..cut.v], cut.audio[..cut.a], q.payload, u);
    case _ =>
  }

  lemma PartsAreSound(q: Queue, u: Setup, limit: nat, v: nat, a: nat)
    requires QueuesOk(q, u) && QueuesKeep(q, limit) && 0 < v <= |q.video| && a <= |q.audio|
    ensures QueueOk(q.video[..v]) && QueueOk(q.audio[..a])
    ensures OfTrack(q.video[..v], u.video) && OfTrack(q.audio[..a], u.audio)
    ensures InBounds(q.payload, q.video[..v]) && InBounds(q.payload, q.audio[..a])
  {
    hide Attached, TrackKeeps, Disjoint;
    assert forall f | f in q.video[..v] :: f in q.video;
    assert forall f | f in q.audio[..a] :: f in q.audio;
  }

  lemma ChosenWell(q: Queue, c: Config, u: Setup)
    requires QueuesOk(q, u)
    ensures match ChooseCut(q, c, u)
            case Ok(Cut(cut, v, a)) => WellChosen(q, u, q.video[..v], cut[..a])
            case _ => true
  {
    hide CutQueue, SelectVideoCount, Attached, CutCorrect;
    CutIsBoundary(q, c, u);
    match ChooseCut(q, c, u)
    case Ok(Cut(cut, v, a)) =>
      if u.audio.id != 0 {
        AudioScale(q.audio, u.audio);
        AudioCutIsShortest(q.audio, u.video.timescale, EndTime(q.video[v - 1]), u.audio.timescale);
      }
      assert ChosenBy(q, u, q.video[..v], cut[..a], v, cut, a);
    case _ =>
  }
}
