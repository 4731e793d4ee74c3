/** The segments a run hands out: together with what is still queued they hold exactly what the stream brought. */
module Mp4Handed {
  import opened Bytes
  import opened Mp4Types
  import opened Mp4Parse
  import opened Mp4Write
  import opened Mp4Select
  import opened Mp4Build
  import opened Mp4Reader
  import opened Mp4Runs
  import opened Mp4Keeps
  import opened Mp4Steps
  import opened Mp4Segments

  // ----- one segment -----

  /** What went into a segment: fragments of each track, the buffer that held their bytes, and its surroundings. */
  datatype Handed = Handed(e: Envelope, setup: Setup, video: seq<Fragment>, audio: seq<Fragment>, payload: bytes)

  /** The segment reads back as those fragments, starts with a sync sample and ends with exactly their bytes. */
  ghost predicate Shows(segment: Segment, h: Handed) {
    && SegmentReads(segment.data, h.e, h.video, h.audio, h.payload, h.setup)
    && QueueSamples(h.video) != [] && IsSyncSample(QueueSamples(h.video)[0].flags)
    && exists head: bytes :: segment.data == head + (PayloadOf(h.payload, h.video) + PayloadOf(h.payload, h.audio))
  }

  /** Bytes and samples of both tracks, and the counters of the segments built. */
  datatype Totals = Totals(
    videoBytes: bytes, audioBytes: bytes, videoSamples: seq<Sample>, audioSamples: seq<Sample>,
    sequence: u32, completed: u64, lastVideoEnd: u64)

  const NOTHING: Totals := Totals([], [], [], [], 1, 0, 0)

  function Add(t: Totals, h: Handed): Totals {
    Totals(t.videoBytes + PayloadOf(h.payload, h.video), t.audioBytes + PayloadOf(h.payload, h.audio),
           t.videoSamples + QueueSamples(h.video), t.audioSamples + QueueSamples(h.audio),
           (t.sequence + 1) % 0x1_0000_0000, Wrap64(t.completed as int + 1), VideoEnd([h], t.lastVideoEnd))
  }

  /** Where the video of the last of `hs` ends. */
  function VideoEnd(hs: seq<Handed>, otherwise: u64): u64 {
    if hs == [] || hs[|hs| - 1].video == [] then otherwise else
    var video := hs[|hs| - 1].video;
    EndTime(video[|video| - 1])
  }

  /** What a history says was put into segments, and how the queue counts them. */
  function Out(q: Queue): Totals {
    Totals(q.log.video.bytesOut, q.log.audio.bytesOut, q.log.video.samplesOut, q.log.audio.samplesOut,
           q.sequence, q.completed, q.lastVideoEnd)
  }

  /** What one segment shows is what the history gained with it. */
  ghost predicate Hands(before: Totals, segment: Option<Segment>, after: Totals) {
    match segment
    case None => after == before
    case Some(s) => exists h: Handed :: Shows(s, h) && h.e.sequence == before.sequence && after == Add(before, h)
  }

  lemma FirstSampleSync(fs: seq<Fragment>)
    requires fs != [] && QueueOk(fs) && fs[0].startsWithSync
    ensures QueueSamples(fs) != [] && IsSyncSample(QueueSamples(fs)[0].flags)
  {
    var f := fs[0];
    assert f in fs && Attached(f) && f.runs[0] in f.runs && RunOk(f.runs[0]);
    Mp4Select.FirstRunSamples(f.runs);
    assert QueueSamples(fs)[0] == f.runs[0].samples[0];
  }

  lemma PayloadIsQueueBytes(payload: bytes, fs: seq<Fragment>)
    requires InBounds(payload, fs)
    ensures PayloadOf(payload, fs) == QueueBytes(payload, fs)
  {
    CollectInBounds(payload, fs);
  }

  /** Sound fragments that make a segment show in it. */
  lemma BuiltShows(h: Handed)
    requires h.video != [] && QueueOk(h.video) && QueueOk(h.audio) && h.video[0].startsWithSync
    requires OfTrack(h.video, h.setup.video) && OfTrack(h.audio, h.setup.audio)
    requires InBounds(h.payload, h.video) && InBounds(h.payload, h.audio)
    requires SegmentOf(h.e, h.video, h.audio, h.payload).Ok?
    ensures Shows(SegmentOf(h.e, h.video, h.audio, h.payload).value, h)
  {
    hide SegmentOf, SegmentReads, QueueOk, OfTrack, InBounds, QueueBytes, PayloadOf, QueueSamples;
    BuiltSegmentReads(h.e, h.video, h.audio, h.payload, h.setup);
    var head := SegmentHead(h.e, h.video, h.audio, h.payload);
    FirstSampleSync(h.video);
    PayloadIsQueueBytes(h.payload, h.video);
    PayloadIsQueueBytes(h.payload, h.audio);
  }

  /** Building hands out what it takes from the queues. */
  lemma TryBuildHands(s: Core)
    requires Keeps(s)
    ensures TryBuild(s).Ok? ==> Hands(Out(s.queue), TryBuild(s).value.segment, Out(TryBuild(s).value.core.queue))
  {
    hide SegmentOf, ChooseCut, Reclaim, QueuesKeep, QueuesOk, Shows, PayloadOf, QueueSamples, QueueOk, OfTrack,
      InBounds;
    match TryBuild(s)
    case Ok(Progress(core, Some(segment))) =>
      var q, u := s.queue, s.setup;
      var cut := ChooseCut(q, s.config, u).value;
      var q1 := q.(audio := cut.audio);
      CutKeeps(q, s.config, u, Limit(s));
      PartsAreSound(q1, u, Limit(s), cut.v, cut.a);
      CutIsBoundary(q, s.config, u);
      StartsInSync(q, s.config, u);
      ReclaimKeepsFirst(Drop(q1, cut.v, cut.a));
      var h := Handed(EnvelopeOf(s), u, q.video[..cut.v], cut.audio[..cut.a], q.payload);
      BuiltShows(h);
      assert h.video[|h.video| - 1] == q.video[cut.v - 1];
      assert Out(core.queue) == Add(Out(q), h);
    case _ =>
  }

  lemma StartsInSync(q: Queue, c: Config, u: Setup)
    ensures ChooseCut(q, c, u).Ok? && ChooseCut(q, c, u).value.Cut? ==> q.video != [] && q.video[0].startsWithSync
  {
    hide SelectFrom, Mp4Audio.CutQueue;
  }

  // ----- one byte -----

  lemma CompleteMdatHandsNothing(s: Core)
    ensures CompleteMdat(s).Ok? ==> Out(CompleteMdat(s).value.queue) == Out(s.queue)
  {
    hide AttachPayload;
  }

  lemma CompleteMoofHandsNothing(s: Core)
    ensures CompleteMoof(s).Ok? ==> Out(CompleteMoof(s).value.queue) == Out(s.queue)
  {
    hide MoofFragment, ResolveInferred, Remember;
  }

  lemma BeginBoxHandsNothing(s: Core, size: u64, headerSize: nat)
    ensures BeginBox(s, size, headerSize).Ok? ==> Out(BeginBox(s, size, headerSize).value.queue) == Out(s.queue)
  {
    hide CompleteInit, BeginMedia, WriteSetup, WriteSource;
  }

  lemma FinishBoxHands(s: Core)
    requires Keeps(s) && |s.box.header| == s.box.required
    ensures FinishBox(s).Ok? ==> Hands(Out(s.queue), FinishBox(s).value.segment, Out(FinishBox(s).value.core.queue))
  {
    hide Keeps, CompleteMoof, CompleteMdat, TryBuild, CompleteStyp, Out, Shows;
    if FinishBox(s).Ok? {
      if s.box.kind == MOOF {
        CompleteMoofHandsNothing(s);
      } else if s.box.kind == MDAT {
        var s1 := CompleteMdat(s).value;
        CompleteMdatHandsNothing(s);
        FinishedMdatKeeps(s);
        TryBuildIgnoresBox(s1, NO_BOX);
        TryBuildHands(s1.(box := NO_BOX));
      }
    }
  }

  lemma FinishedMdatKeeps(s: Core)
    requires Keeps(s) && |s.box.header| == s.box.required && s.box.kind == MDAT && CompleteMdat(s).Ok?
    ensures Keeps(CompleteMdat(s).value.(box := NO_BOX))
  {
    hide QueuesOk, QueuesKeep, PendingOk, CompleteMdat;
    CompleteMdatKeeps(s);
  }

  lemma HeaderHands(s: Core)
    requires s.box.required in {8, 16} && |s.box.header| == s.box.required
    requires QueuesOk(s.queue, s.setup) && QueuesKeep(s.queue, |s.queue.payload|)
    requires s.source.pending.Some? ==> s.setup.initDone && PendingOk(s.source.pending.value, s.setup)
    ensures HeaderComplete(s).Ok? ==>
              Hands(Out(s.queue), HeaderComplete(s).value.segment, Out(HeaderComplete(s).value.core.queue))
  {
    hide QueuesKeep, QueuesOk, PendingOk, BeginBox, FinishBox, ReadBe32, ReadBe64, Out, Shows;
    var s1 := if s.box.required == 8 then s.(box := s.box.(kind := ReadBe32(s.box.header, 4))) else s;
    var size: u64 := if s.box.required == 8 then ReadBe32(s.box.header, 0) else ReadBe64(s.box.header, 8);
    BeginBoxKeepsReader(s1, size, s.box.required);
    BeginBoxKeeps(s1, size, s.box.required);
    BeginBoxHandsNothing(s1, size, s.box.required);
    if BeginBox(s1, size, s.box.required).Ok? && BeginBox(s1, size, s.box.required).value.box.remaining == 0 {
      FinishBoxHands(BeginBox(s1, size, s.box.required).value);
    }
  }

  lemma FeedHands(s: Core, b: byte)
    requires ParserOk(s.box) && Keeps(s)
    ensures FeedByte(s, b).Ok? ==> Hands(Out(s.queue), FeedByte(s, b).value.segment, Out(FeedByte(s, b).value.core.queue))
  {
    hide QueuesKeep, QueuesOk, PendingOk, HeaderComplete, FinishBox, Shows;
    if |s.box.header| < s.box.required {
      var s1 := s.(box := s.box.(header := s.box.header + [b]));
      if |s1.box.header| == s1.box.required { HeaderHands(s1); }
    } else {
      WriteKeeps(s, [b], s.box.remaining - 1);
      FinishBoxHands(WriteBoxData(s, [b]).(box := s.box.(remaining := s.box.remaining - 1)));
    }
  }

  // ----- runs -----

  lemma {:induction false} ProcessedHands(s: Core, data: bytes)
    requires ParserOk(s.box) && Keeps(s)
    ensures ProcessedBytes(s, data).Ok? ==>
              Hands(Out(s.queue), ProcessedBytes(s, data).value.segment, Out(ProcessedBytes(s, data).value.core.queue))
    decreases |data|
  {
    hide FeedByte, Keeps, ParserOk, Out, Shows;
    if data != [] {
      FeedKeepsParser(s, data[0]);
      FeedKeepsReader(s, data[0]);
      FeedHands(s, data[0]);
      if FeedByte(s, data[0]).Ok? && FeedByte(s, data[0]).value.segment.None? {
        ProcessedHands(FeedByte(s, data[0]).value.core, data[1..]);
      }
    }
  }

  lemma DeferredHands(r: Reader)
    requires ParserOk(r.core.box) && Keeps(r.core)
    ensures TryDeferred(r).Ok? ==>
              Hands(Out(r.core.queue), TryDeferred(r).value.segment, Out(TryDeferred(r).value.reader.core.queue))
  {
    hide Keeps, TryBuild, Out, Shows;
    TryBuildHands(r.core);
    TryBuildKeeps(r.core);
    ProcessedHands(r.core, r.deferred);
  }

  lemma PerformHands(r: Reader, call: Call)
    requires ParserOk(r.core.box) && Keeps(r.core)
    ensures Perform(r, call).Ok? ==>
              Hands(Out(r.core.queue), Perform(r, call).value.segment, Out(Perform(r, call).value.reader.core.queue))
  {
    hide Keeps, TryDeferred, Out, Shows;
    DeferredHands(r);
    match call
    case PushCall(data) =>
      DeferredKeepsParser(r);
      DeferredKeepsReader(r);
      if TryDeferred(r).Ok? { ProcessedHands(TryDeferred(r).value.reader.core, data); }
    case DeferredCall =>
  }

  function AddAll(t: Totals, hs: seq<Handed>): Totals
    decreases |hs|
  {
    if hs == [] then t else AddAll(Add(t, hs[0]), hs[1..])
  }

  /** Sequence numbers counted on from `first`, modulo 2^32. */
  predicate Numbered(hs: seq<Handed>, first: u32) {
    forall i | 0 <= i < |hs| :: hs[i].e.sequence as int == (first as int + i) % 0x1_0000_0000
  }

  /** Segment by segment, what was handed out. */
  ghost predicate AllShow(segments: seq<Segment>, hs: seq<Handed>) {
    |segments| == |hs| && forall i | 0 <= i < |hs| :: Shows(segments[i], hs[i])
  }

  /** The segments of a run show what its history says was put into segments. */
  lemma {:induction false} RunHands(r: Reader, calls: seq<Call>) returns (hs: seq<Handed>)
    requires ParserOk(r.core.box) && Keeps(r.core)
    ensures AllShow(PerformAll(r, calls).segments, hs)
    ensures PerformAll(r, calls).end.Ok? ==> Out(PerformAll(r, calls).end.value.core.queue) == AddAll(Out(r.core.queue), hs)
    ensures Numbered(hs, r.core.queue.sequence)
    decreases |calls|
  {
    hide Perform, Keeps, ParserOk, Out, Add, Shows;
    hs := [];
    if calls != [] {
      PerformKeeps(r, calls[0]);
      PerformHands(r, calls[0]);
      if Perform(r, calls[0]).Ok? {
        var step := Perform(r, calls[0]).value;
        hs := RunHands(step.reader, calls[1..]);
        if step.segment.Some? {
          var h :| Shows(step.segment.value, h) && h.e.sequence == Out(r.core.queue).sequence
                   && Out(step.reader.core.queue) == Add(Out(r.core.queue), h);
          var rest := hs;
          hs := [h] + rest;
          assert hs[1..] == rest;
          NextNumbered(r.core.queue, step.reader.core.queue, h, rest);
        } else {
          BeforeNothing(PerformAll(step.reader, calls[1..]));
          SameCounters(r.core.queue, step.reader.core.queue);
        }
      }
    }
  }

  lemma SameCounters(q: Queue, r: Queue)
    requires Out(q) == Out(r)
    ensures q.sequence == r.sequence
  {}

  lemma NextNumbered(q: Queue, r: Queue, h: Handed, rest: seq<Handed>)
    requires h.e.sequence == Out(q).sequence && Out(r) == Add(Out(q), h) && Numbered(rest, r.sequence)
    ensures Numbered([h] + rest, q.sequence)
  {
    hide PayloadOf, QueueSamples;
    assert r.sequence == (q.sequence + 1) % 0x1_0000_0000;
    forall i | 0 <= i < |[h] + rest| ensures ([h] + rest)[i].e.sequence as int == (q.sequence as int + i) % 0x1_0000_0000 {
      if i > 0 { assert ([h] + rest)[i] == rest[i - 1]; }
    }
  }

  /**
   * In every run of push and try_process_deferred, each track's accepted bytes are those of the segments handed out, in
   * order, followed by those still queued, and its samples likewise (up to durations still inferred); every segment
   * reads back as its part; queued ranges stay apart and in bounds, and a half-read `mdat` is intact.
   */
  lemma Conservation(config: Config, calls: seq<Call>) returns (hs: seq<Handed>)
    ensures AllShow(PerformAll(Reader(NewCore(config), []), calls).segments, hs)
    ensures match PerformAll(Reader(NewCore(config), []), calls).end
            case Err(_) => true
            case Ok(r) =>
              var q, out := r.core.queue, AddAll(NOTHING, hs);
              && InBounds(q.payload, q.video) && InBounds(q.payload, q.audio) && Disjoint(q.video + q.audio)
              && q.log.video.bytesIn == out.videoBytes + QueueBytes(q.payload, q.video)
              && q.log.audio.bytesIn == out.audioBytes + QueueBytes(q.payload, q.audio)
              && Erase(q.log.video.samplesIn) == Erase(out.videoSamples + QueueSamples(q.video))
              && Erase(q.log.audio.samplesIn) == Erase(out.audioSamples + QueueSamples(q.audio))
              && (!q.log.video.inferred ==> q.log.video.samplesIn == out.videoSamples + QueueSamples(q.video))
              && (!q.log.audio.inferred ==> q.log.audio.samplesIn == out.audioSamples + QueueSamples(q.audio))
              && (MdatOpen(r.core.box) ==> q.payloadStart <= |q.payload| && q.payload[q.payloadStart..] == q.log.open)
  {
    hide QueuesOk, Disjoint, QueueBytes, QueueSamples, Erase, Perform, PerformAll, NoneInferred, Shows;
    var r := Reader(NewCore(config), []);
    NewReaderKeeps(config);
    EveryRunConserves(r, calls);
    hs := RunHands(r, calls);
  }

  // ----- numbering -----

  /** The number a player finds in the `mfhd` of a `moof` that starts at `at`. */
  function MfhdNumber(data: bytes, at: nat): Option<u32> {
    match TryReadBox(data, at)
    case None => None
    case Some(moof) =>
      match TryReadBox(moof.body, moof.header)
      case None => None
      case Some(b) =>
        if moof.kind != MOOF || b.kind != MFHD || |b.body| != b.header + 8 || ReadBe32(b.body, b.header) != 0 then None
        else Some(ReadBe32(b.body, b.header + 4))
  }

  lemma MfhdReads(sequence: u32)
    ensures |Mfhd(sequence)| == 16 && ReadBe32(Mfhd(sequence), 8) == 0 && ReadBe32(Mfhd(sequence), 12) == sequence
  {
    hide Be32, ReadBe32;
    var d := Mfhd(sequence);
    assert d[8..12] == Be32(0) && d[12..16] == Be32(sequence);
    ReadBe32Inverts(d, 8, 0);
    ReadBe32Inverts(d, 12, sequence);
  }

  lemma FirstNumber(data: bytes, at: nat, moof: bytes, sequence: u32)
    requires TryReadBox(data, at) == Some(BoxRef(MOOF, 8, moof, at + |moof|))
    requires Boxes(moof, 8) != [] && Boxes(moof, 8)[0] == BoxRef(MFHD, 8, Mfhd(sequence), 24)
    ensures MfhdNumber(data, at) == Some(sequence)
  {
    hide TryReadBox, ReadBe32, Mfhd;
    assert TryReadBox(moof, 8) == Some(BoxRef(MFHD, 8, Mfhd(sequence), 24));
    MfhdReads(sequence);
  }

  lemma ChildrenStart(e: Envelope, videoTraf: bytes, audioTraf: bytes)
    ensures MoofChildren(e, videoTraf, audioTraf) != []
    ensures MoofChildren(e, videoTraf, audioTraf)[0] == BoxRef(MFHD, 8, Mfhd(e.sequence), 24)
  {}

  lemma ShownNumber(segment: Segment, h: Handed)
    requires Shows(segment, h)
    ensures MfhdNumber(segment.data, |h.e.styp| + |h.e.prefix|) == Some(h.e.sequence)
  {
    hide TrackReads, TryReadBox, ReadBe32, Mfhd, PayloadOf, QueueSamples, Boxes, MfhdNumber, IsSyncSample, MoofChildren;
    var at := |h.e.styp| + |h.e.prefix|;
    var moof: bytes, videoTraf: bytes, audioTraf: bytes :|
      && TryReadBox(segment.data, at) == Some(BoxRef(MOOF, 8, moof, at + |moof|))
      && Boxes(moof, 8) == MoofChildren(h.e, videoTraf, audioTraf);
    ChildrenStart(h.e, videoTraf, audioTraf);
    FirstNumber(segment.data, at, moof, h.e.sequence);
  }

  lemma OneMore(x: nat, n: nat, m: nat)
    requires m > 0 && n > 0
    ensures ((x + 1) % m + (n - 1)) % m == (x + n) % m
  {
    var q := (x + 1) / m;
    assert x + n == q * m + ((x + 1) % m + (n - 1));
    WholeTurns(q, (x + 1) % m + (n - 1), m);
  }

  lemma WholeTurns(q: nat, r: nat, m: nat)
    requires m > 0
    ensures (q * m + r) % m == r % m
  {
    var d := r / m;
    assert q * m + r == (q + d) * m + r % m;
    DivideUnique(q * m + r, m, q + d, r % m);
  }

  lemma AddCounts(t: Totals, h: Handed)
    ensures Add(t, h).sequence as int == (t.sequence as int + 1) % 0x1_0000_0000
    ensures Add(t, h).completed as int == (t.completed as int + 1) % 0x1_0000_0000_0000_0000
    ensures Add(t, h).lastVideoEnd == VideoEnd([h], t.lastVideoEnd)
  {
    hide PayloadOf, QueueSamples, VideoEnd;
  }

  lemma {:induction false} CountedUp(t: Totals, hs: seq<Handed>)
    ensures AddAll(t, hs).sequence as int == (t.sequence as int + |hs|) % 0x1_0000_0000
    ensures AddAll(t, hs).completed as int == (t.completed as int + |hs|) % 0x1_0000_0000_0000_0000
    decreases |hs|
  {
    hide Add;
    if hs != [] {
      AddCounts(t, hs[0]);
      CountedUp(Add(t, hs[0]), hs[1..]);
      OneMore(t.sequence, |hs|, 0x1_0000_0000);
      OneMore(t.completed, |hs|, 0x1_0000_0000_0000_0000);
    }
  }

  lemma {:induction false} LastVideo(t: Totals, hs: seq<Handed>)
    requires forall h | h in hs :: h.video != []
    ensures AddAll(t, hs).lastVideoEnd == VideoEnd(hs, t.lastVideoEnd)
    decreases |hs|
  {
    hide Add, EndTime;
    if hs != [] {
      AddCounts(t, hs[0]);
      LastVideo(Add(t, hs[0]), hs[1..]);
      if |hs| > 1 {
        assert hs[1..][|hs| - 2] == hs[|hs| - 1] && hs[|hs| - 1] in hs;
      }
    }
  }

  /**
   * In every run the n-th segment handed out carries the number n in its `mfhd`, modulo 2^32; the reader has counted as
   * many segments as it handed out and remembers where the video of the last one ended.
   */
  lemma SegmentsAreNumbered(config: Config, calls: seq<Call>) returns (hs: seq<Handed>)
    ensures var o := PerformAll(Reader(NewCore(config), []), calls);
            && AllShow(o.segments, hs)
            && (forall i | 0 <= i < |hs| ::
                  MfhdNumber(o.segments[i].data, |hs[i].e.styp| + |hs[i].e.prefix|) == Some((i + 1) % 0x1_0000_0000))
            && (o.end.Ok? ==>
                  var q := o.end.value.core.queue;
                  && q.completed as int == |o.segments| % 0x1_0000_0000_0000_0000
                  && (o.segments == [] ==> q.lastVideoEnd == 0)
                  && (o.segments != [] ==> hs[|hs| - 1].video != [] && q.lastVideoEnd == VideoEnd(hs, 0)))
  {
    hide Perform, PerformAll, MfhdNumber, Shows, AddAll;
    var r := Reader(NewCore(config), []);
    NewReaderKeeps(config);
    hs := RunHands(r, calls);
    var o := PerformAll(r, calls);
    forall i | 0 <= i < |hs|
      ensures MfhdNumber(o.segments[i].data, |hs[i].e.styp| + |hs[i].e.prefix|) == Some((i + 1) % 0x1_0000_0000)
    {
      ShownNumber(o.segments[i], hs[i]);
    }
    CountedUp(NOTHING, hs);
    forall h | h in hs ensures h.video != [] {
      var i :| 0 <= i < |hs| && hs[i] == h;
      ShownVideo(o.segments[i], h);
    }
    LastVideo(NOTHING, hs);
    assert Out(r.core.queue) == NOTHING;
  }

  lemma ShownVideo(segment: Segment, h: Handed)
    requires Shows(segment, h)
    ensures h.video != []
  {
    hide SegmentReads;
  }

  // ----- pushed and drained chunks -----

  /** What `a` and then `b` do is what they do together. */
  lemma {:induction false} PerformAllConcat(r: Reader, a: seq<Call>, b: seq<Call>)
    requires ParserOk(r.core.box)
    ensures var o := PerformAll(r, a);
            && (o.end.Ok? ==> ParserOk(o.end.value.core.box))
            && PerformAll(r, a + b) == if o.end.Err? then o else Before(o.segments, PerformAll(o.end.value, b))
    decreases |a|
  {
    hide Perform, ParserOk;
    if a == [] {
      assert a + b == b;
      BeforeNothing(PerformAll(r, b));
    } else {
      assert (a + b)[1..] == a[1..] + b && (a + b)[0] == a[0];
      PerformKeeps(r, a[0]);
      if Perform(r, a[0]).Ok? {
        var step := Perform(r, a[0]).value;
        PerformAllConcat(step.reader, a[1..], b);
        var o := PerformAll(step.reader, a[1..]);
        if o.end.Ok? { BeforeTwice(Taken(step.segment), o.segments, PerformAll(o.end.value, b)); }
      }
    }
  }

  lemma OneCall(r: Reader, call: Call)
    requires ParserOk(r.core.box)
    ensures PerformAll(r, [call]) == match Perform(r, call)
                                     case Err(e) => Fail(e)
                                     case Ok(step) => Before(Taken(step.segment), Idle(step.reader))
  {
    hide Perform, ParserOk;
    PerformKeeps(r, call);
    assert [call][1..] == [];
  }

  /** Draining is asking again and again. */
  lemma {:induction false} DrainCalls(r: Reader) returns (calls: seq<Call>)
    requires ParserOk(r.core.box)
    ensures Drain(r) == PerformAll(r, calls)
    decreases |r.deferred|, |r.core.queue.video|
  {
    hide TryDeferred, ParserOk, PerformAll;
    OneCall(r, DeferredCall);
    DeferredKeepsParser(r);
    calls := [DeferredCall];
    if TryDeferred(r).Ok? {
      var step := TryDeferred(r).value;
      if step.segment.None? {
        BeforeNothing(Idle(step.reader));
      } else {
        DeferredShrinks(r);
        var rest := DrainCalls(step.reader);
        PerformAllConcat(r, calls, rest);
        calls := calls + rest;
        BeforeTwice(Taken(step.segment), [], PerformAll(step.reader, rest));
        assert Taken(step.segment) + [] == Taken(step.segment);
      }
    }
  }

  /** Pushing chunks and draining after each is a sequence of calls, so what holds of all runs holds of it. */
  lemma {:induction false} DriveCalls(r: Reader, chunks: seq<bytes>) returns (calls: seq<Call>)
    requires ParserOk(r.core.box)
    ensures Drive(r, chunks) == PerformAll(r, calls)
    decreases |chunks|
  {
    hide Push, Drain, ParserOk, PerformAll;
    if chunks == [] {
      calls := [];
      NoCalls(r);
    } else {
      PushKeepsParser(r, chunks[0]);
      PushAndDrainKeepsParser(r, chunks[0]);
      OneCall(r, PushCall(chunks[0]));
      calls := [PushCall(chunks[0])];
      if Push(r, chunks[0]).Ok? {
        var step := Push(r, chunks[0]).value;
        var drained := DrainCalls(step.reader);
        PerformAllConcat(r, calls, drained);
        BeforeTwice(Taken(step.segment), [], PerformAll(step.reader, drained));
        assert Taken(step.segment) + [] == Taken(step.segment);
        calls := calls + drained;
        if PushAndDrain(r, chunks[0]).end.Ok? {
          var rest := DriveCalls(PushAndDrain(r, chunks[0]).end.value, chunks[1..]);
          PerformAllConcat(r, calls, rest);
          calls := calls + rest;
        }
      }
    }
  }

  lemma NoCalls(r: Reader)
    requires ParserOk(r.core.box)
    ensures PerformAll(r, []) == Idle(r)
  {}

  /** So the segments of a stream pushed in chunks and drained are numbered from one. */
  lemma DrivenSegmentsAreNumbered(config: Config, chunks: seq<bytes>) returns (hs: seq<Handed>)
    ensures var o := Drive(Reader(NewCore(config), []), chunks);
            && AllShow(o.segments, hs)
            && (forall i | 0 <= i < |hs| ::
                  MfhdNumber(o.segments[i].data, |hs[i].e.styp| + |hs[i].e.prefix|) == Some((i + 1) % 0x1_0000_0000))
            && (o.end.Ok? ==>
                  var q := o.end.value.core.queue;
                  && q.completed as int == |o.segments| % 0x1_0000_0000_0000_0000
                  && (o.segments == [] ==> q.lastVideoEnd == 0)
                  && (o.segments != [] ==> hs[|hs| - 1].video != [] && q.lastVideoEnd == VideoEnd(hs, 0)))
  {
    hide Drive, PerformAll, MfhdNumber, AllShow;
    var calls := DriveCalls(Reader(NewCore(config), []), chunks);
    hs := SegmentsAreNumbered(config, calls);
  }
}
