/** Sync starts over whole runs: once video is queued that starts in sync, no call fails for a non-sync start. */
module Mp4Sync {
  import opened Bytes
  import opened Mp4Types
  import opened Mp4Parse
  import opened Mp4Write
  import opened Mp4Select
  import opened Mp4Audio
  import opened Mp4Build
  import opened Mp4Reader
  import opened Mp4Runs
  import opened Mp4Keeps
  import opened Mp4Steps
  import opened Mp4Boundaries

  /** Not the error for a non-sync start. */
  predicate Other<T>(r: Result<T>) { r.Err? ==> r.error != NonSyncStart }

  // ----- where the error does not come from -----

  lemma {:induction false} TrafFieldsOther(d: bytes, at: nat, tfhd: Option<Tfhd>, time: Option<u64>)
    ensures Other(TrafFields(d, at, tfhd, time))
    decreases |d| - at
  {
    hide TryReadBox, ReadTfdt;
    match TryReadBox(d, at)
    case None =>
    case Some(b) =>
      if b.kind == TFHD {
        if tfhd.None? && ParseTfhd(b.body, b.header).Ok? {
          TrafFieldsOther(d, b.next, Some(ParseTfhd(b.body, b.header).value), time);
        }
      } else if b.kind == TFDT {
        TrafFieldsOther(d, b.next, tfhd, ReadTfdt(b.body, b.header));
      } else {
        TrafFieldsOther(d, b.next, tfhd, time);
      }
  }

  lemma {:induction false} TrafRunsOther(d: bytes, at: nat, t: TrunDefaults, total: nat)
    ensures Other(TrafRuns(d, at, t, total))
    decreases |d| - at
  {
    hide TryReadBox;
    match TryReadBox(d, at)
    case None =>
    case Some(b) =>
      if b.kind != TRUN {
        TrafRunsOther(d, b.next, t, total);
      } else if NormalizedTrun(b.body, b.header, t).Ok? {
        TrafRunsOther(d, b.next, t, total + NormalizedTrun(b.body, b.header, t).value.duration);
      }
  }

  lemma {:induction false} MoofTrafOther(
    d: bytes, at: nat, found: Option<Fragment>, video: TrackIds, audio: TrackIds, videoHint: u32, audioHint: u32)
    ensures Other(MoofTraf(d, at, found, video, audio, videoHint, audioHint))
    decreases |d| - at
  {
    hide TryReadBox, TrafFields, TrafRuns;
    match TryReadBox(d, at)
    case None =>
    case Some(b) =>
      if b.kind != TRAF {
        MoofTrafOther(d, b.next, found, video, audio, videoHint, audioHint);
      } else if found.None? {
        TrafOther(b.body, b.header, video, audio, videoHint, audioHint);
        var r := ParsedTraf(b.body, b.header, video, audio, videoHint, audioHint);
        if r.Ok? { MoofTrafOther(d, b.next, Some(r.value), video, audio, videoHint, audioHint); }
      }
  }

  lemma TrafOther(d: bytes, header: nat, video: TrackIds, audio: TrackIds, videoHint: u32, audioHint: u32)
    ensures Other(ParsedTraf(d, header, video, audio, videoHint, audioHint))
  {
    hide TrafFields, TrafRuns;
    TrafFieldsOther(d, header, None, None);
    if TrafFields(d, header, None, None).Ok? {
      var fields := TrafFields(d, header, None, None).value;
      if fields.0.Some? {
        var track := TrackOf(fields.0.value.trackId, video, audio, videoHint, audioHint);
        if track.Some? { TrafRunsOther(d, header, DefaultsFor(fields.0.value, track.value.0.trex, track.value.1), 0); }
      }
    }
  }

  lemma {:induction false} TrexOther(boxes: seq<BoxRef>, found: seq<(u32, Trex)>)
    ensures Other(TrexEntries(boxes, found))
    decreases |boxes|
  {
    if boxes != [] {
      TrexOther(boxes[1..], found);
      var entry := ReadTrex(boxes[0].body, boxes[0].header);
      if entry.Some? { TrexOther(boxes[1..], found + [entry.value]); }
    }
  }

  lemma {:induction false} MoovOther(boxes: seq<BoxRef>, t: InitTracks)
    ensures Other(MoovFields(boxes, t))
    decreases |boxes|
  {
    hide TrackFields, TrexEntries, Boxes;
    if boxes != [] {
      var b := boxes[0];
      if b.kind == TRAK {
        var (id, timescale, _) := TrackFields(Boxes(b.body, b.header), 0, 0, 0);
        MoovOther(boxes[1..], t);
        MoovOther(boxes[1..], t.(video := (id, timescale)));
        MoovOther(boxes[1..], t.(audio := (id, timescale)));
      } else if b.kind == MVEX {
        TrexOther(Boxes(b.body, b.header), t.trex);
        if TrexEntries(Boxes(b.body, b.header), t.trex).Ok? {
          MoovOther(boxes[1..], t.(trex := TrexEntries(Boxes(b.body, b.header), t.trex).value));
        }
      } else {
        MoovOther(boxes[1..], t);
      }
    }
  }

  lemma InitOther(u: Setup)
    ensures Other(CompleteInit(u))
  {
    hide MoovFields, Boxes, FindMoov, TrexFor;
    var moov := FindMoov(Boxes(u.init, 0));
    if moov.Some? { MoovOther(Boxes(moov.value.body, moov.value.header), InitTracks((0, 0), (0, 0), [])); }
  }

  lemma {:induction false} TrunsOther(runs: seq<Run>, base: int)
    ensures Other(WriteTruns(runs, base))
  {
    hide SamplesBytes, Header, TrunFlagWord;
    if runs != [] { TrunsOther(runs[1..], base); }
  }

  lemma TrafWriteOther(fs: seq<Fragment>, base: int, offsetSeconds: nat)
    requires fs != []
    ensures Other(WriteTraf(fs, base, offsetSeconds))
  {
    hide WriteTruns, Header, Tfdt;
    TrunsOther(QueueRuns(fs), base);
  }

  lemma {:induction false} CollectOther(payload: bytes, fs: seq<Fragment>)
    ensures Other(CollectPayload(payload, fs))
  {
    if fs != [] { CollectOther(payload, fs[1..]); }
  }

  lemma SegmentOther(e: Envelope, video: seq<Fragment>, audio: seq<Fragment>, payload: bytes)
    requires video != []
    ensures Other(SegmentOf(e, video, audio, payload))
  {
    hide WriteTraf, CollectPayload, Header, Mfhd, MdatHeader, AssignRuns, QueuePayloadLength, TrafSize;
    var v, a := AssignOffsets(video, 0), AssignOffsets(audio, QueuePayloadLength(video));
    var base := PayloadBase(video, audio);
    TrafWriteOther(v, base, e.offsetSeconds);
    if a != [] { TrafWriteOther(a, base, e.offsetSeconds); }
    CollectOther(payload, video + audio);
  }

  lemma {:induction false} SplitRunsOther(runs: seq<Run>, split: nat)
    ensures Other(SplitRuns(runs, split))
  {
    hide BuildExplicitRun;
    if runs != [] { SplitRunsOther(runs[1..], split - Min(split, |runs[0].samples|)); }
  }

  lemma {:induction false} CutOther(fs: seq<Fragment>, videoScale: u32, videoEnd: u64)
    ensures Other(CutQueue(fs, videoScale, videoEnd))
  {
    hide Reach, SplitRuns, LaidOut;
    if fs != [] {
      CutOther(fs[1..], videoScale, videoEnd);
      var split := FindAudioSplit(fs[0], videoScale, videoEnd);
      if split.Ok? && split.value.Some? { SplitRunsOther(fs[0].runs, split.value.value); }
    }
  }

  // ----- where it comes from -----

  /** No video is queued yet, or the queue starts in sync. */
  predicate HeadOk(q: Queue) { q.video != [] ==> q.video[0].startsWithSync }

  lemma TryBuildOther(s: Core)
    requires HeadOk(s.queue)
    ensures Other(TryBuild(s))
  {
    hide CutQueue, SelectFrom, SegmentOf, Reclaim, Drop;
    var q, u := s.queue, s.setup;
    if q.video != [] { SyncHeadNeverFails(q, s.config, u.video.timescale); }
    var v := ChooseVideo(q, s.config, u.video.timescale);
    if v.Ok? && 0 < v.value <= |q.video| {
      CutOther(q.audio, u.video.timescale, EndTime(q.video[v.value - 1]));
    }
    if ChooseCut(q, s.config, u).Ok? && ChooseCut(q, s.config, u).value.Cut? {
      var cut := ChooseCut(q, s.config, u).value;
      SegmentOther(EnvelopeOf(s), q.video[..cut.v], cut.audio[..cut.a], q.payload);
    }
  }

  lemma CompleteMoofOther(s: Core)
    ensures Other(CompleteMoof(s))
  {
    hide MoofTraf, TryReadBox, LastInferred, ClearInferred;
    var root := TryReadBox(s.source.moof, 0);
    if root.Some? {
      MoofTrafOther(root.value.body, root.value.header, None, s.setup.video, s.setup.audio,
                    HintFor(s.hints.video, s.hints.videoScale, s.setup.video),
                    HintFor(s.hints.audio, s.hints.audioScale, s.setup.audio));
    }
  }

  lemma BeginBoxOther(s: Core, size: u64, headerSize: nat)
    ensures Other(BeginBox(s, size, headerSize))
  {
    hide CompleteInit, BeginTarget;
    InitOther(s.setup);
  }

  /** The first video fragment of the stream is not a sync one. */
  predicate NonSyncFirst(s: Core) {
    s.queue.video == [] && s.source.pending.Some? && s.source.pending.value.trackId == s.setup.video.id
    && !s.source.pending.value.startsWithSync
  }

  lemma FinishBoxOther(s: Core)
    requires HeadOk(s.queue)
    ensures Other(FinishBox(s)) || NonSyncFirst(s)
  {
    hide CompleteMoof, TryBuild, CompleteStyp, Contiguous, RunsSize, LaidOut;
    if s.box.kind == MOOF {
      CompleteMoofOther(s);
    } else if s.box.kind == MDAT {
      if CompleteMdat(s).Ok? && !NonSyncFirst(s) { TryBuildOther(CompleteMdat(s).value); }
    }
  }

  /** The error for a non-sync start means that the first video fragment of all is not a sync one, and nothing else. */
  lemma NonSyncIsTheFirstFragment(s: Core, b: byte)
    requires ParserOk(s.box) && HeadOk(s.queue) && FeedByte(s, b) == Err(NonSyncStart)
    ensures NonSyncFirst(s)
  {
    hide BeginBox, FinishBox, ReadBe32, ReadBe64;
    if |s.box.header| < s.box.required {
      var s1 := s.(box := s.box.(header := s.box.header + [b]));
      var s2 := if s.box.required == 8 then s1.(box := s1.box.(kind := ReadBe32(s1.box.header, 4))) else s1;
      var size: u64 := if s.box.required == 8 then ReadBe32(s1.box.header, 0) else ReadBe64(s1.box.header, 8);
      BeginBoxOther(s2, size, s.box.required);
      var begun := BeginBox(s2, size, s.box.required).value;
      BeginBoxKeepsVideo(s2, size, s.box.required);
      FinishBoxOther(begun);
      BeginBoxKeepsTracks(s2, size, s.box.required);
    } else {
      FinishBoxOther(WriteBoxData(s, [b]).(box := s.box.(remaining := s.box.remaining - 1)));
    }
  }

  /** Before the initialization is read there is no video, and no `mdat` may begin. */
  lemma BeginBoxKeepsTracks(s: Core, size: u64, headerSize: nat)
    requires BeginBox(s, size, headerSize).Ok? && FinishBox(BeginBox(s, size, headerSize).value) == Err(NonSyncStart)
    ensures BeginBox(s, size, headerSize).value.setup.video.id == s.setup.video.id
  {
    hide CompleteInit, BeginMedia, CompleteMoof, CompleteMdat, TryBuild, CompleteStyp;
    var begun := BeginBox(s, size, headerSize).value;
    BeginBoxKeepsVideo(s, size, headerSize);
    if begun.box.kind == MOOF { CompleteMoofOther(begun); }
    BegunKind(s, size, headerSize);
  }

  lemma BegunKind(s: Core, size: u64, headerSize: nat)
    requires BeginBox(s, size, headerSize).Ok?
    ensures BeginBox(s, size, headerSize).value.box.kind == s.box.kind
    ensures s.box.kind == MDAT ==> s.setup.initDone
  {
    hide CompleteInit, BeginMedia;
  }

  // ----- runs -----

  lemma FeedOther(s: Core, b: byte)
    requires ParserOk(s.box) && SyncHead(s.queue)
    ensures Other(FeedByte(s, b))
  {
    hide FeedByte;
    if FeedByte(s, b) == Err(NonSyncStart) { NonSyncIsTheFirstFragment(s, b); }
  }

  lemma {:induction false} ProcessedOther(s: Core, data: bytes)
    requires ParserOk(s.box) && SyncHead(s.queue)
    ensures Other(ProcessedBytes(s, data))
    ensures ProcessedBytes(s, data).Ok? ==> SyncHead(ProcessedBytes(s, data).value.core.queue)
    decreases |data|
  {
    hide FeedByte, SyncHead, ParserOk;
    if data != [] {
      FeedKeepsParser(s, data[0]);
      FeedOther(s, data[0]);
      SyncHeadForever(s, data[0]);
      if FeedByte(s, data[0]).Ok? { ProcessedOther(FeedByte(s, data[0]).value.core, data[1..]); }
    }
  }

  lemma PerformOther(r: Reader, call: Call)
    requires ParserOk(r.core.box) && SyncHead(r.core.queue)
    ensures Other(Perform(r, call)) && (Perform(r, call).Ok? ==> SyncHead(Perform(r, call).value.reader.core.queue))
  {
    hide TryBuild, ParserOk, ProcessedBytes;
    TryBuildOther(r.core);
    TryBuildKeepsHead(r.core);
    TryBuildKeeps(r.core);
    ProcessedOther(r.core, r.deferred);
    DeferredKeepsParser(r);
    match call
    case PushCall(data) =>
      if TryDeferred(r).Ok? && TryDeferred(r).value.segment.None? { ProcessedOther(TryDeferred(r).value.reader.core, data); }
    case DeferredCall =>
  }

  /** From the first sync video fragment on, no sequence of calls ends with the error for a non-sync start. */
  lemma {:induction false} NonSyncIsUnreachable(r: Reader, calls: seq<Call>)
    requires ParserOk(r.core.box) && SyncHead(r.core.queue)
    ensures Other(PerformAll(r, calls).end)
    ensures PerformAll(r, calls).end.Ok? ==> SyncHead(PerformAll(r, calls).end.value.core.queue)
    decreases |calls|
  {
    hide Perform, SyncHead, ParserOk;
    if calls != [] {
      PerformKeeps(r, calls[0]);
      PerformOther(r, calls[0]);
      if Perform(r, calls[0]).Ok? { NonSyncIsUnreachable(Perform(r, calls[0]).value.reader, calls[1..]); }
    }
  }

  lemma {:induction false} DrainOther(r: Reader)
    requires ParserOk(r.core.box) && SyncHead(r.core.queue)
    ensures Other(Drain(r).end) && (Drain(r).end.Ok? ==> SyncHead(Drain(r).end.value.core.queue))
    decreases |r.deferred|, |r.core.queue.video|
  {
    hide TryDeferred, SyncHead, ParserOk;
    PerformOther(r, DeferredCall);
    DeferredKeepsParser(r);
    if TryDeferred(r).Ok? && TryDeferred(r).value.segment.Some? {
      DeferredShrinks(r);
      DrainOther(TryDeferred(r).value.reader);
    }
  }

  /** Nor does a caller that pushes chunks and drains after each. */
  lemma {:induction false} DriveOther(r: Reader, chunks: seq<bytes>)
    requires ParserOk(r.core.box) && SyncHead(r.core.queue)
    ensures Other(Drive(r, chunks).end)
    decreases |chunks|
  {
    hide Push, Drain, SyncHead, ParserOk;
    if chunks != [] {
      PerformOther(r, PushCall(chunks[0]));
      PushKeepsParser(r, chunks[0]);
      PushAndDrainKeepsParser(r, chunks[0]);
      if Push(r, chunks[0]).Ok? {
        DrainOther(Push(r, chunks[0]).value.reader);
        if PushAndDrain(r, chunks[0]).end.Ok? { DriveOther(PushAndDrain(r, chunks[0]).end.value, chunks[1..]); }
      }
    }
  }
}
