/**
 * Streams whose audio track declares a default sample duration: no audio duration is ever inferred, so nothing is due
 * between two boxes, and every way of cutting the stream gives the same segments.
 */
module Mp4Timed {
  import opened Bytes
  import opened Mp4Types
  import opened Mp4Parse
  import opened Mp4Select
  import opened Mp4Build
  import opened Mp4Reader
  import opened Mp4Runs
  import opened Mp4Keeps
  import opened Mp4Steps
  import opened Mp4Early
  import opened Mp4Chunks

  // ----- a default duration leaves nothing to infer -----

  lemma {:induction false} RunsNotInferred(d: bytes, at: nat, t: TrunDefaults, total: nat)
    requires !t.durationIsHint
    ensures TrafRuns(d, at, t, total).Ok? ==> !AnyInferred(TrafRuns(d, at, t, total).value)
    decreases |d| - at
  {
    hide TryReadBox, ReadTrunHead;
    match TryReadBox(d, at)
    case None => AnyInferredNone();
    case Some(b) =>
      if b.kind != TRUN {
        RunsNotInferred(d, b.next, t, total);
      } else if TrafRuns(d, at, t, total).Ok? {
        RunsNotInferred(d, b.next, t, total + NormalizedTrun(b.body, b.header, t).value.duration);
      }
  }

  lemma {:induction false} TrafNotInferred(
    d: bytes, at: nat, found: Option<Fragment>, video: TrackIds, audio: TrackIds, videoHint: u32, audioHint: u32)
    requires audio.trex.duration != 0
    requires found.Some? && found.value.trackId != video.id ==> !found.value.inferred
    ensures var r := MoofTraf(d, at, found, video, audio, videoHint, audioHint);
            r.Ok? && r.value.Some? && r.value.value.trackId != video.id ==> !r.value.value.inferred
    decreases |d| - at
  {
    hide TryReadBox, ParsedTraf;
    match TryReadBox(d, at)
    case None =>
    case Some(b) =>
      if b.kind != TRAF {
        TrafNotInferred(d, b.next, found, video, audio, videoHint, audioHint);
      } else if found.None? {
        OneTrafNotInferred(b.body, b.header, video, audio, videoHint, audioHint);
        var f := ParsedTraf(b.body, b.header, video, audio, videoHint, audioHint);
        if f.Ok? { TrafNotInferred(d, b.next, Some(f.value), video, audio, videoHint, audioHint); }
      }
  }

  lemma OneTrafNotInferred(d: bytes, header: nat, video: TrackIds, audio: TrackIds, videoHint: u32, audioHint: u32)
    requires audio.trex.duration != 0
    ensures var r := ParsedTraf(d, header, video, audio, videoHint, audioHint);
            r.Ok? && r.value.trackId != video.id ==> !r.value.inferred
  {
    hide TrafFields, TrafRuns, AnyInferred;
    var fields := TrafFields(d, header, None, None);
    if fields.Ok? && fields.value.0.Some? {
      var tfhd := fields.value.0.value;
      if tfhd.trackId != video.id { RunsNotInferred(d, header, DefaultsFor(tfhd, audio.trex, audioHint), 0); }
    }
  }

  lemma MoofNotInferred(s: Core)
    requires s.setup.audio.id == 0 || s.setup.audio.trex.duration != 0
    ensures MoofFragment(s).Ok? && MoofFragment(s).value.trackId != s.setup.video.id ==> !MoofFragment(s).value.inferred
  {
    hide MoofTraf, TryReadBox;
    if s.setup.audio.id == 0 {
      MoofFragmentOk(s);
    } else {
      var root := TryReadBox(s.source.moof, 0);
      if root.Some? {
        TrafNotInferred(root.value.body, root.value.header, None, s.setup.video, s.setup.audio,
                        HintFor(s.hints.video, s.hints.videoScale, s.setup.video),
                        HintFor(s.hints.audio, s.hints.audioScale, s.setup.audio));
      }
    }
  }

  // ----- what the reader knows of the stream -----

  /** An initialization with no audio track, or whose audio track has a default sample duration. */
  predicate TimedInit(init: bytes) {
    match ParseInitTracks(init)
    case Err(_) => true
    case Ok((_, audio)) => audio.id == 0 || audio.trex.duration != 0
  }

  ghost predicate TimedPrefixes(data: bytes) { forall n | 0 <= n <= |data| :: TimedInit(data[..n]) }

  /** Until the initialization is known, the reader keeps all it has read as initialization. */
  ghost predicate Holds(s: Core, past: bytes) {
    !s.setup.initDone ==>
      if |s.box.header| == s.box.required then s.box.target.InitTarget? && s.setup.init == past
      else s.setup.init + s.box.header == past
  }

  /** No audio duration was or will be inferred. */
  ghost predicate Exact(s: Core) {
    && (s.setup.initDone ==> s.setup.audio.id == 0 || s.setup.audio.trex.duration != 0)
    && !s.queue.log.audio.inferred
    && (s.source.pending.Some? && s.source.pending.value.trackId != s.setup.video.id ==> !s.source.pending.value.inferred)
    && (s.source.pending.Some? ==> s.setup.initDone)
  }

  lemma ExactAudio(s: Core)
    requires Keeps(s) && Exact(s)
    ensures AudioExact(s)
  {
    hide QueuesOk, PendingOk, QueueBytes, Erase;
    if s.queue.audio != [] { assert s.queue.audio[|s.queue.audio| - 1] in s.queue.audio; }
  }

  // ----- one byte -----

  lemma BeginMediaExact(r: Source, kind: u32, size: u64, headerSize: nat)
    ensures BeginMedia(r, kind, size, headerSize).Ok? ==> BeginMedia(r, kind, size, headerSize).value.0.pending == r.pending
  {}

  lemma InitIsTimed(u: Setup)
    requires TimedInit(u.init)
    ensures CompleteInit(u).Ok? ==>
              CompleteInit(u).value.initDone
              && (CompleteInit(u).value.audio.id == 0 || CompleteInit(u).value.audio.trex.duration != 0)
  {
    hide ParseInitTracks;
  }

  lemma BeginBoxExact(s: Core, size: u64, headerSize: nat)
    requires Exact(s) && (!s.setup.initDone ==> TimedInit(s.setup.init)) && |s.box.header| == s.box.required
    ensures BeginBox(s, size, headerSize).Ok? ==>
              Exact(BeginBox(s, size, headerSize).value)
              && Holds(BeginBox(s, size, headerSize).value, s.setup.init + s.box.header)
              && (s.setup.initDone ==> BeginBox(s, size, headerSize).value.setup.initDone)
  {
    hide CompleteInit, BeginMedia;
    if !s.setup.initDone { InitIsTimed(s.setup); }
    BeginMediaExact(s.source, s.box.kind, size, headerSize);
  }

  lemma AdvanceExact(s: Core, b: byte, past: bytes)
    requires ParserOk(s.box) && Exact(s) && Holds(s, past) && TimedPrefixes(past + [b])
    ensures Advanced(s, b).Ok? ==> Exact(Advanced(s, b).value) && Holds(Advanced(s, b).value, past + [b])
  {
    hide BeginBox, ReadBe32, ReadBe64, TimedInit;
    if |s.box.header| < s.box.required {
      var s1 := s.(box := s.box.(header := s.box.header + [b]));
      if !s.setup.initDone {
        assert s.setup.init + (s.box.header + [b]) == s.setup.init + s.box.header + [b] == past + [b];
        assert (past + [b])[..|s.setup.init|] == s.setup.init;
      }
      if |s1.box.header| == s1.box.required && (s1.box.required == 16 || ReadBe32(s1.box.header, 0) > 1) {
        var box := if s1.box.required == 8 then s1.box.(kind := ReadBe32(s1.box.header, 4)) else s1.box;
        var size: u64 := if s1.box.required == 8 then ReadBe32(s1.box.header, 0) else ReadBe64(s1.box.header, 8);
        BeginBoxExact(s1.(box := box), size, s1.box.required);
      }
    }
  }

  lemma MoofExact(s: Core)
    requires Exact(s) && s.setup.initDone
    ensures CompleteMoof(s).Ok? ==> Exact(CompleteMoof(s).value) && CompleteMoof(s).value.setup == s.setup
  {
    hide MoofFragment, ResolveInferred, Remember;
    MoofNotInferred(s);
  }

  lemma MdatExact(s: Core)
    requires Exact(s)
    ensures CompleteMdat(s).Ok? ==> Exact(CompleteMdat(s).value) && CompleteMdat(s).value.setup == s.setup
  {
    hide Contiguous, RunsSize, LaidOut, RunSamples;
  }

  lemma BuildExact(s: Core)
    requires Exact(s)
    ensures TryBuild(s).Ok? ==> Exact(TryBuild(s).value.core) && TryBuild(s).value.core.setup == s.setup
  {
    hide ChooseCut, SegmentOf, PayloadOf, QueueSamples, MinStart;
  }

  lemma FinishExact(s: Core, past: bytes)
    requires Exact(s) && Holds(s, past) && |s.box.header| == s.box.required
    requires s.box.kind in {MOOF, MDAT} ==> s.setup.initDone
    ensures FinishBox(s).Ok? ==> Exact(FinishBox(s).value.core) && Holds(FinishBox(s).value.core, past)
  {
    hide CompleteMoof, CompleteMdat, TryBuild, CompleteStyp;
    if s.box.kind == MOOF { MoofExact(s); }
    MdatExact(s);
    if s.box.kind == MDAT && CompleteMdat(s).Ok? { BuildExact(CompleteMdat(s).value); }
    CompleteStypPending(s.source);
    assert s.setup.init + [] == s.setup.init;
  }

  lemma CompleteStypPending(r: Source)
    ensures CompleteStyp(r).pending == r.pending
  {}

  lemma FeedExact(s: Core, b: byte, past: bytes)
    requires ParserOk(s.box) && Keeps(s) && Exact(s) && Holds(s, past) && TimedPrefixes(past + [b])
    ensures FeedByte(s, b).Ok? ==> Exact(FeedByte(s, b).value.core) && Holds(FeedByte(s, b).value.core, past + [b])
  {
    hide FeedByte, FinishBox, Advanced, Exact, Holds, Keeps, TimedPrefixes;
    FeedAdvances(s, b);
    AdvanceExact(s, b, past);
    AdvanceKeeps(s, b);
    if Advanced(s, b).Ok? && BoxComplete(Advanced(s, b).value.box) {
      KeepsKind(Advanced(s, b).value);
      FinishExact(Advanced(s, b).value, past + [b]);
    }
  }

  // ----- runs -----

  lemma {:induction false} ExactRun(s: Core, past: bytes, data: bytes, building: bool)
    requires ParserOk(s.box) && Keeps(s) && (if building then s.setup.initDone else Settled(s))
    requires Exact(s) && Holds(s, past) && TimedPrefixes(past + data)
    ensures Undisturbed(s, data, building)
    decreases |data|, building, |s.queue.video|
  {
    hide TryBuild, FeedByte, Settled, Keeps, ParserOk, Exact, Holds, TimedInit;
    if building {
      TryBuildKeeps(s);
      TryBuildKeepsReader(s);
      TryBuildKeepsSetup(s);
      BuildExact(s);
      if TryBuild(s).Ok? {
        if TryBuild(s).value.segment.None? { NowSettled(s); }
        HoldsAfterInit(TryBuild(s).value.core, past);
        ExactRun(TryBuild(s).value.core, past, data, TryBuild(s).value.segment.Some?);
      }
    } else if data != [] {
      var b := data[0];
      assert past + [b] + data[1..] == past + data;
      assert forall n | 0 <= n <= |past + [b]| :: (past + [b])[..n] == (past + data)[..n];
      SettledBuildsNothing(s);
      FeedKeepsParser(s, b);
      FeedKeepsReader(s, b);
      FeedExact(s, b, past);
      ExactAudio(s);
      KeepsKind(s);
      FeedStaysSettled(s, b);
      if FeedByte(s, b).Ok? { ExactRun(FeedByte(s, b).value.core, past + [b], data[1..], FeedByte(s, b).value.segment.Some?); }
    }
  }

  lemma HoldsAfterInit(s: Core, past: bytes)
    requires s.setup.initDone
    ensures Holds(s, past)
  {}

  /** If the audio track of the stream, where it has one, declares a default sample duration, no cut shows. */
  lemma TimedChunks(config: Config, chunks: seq<bytes>)
    requires TimedPrefixes(Flatten(chunks))
    ensures Drained(config, chunks) == Drained(config, [Flatten(chunks)])
  {
    hide Undisturbed, Drive, Keeps, TimedInit;
    var s := NewCore(config);
    NewReaderIsReady(config);
    NewReaderKeeps(config);
    assert [] + Flatten(chunks) == Flatten(chunks);
    ExactRun(s, [], Flatten(chunks), false);
    ChunkIndependence(config, Flatten(chunks));
  }
}
