/** Segment boundaries over whole runs: every segment starts in sync, and consecutive segments meet exactly. */
module Mp4Boundaries {
  import opened Bytes
  import opened Mp4Types
  import Mp4Write
  import opened Mp4Select
  import opened Mp4Audio
  import opened Mp4Build
  import opened Mp4Reader
  import opened Mp4Runs
  import opened Mp4Keeps
  import opened Mp4Resolve
  import opened Mp4Steps
  import opened Mp4Chunks

  // ----- sync starts -----

  /** Video is queued and starts with a sync sample. */
  ghost predicate SyncHead(q: Queue) { q.video != [] && q.video[0].startsWithSync }

  /** With a sync head the non-sync error cannot arise. */
  lemma SyncHeadNeverFails(q: Queue, c: Config, videoScale: u32)
    requires SyncHead(q)
    ensures ChooseVideo(q, c, videoScale) != Err(NonSyncStart)
  {
    hide SelectFrom;
  }

  /** Each segment takes a prefix of the queue, so it starts with the sample that heads the queue. */
  ghost predicate TakesPrefix(q: Queue, c: Config, u: Setup, e: Envelope, segment: Segment) {
    exists v: nat, a: nat, audio: seq<Fragment> ::
      && 0 < v < |q.video| && a <= |audio| && q.video[v].startsWithSync
      && SegmentOf(e, q.video[..v], audio[..a], q.payload) == Ok(segment)
      && ChooseCut(q, c, u) == Ok(Cut(audio, v, a))
  }

  lemma SegmentTakesPrefix(q: Queue, c: Config, u: Setup, e: Envelope)
    ensures match BuildNext(q, c, u, e)
            case Ok(Some(built)) => TakesPrefix(q, c, u, e, built.segment) && SyncHead(q) && SyncHead(built.queue)
            case _ => true
  {
    hide SegmentOf, CutQueue, SelectFrom, Reclaim, Emit;
    CutIsBoundary(q, c, u);
    match BuildNext(q, c, u, e)
    case Ok(Some(built)) =>
      var cut := ChooseCut(q, c, u).value;
      ReclaimKeepsFirst(Drop(q.(audio := cut.audio), cut.v, cut.a));
    case _ =>
  }

  lemma CompleteMdatKeepsHead(s: Core)
    requires SyncHead(s.queue)
    ensures CompleteMdat(s).Ok? ==> SyncHead(CompleteMdat(s).value.queue)
  {
    hide AttachPayload;
  }

  lemma CompleteMoofKeepsHead(s: Core)
    requires SyncHead(s.queue)
    ensures CompleteMoof(s).Ok? ==> SyncHead(CompleteMoof(s).value.queue)
  {
    hide MoofFragment, ResolveInferred, Remember;
    if CompleteMoof(s).Ok? {
      ResolveChangesLast(s.queue.video, MoofFragment(s).value);
      var after := CompleteMoof(s).value.queue.video;
      if after != s.queue.video && |after| > 1 {
        assert after[0] == after[..|after| - 1][0] == s.queue.video[0];
      }
    }
  }

  lemma TryBuildKeepsHead(s: Core)
    requires SyncHead(s.queue)
    ensures TryBuild(s).Ok? ==> SyncHead(TryBuild(s).value.core.queue)
  {
    hide BuildNext;
    SegmentTakesPrefix(s.queue, s.config, s.setup, EnvelopeOf(s));
  }

  lemma FinishBoxKeepsHead(s: Core)
    requires SyncHead(s.queue)
    ensures FinishBox(s).Ok? ==> SyncHead(FinishBox(s).value.core.queue)
  {
    hide CompleteMoof, CompleteMdat, TryBuild, CompleteStyp, SyncHead;
    if s.box.kind == MOOF {
      CompleteMoofKeepsHead(s);
    } else if s.box.kind == MDAT {
      CompleteMdatKeepsHead(s);
      if CompleteMdat(s).Ok? { TryBuildKeepsHead(CompleteMdat(s).value); }
    }
  }

  lemma BeginBoxKeepsVideo(s: Core, size: u64, headerSize: nat)
    ensures BeginBox(s, size, headerSize).Ok? ==>
      BeginBox(s, size, headerSize).value.queue.video == s.queue.video
      && BeginBox(s, size, headerSize).value.source.pending == s.source.pending
      && BeginBox(s, size, headerSize).value.config == s.config
      && (s.setup.initDone ==> BeginBox(s, size, headerSize).value.setup == s.setup)
  {
    hide CompleteInit, BeginMedia, BeginTarget;
    var kind := s.box.kind;
    if BeginBox(s, size, headerSize).Ok? {
      var begun := if !s.setup.initDone && (kind == STYP || kind == MOOF) then CompleteInit(s.setup) else Ok(s.setup);
      var s1 := s.(box := s.box.(remaining := size - headerSize, target := NoTarget), setup := begun.value);
      if begun.value.initDone {
        BeginMediaKeeps(s.source, kind, size, headerSize);
        var (source, target) := BeginMedia(s.source, kind, size, headerSize).value;
        TargetKeepsVideo(s1.(source := source), target);
      } else {
        TargetKeepsVideo(s1, InitTarget);
      }
    }
  }

  lemma TargetKeepsVideo(s: Core, target: Target)
    ensures var r := BeginTarget(s, target);
            && r.queue.video == s.queue.video && r.source.pending == s.source.pending && r.config == s.config
            && (!target.InitTarget? ==> r.setup == s.setup)
  {}

  /** Once the queue starts in sync it stays so, whatever is fed. */
  lemma SyncHeadForever(s: Core, b: byte)
    requires ParserOk(s.box) && SyncHead(s.queue)
    ensures FeedByte(s, b).Ok? ==> SyncHead(FeedByte(s, b).value.core.queue)
  {
    hide BeginBox, FinishBox, ReadBe32, ReadBe64, SyncHead;
    if |s.box.header| < s.box.required {
      var s1 := s.(box := s.box.(header := s.box.header + [b]));
      if |s1.box.header| == s1.box.required {
        var s2 := if s.box.required == 8 then s1.(box := s1.box.(kind := ReadBe32(s1.box.header, 4))) else s1;
        var size: u64 := if s.box.required == 8 then ReadBe32(s1.box.header, 0) else ReadBe64(s1.box.header, 8);
        BeginBoxKeepsVideo(s2, size, s.box.required);
        if BeginBox(s2, size, s.box.required).Ok? {
          SameHead(s.queue, BeginBox(s2, size, s.box.required).value.queue);
          FinishBoxKeepsHead(BeginBox(s2, size, s.box.required).value);
        }
      }
    } else {
      var s1 := WriteBoxData(s, [b]).(box := s.box.(remaining := s.box.remaining - 1));
      SameHead(s.queue, s1.queue);
      FinishBoxKeepsHead(s1);
    }
  }

  lemma SameHead(q: Queue, r: Queue)
    requires SyncHead(q) && r.video == q.video
    ensures SyncHead(r)
  {}

  // ----- times -----

  /** Nanoseconds of a video decode time on the output timeline. */
  function TimeNs(t: u64, videoScale: u32, c: Config): int
    requires videoScale != 0
  {
    t * NANOSECONDS / videoScale + OffsetNs(c.offsetSeconds) as int
  }

  ghost predicate Adjacent(fs: seq<Fragment>) {
    forall i | 0 <= i < |fs| - 1 :: fs[i + 1].decodeTime == EndTime(fs[i])
  }

  /** The video fragment waiting for its payload starts where the last queued one ends. */
  ghost predicate PendingAdjacent(s: Core) {
    s.source.pending.Some? && s.source.pending.value.trackId == s.setup.video.id && s.queue.video != [] ==>
      s.source.pending.value.decodeTime == EndTime(s.queue.video[|s.queue.video| - 1])
  }

  /** The queue continues from `last`, where the previous segment ended. */
  ghost predicate Chain(s: Core, last: Option<u64>) {
    && Adjacent(s.queue.video)
    && (last.Some? ==> s.setup.initDone && s.queue.video != [] && s.queue.video[0].decodeTime == last.value)
  }

  lemma SegmentTimesExact(video: seq<Fragment>, ids: TrackIds, c: Config)
    requires video != [] && OfTrack(video, ids) && ids.timescale != 0
    ensures match SegmentTimes(video, OffsetNs(c.offsetSeconds))
            case Err(_) => true
            case Ok((start, end)) => start as int == TimeNs(video[0].decodeTime, ids.timescale, c)
                                     && end as int == TimeNs(EndTime(video[|video| - 1]), ids.timescale, c)
  {
    hide TimelineNanoseconds;
    assert video[0] in video && video[|video| - 1] in video;
    TimelineIsExactFloor(video[0].decodeTime, ids.timescale);
    TimelineIsExactFloor(EndTime(video[|video| - 1]), ids.timescale);
  }

  lemma SegmentOfTimes(e: Envelope, video: seq<Fragment>, audio: seq<Fragment>, payload: bytes)
    requires video != []
    ensures match SegmentOf(e, video, audio, payload)
            case Err(_) => true
            case Ok(s) => SegmentTimes(video, OffsetNs(e.offsetSeconds)) == Ok((s.startNs, s.endNs))
  {
    hide MoofBytes, SegmentTimes, CollectPayload, MoofSize, Mp4Write.MdatHeader, Mergeable;
  }

  /** A segment runs from its first decode time to where the next queued fragment starts. */
  lemma BuildNextTimes(q: Queue, c: Config, u: Setup, e: Envelope)
    requires OfTrack(q.video, u.video) && Adjacent(q.video) && u.video.timescale != 0 && e.offsetSeconds == c.offsetSeconds
    ensures match BuildNext(q, c, u, e)
            case Ok(Some(built)) =>
              && q.video != [] && built.queue.video != [] && Adjacent(built.queue.video)
              && built.segment.startNs as int == TimeNs(q.video[0].decodeTime, u.video.timescale, c)
              && built.segment.endNs as int == TimeNs(built.queue.video[0].decodeTime, u.video.timescale, c)
            case _ => true
  {
    hide SegmentOf, CutQueue, SelectFrom, Reclaim, Emit, ChooseCut, TimeNs, EndTime;
    CutIsBoundary(q, c, u);
    match BuildNext(q, c, u, e)
    case Ok(Some(built)) =>
      var cut := ChooseCut(q, c, u).value;
      var taken := q.video[..cut.v];
      assert forall f | f in taken :: f in q.video;
      SegmentOfTimes(e, taken, cut.audio[..cut.a], q.payload);
      SegmentTimesExact(taken, u.video, c);
      var left := Drop(q.(audio := cut.audio), cut.v, cut.a);
      ReclaimKeepsFirst(left);
      AdjacentSuffix(q.video, cut.v);
      MovedAdjacent(left.video, built.queue.video);
      assert built.queue.video[0].(payloadStart := 0) == left.video[0].(payloadStart := 0);
    case _ =>
  }

  lemma AdjacentSuffix(fs: seq<Fragment>, n: nat)
    requires Adjacent(fs) && 0 < n < |fs|
    ensures Adjacent(fs[n..]) && fs[n].decodeTime == EndTime(fs[n - 1])
  {
    hide EndTime;
    forall i | 0 <= i < |fs[n..]| - 1 ensures fs[n..][i + 1].decodeTime == EndTime(fs[n..][i]) {
      assert fs[n..][i + 1] == fs[n + i + 1] && fs[n..][i] == fs[n + i];
    }
    assert fs[(n - 1) + 1].decodeTime == EndTime(fs[n - 1]);
  }

  lemma MovedAdjacent(fs: seq<Fragment>, gs: seq<Fragment>)
    requires Adjacent(fs) && |fs| == |gs|
    requires forall i | 0 <= i < |fs| :: gs[i].(payloadStart := 0) == fs[i].(payloadStart := 0)
    ensures Adjacent(gs)
  {
    forall i | 0 <= i < |gs| - 1 ensures gs[i + 1].decodeTime == EndTime(gs[i]) {
      assert gs[i].(payloadStart := 0) == fs[i].(payloadStart := 0);
      assert gs[i + 1].(payloadStart := 0) == fs[i + 1].(payloadStart := 0);
    }
  }

  lemma VideoScaleKnown(s: Core)
    requires Keeps(s) && s.queue.video != []
    ensures s.setup.video.timescale != 0 && OfTrack(s.queue.video, s.setup.video) && s.setup.initDone
  {
    hide QueuesKeep;
    assert s.queue.video[0] in s.queue.video && Attached(s.queue.video[0]);
  }

  /** What a step does to the chain: nothing without a segment; with one, the segment links `last` to the new head. */
  ghost predicate StepChains(s: Core, p: Progress, last: Option<u64>) {
    && p.core.config == s.config
    && (s.setup.initDone ==> p.core.setup == s.setup)
    && (p.segment.None? ==> Chain(p.core, last))
    && (p.segment.Some? ==>
          && p.core.setup.initDone && p.core.setup.video.timescale != 0 && p.core.queue.video != []
          && Chain(p.core, Some(p.core.queue.video[0].decodeTime))
          && p.segment.value.endNs as int == TimeNs(p.core.queue.video[0].decodeTime, p.core.setup.video.timescale, s.config)
          && (last.Some? ==> p.segment.value.startNs as int == TimeNs(last.value, p.core.setup.video.timescale, s.config)))
  }

  lemma TryBuildChains(s: Core, last: Option<u64>)
    requires Keeps(s) && Chain(s, last)
    ensures TryBuild(s).Ok? ==> StepChains(s, TryBuild(s).value, last)
  {
    hide BuildNext, Keeps, TimeNs;
    if s.queue.video != [] {
      VideoScaleKnown(s);
      BuildNextTimes(s.queue, s.config, s.setup, EnvelopeOf(s));
    } else {
      NoVideoNoSegment(s.queue, s.config, s.setup, EnvelopeOf(s));
    }
  }

  lemma NoVideoNoSegment(q: Queue, c: Config, u: Setup, e: Envelope)
    requires q.video == []
    ensures BuildNext(q, c, u, e) == Ok(None)
  {}

  lemma CompleteMdatChains(s: Core, last: Option<u64>)
    requires Chain(s, last) && PendingAdjacent(s)
    ensures CompleteMdat(s).Ok? ==> Chain(CompleteMdat(s).value, last) && CompleteMdat(s).value.setup == s.setup
                                    && CompleteMdat(s).value.config == s.config
  {
    hide Contiguous, LaidOut, EndTime, RunsSize;
    if CompleteMdat(s).Ok? {
      var before, after := s.queue.video, CompleteMdat(s).value.queue.video;
      if after != before {
        forall i | 0 <= i < |after| - 1 ensures after[i + 1].decodeTime == EndTime(after[i]) {
          if i + 1 < |before| {
            assert after[i + 1] == before[i + 1];
          }
        }
      }
    }
  }

  lemma CompleteMoofChains(s: Core, last: Option<u64>)
    requires Chain(s, last) && QueueOk(s.queue.video) && QueueOk(s.queue.audio)
    ensures CompleteMoof(s).Ok? ==> Chain(CompleteMoof(s).value, last) && CompleteMoof(s).value.setup == s.setup
                                    && CompleteMoof(s).value.config == s.config
  {
    hide MoofFragment, ResolveInferred, Remember, QueueOk, EndTime;
    if CompleteMoof(s).Ok? {
      var f := MoofFragment(s).value;
      ResolveInferredKeeps(s.queue.video, f);
      var before, after := s.queue.video, CompleteMoof(s).value.queue.video;
      if after != before {
        LastReplaced(before, after);
        var n := |before| - 1;
        ResolvedTimes(before[n], after[n]);
        forall i | 0 <= i < |after| - 1 ensures after[i + 1].decodeTime == EndTime(after[i]) {
          assert after[i] == after[..n][i] == before[i];
          if i + 1 < n { assert after[i + 1] == after[..n][i + 1] == before[i + 1]; }
        }
        if n > 0 { assert after[0] == after[..n][0] == before[0]; }
      }
    }
  }

  lemma ResolvedTimes(f: Fragment, g: Fragment)
    requires Resolved(f, g)
    ensures g.decodeTime == f.decodeTime
  {}

  lemma FinishBoxChains(s: Core, last: Option<u64>)
    requires Keeps(s) && |s.box.header| == s.box.required && Chain(s, last) && PendingAdjacent(s)
    ensures FinishBox(s).Ok? ==> StepChains(s, FinishBox(s).value, last)
  {
    hide CompleteMoof, CompleteMdat, TryBuild, CompleteStyp, QueuesKeep, PendingOk, TimeNs, QueueOk, Adjacent, PendingAdjacent;
    if FinishBox(s).Ok? {
      if s.box.kind == MOOF {
        CompleteMoofChains(s, last);
      } else if s.box.kind == MDAT {
        CompleteMdatChains(s, last);
        CompleteMdatKeeps(s);
        var s1 := CompleteMdat(s).value;
        TryBuildIgnoresBox(s1, NO_BOX);
        TryBuildChains(s1.(box := NO_BOX), last);
      }
    }
  }

  lemma FeedChains(s: Core, b: byte, last: Option<u64>)
    requires ParserOk(s.box) && Keeps(s) && Chain(s, last) && PendingAdjacent(s)
    ensures FeedByte(s, b).Ok? ==> StepChains(s, FeedByte(s, b).value, last)
  {
    hide BeginBox, FinishBox, ReadBe32, ReadBe64, QueuesKeep, QueuesOk, PendingOk, Adjacent, EndTime, WriteSource, WriteSetup;
    if |s.box.header| < s.box.required {
      var s1 := s.(box := s.box.(header := s.box.header + [b]));
      if |s1.box.header| == s1.box.required {
        var s2 := if s.box.required == 8 then s1.(box := s1.box.(kind := ReadBe32(s1.box.header, 4))) else s1;
        var size: u64 := if s.box.required == 8 then ReadBe32(s1.box.header, 0) else ReadBe64(s1.box.header, 8);
        BeginBoxKeepsVideo(s2, size, s.box.required);
        BeginBoxKeepsReader(s2, size, s.box.required);
        BeginBoxKeeps(s2, size, s.box.required);
        if BeginBox(s2, size, s.box.required).Ok? {
          var s3 := BeginBox(s2, size, s.box.required).value;
          InitBeforeVideo(s);
          FinishBoxChains(s3, last);
        }
      }
    } else {
      WriteKeeps(s, [b], s.box.remaining - 1);
      var s1 := WriteBoxData(s, [b]).(box := s.box.(remaining := s.box.remaining - 1));
      WriteElsewhere(s.setup, s.source, s.box.target, [b]);
      FinishBoxChains(s1, last);
    }
  }

  lemma InitBeforeVideo(s: Core)
    requires Keeps(s)
    ensures s.queue.video != [] || s.source.pending.Some? ==> s.setup.initDone
  {
    hide QueuesKeep;
  }

  /** Along the run, each video fragment starts where the one queued before it ends. */
  ghost predicate ContiguousRun(s: Core, data: bytes, building: bool)
    requires ParserOk(s.box)
    decreases |data|, building, |s.queue.video|
  {
    && PendingAdjacent(s)
    && (building ==>
          match TryBuild(s)
          case Err(_) => true
          case Ok(p) =>
            TryBuildKeeps(s);
            if p.segment.None? then ContiguousRun(s, data, false) else ContiguousRun(p.core, data, true))
    && (!building && data != [] ==>
          (FeedKeepsParser(s, data[0]);
           match FeedByte(s, data[0])
           case Err(_) => true
           case Ok(p) => ContiguousRun(p.core, data[1..], p.segment.Some?)))
  }

  /** Each segment ends exactly where the next one starts. */
  predicate Tiled(segments: seq<Segment>) {
    forall i | 0 <= i < |segments| - 1 :: segments[i].endNs == segments[i + 1].startNs
  }

  ghost predicate StartsAt(segments: seq<Segment>, s: Core, last: Option<u64>) {
    last.Some? && segments != [] && s.setup.video.timescale != 0 ==>
      segments[0].startNs as int == TimeNs(last.value, s.setup.video.timescale, s.config)
  }

  lemma TiledBefore(first: Option<Segment>, rest: seq<Segment>)
    requires Tiled(rest) && (first.Some? && rest != [] ==> first.value.endNs == rest[0].startNs)
    ensures Tiled(Taken(first) + rest)
  {
    var all := Taken(first) + rest;
    if first.Some? {
      forall i | 0 <= i < |all| - 1 ensures all[i].endNs == all[i + 1].startNs {
        if i > 0 { assert all[i] == rest[i - 1] && all[i + 1] == rest[i]; }
      }
    } else {
      assert all == rest;
    }
  }

  lemma StepTiles(s: Core, p: Progress, last: Option<u64>, rest: seq<Segment>)
    requires StepChains(s, p, last) && Tiled(rest) && (last.Some? ==> s.setup.initDone)
    requires StartsAt(rest, p.core, if p.segment.None? then last else Some(p.core.queue.video[0].decodeTime))
    ensures Tiled(Taken(p.segment) + rest) && StartsAt(Taken(p.segment) + rest, s, last)
  {
    hide TimeNs, Chain, Tiled;
    TiledBefore(p.segment, rest);
    if p.segment.None? {
      assert Taken(p.segment) + rest == rest;
    }
  }

  /** The segments up to `e` end where the queue of `e` goes on. */
  ghost predicate EndsAt(segments: seq<Segment>, e: Core, last: Option<u64>, next: Option<u64>) {
    if segments == [] then next == last else
    next.Some? && e.setup.video.timescale != 0
    && segments[|segments| - 1].endNs as int == TimeNs(next.value, e.setup.video.timescale, e.config)
  }

  /** From `s` to `e` the segments lead from `last` to `next`. */
  ghost predicate Leads(s: Core, e: Core, segments: seq<Segment>, last: Option<u64>, next: Option<u64>) {
    && Keeps(e) && Chain(e, next) && EndsAt(segments, e, last, next)
    && e.config == s.config && (s.setup.initDone ==> e.setup == s.setup)
  }

  lemma StepLeads(s: Core, p: Progress, e: Core, last: Option<u64>, mid: Option<u64>, next: Option<u64>, rest: seq<Segment>)
    requires StepChains(s, p, last) && mid == (if p.segment.None? then last else Some(p.core.queue.video[0].decodeTime))
    requires Leads(p.core, e, rest, mid, next)
    ensures Leads(s, e, Taken(p.segment) + rest, last, next)
  {
    hide TimeNs, Chain, Keeps;
    if p.segment.None? {
      assert Taken(p.segment) + rest == rest;
    } else if rest != [] {
      assert (Taken(p.segment) + rest)[|rest|] == rest[|rest| - 1];
    }
  }

  lemma {:induction false} RunTiles(s: Core, data: bytes, building: bool, last: Option<u64>) returns (next: Option<u64>)
    requires ParserOk(s.box) && Keeps(s) && Chain(s, last) && ContiguousRun(s, data, building)
    ensures var o := ByBytes(s, data, building);
            && Tiled(o.segments) && StartsAt(o.segments, s, last)
            && (o.end.Ok? ==> Leads(s, o.end.value.core, o.segments, last, next))
    decreases |data|, building, |s.queue.video|
  {
    hide TryBuild, FeedByte, Keeps, ParserOk, PendingAdjacent, StepChains, Adjacent, Tiled, StartsAt, Leads, Chain;
    NothingTiles(s, last);
    next := last;
    if building {
      TryBuildKeeps(s);
      TryBuildChains(s, last);
      TryBuildKeepsReader(s);
      if TryBuild(s).Ok? {
        var p := TryBuild(s).value;
        var mid := NextLast(s, p, last);
        next := RunTiles(p.core, data, p.segment.Some?, mid);
        StepRuns(s, p, last, mid, next, ByBytes(p.core, data, p.segment.Some?));
        if p.segment.None? { BeforeNothing(ByBytes(s, data, false)); }
      }
    } else if data != [] {
      FeedKeepsParser(s, data[0]);
      FeedChains(s, data[0], last);
      FeedKeepsReader(s, data[0]);
      if FeedByte(s, data[0]).Ok? {
        var p := FeedByte(s, data[0]).value;
        var mid := NextLast(s, p, last);
        next := RunTiles(p.core, data[1..], p.segment.Some?, mid);
        StepRuns(s, p, last, mid, next, ByBytes(p.core, data[1..], p.segment.Some?));
      }
    } else {
      NothingLeads(s, last);
    }
  }

  lemma NothingLeads(s: Core, last: Option<u64>)
    requires Keeps(s) && Chain(s, last)
    ensures Leads(s, s, [], last, last)
  {}

  lemma StepRuns(s: Core, p: Progress, last: Option<u64>, mid: Option<u64>, next: Option<u64>, o: Outcome)
    requires StepChains(s, p, last) && Chain(s, last)
    requires mid == (if p.segment.None? then last else Some(p.core.queue.video[0].decodeTime))
    requires Tiled(o.segments) && StartsAt(o.segments, p.core, mid)
    requires o.end.Ok? ==> Leads(p.core, o.end.value.core, o.segments, mid, next)
    ensures var r := Before(Taken(p.segment), o);
            && Tiled(r.segments) && StartsAt(r.segments, s, last)
            && (r.end.Ok? ==> Leads(s, r.end.value.core, r.segments, last, next))
  {
    hide StepChains, Tiled, StartsAt, Leads, Keeps;
    StepTiles(s, p, last, o.segments);
    if o.end.Ok? { StepLeads(s, p, o.end.value.core, last, mid, next, o.segments); }
  }

  lemma NothingTiles(s: Core, last: Option<u64>)
    ensures Tiled([]) && StartsAt([], s, last)
  {}

  lemma NextLast(s: Core, p: Progress, last: Option<u64>) returns (next: Option<u64>)
    requires StepChains(s, p, last)
    ensures p.segment.Some? ==> p.core.queue.video != []
    ensures next == if p.segment.None? then last else Some(p.core.queue.video[0].decodeTime)
    ensures Chain(p.core, next)
  {
    next := if p.segment.None? then last else Some(p.core.queue.video[0].decodeTime);
  }

  lemma LeadsOn(s: Core, e: Core, a: seq<Segment>, b: seq<Segment>, last: Option<u64>, next: Option<u64>)
    requires Tiled(a) && StartsAt(a, s, last) && Leads(s, e, a, last, next) && Chain(s, last)
    requires Tiled(b) && StartsAt(b, e, next)
    ensures Tiled(a + b) && StartsAt(a + b, s, last)
  {
    hide TimeNs, Keeps;
    if a == [] {
      assert a + b == b;
    } else {
      forall i | 0 <= i < |a + b| - 1 ensures (a + b)[i].endNs == (a + b)[i + 1].startNs {
        if i < |a| - 1 { assert a[i].endNs == a[i + 1].startNs; }
        if i >= |a| { assert b[i - |a|].endNs == b[i - |a| + 1].startNs; }
      }
    }
  }

  // ----- chunks -----

  /** Along the pushes, each video fragment starts where the one queued before it ends. */
  ghost predicate ContiguousChunks(s: Core, chunks: seq<bytes>)
    requires ParserOk(s.box)
    decreases |chunks|
  {
    if chunks == [] then ContiguousRun(s, [], true) else
    && ContiguousRun(s, chunks[0], true)
    && (EndReadable(s, chunks[0], true);
        ByBytes(s, chunks[0], true).end.Ok? ==> ContiguousChunks(ByBytes(s, chunks[0], true).end.value.core, chunks[1..]))
  }

  lemma {:induction false} ChunksTile(s: Core, chunks: seq<bytes>, last: Option<u64>)
    requires ParserOk(s.box) && Keeps(s) && Chain(s, last) && ContiguousChunks(s, chunks)
    ensures Tiled(Chunked(s, chunks).segments) && StartsAt(Chunked(s, chunks).segments, s, last)
    decreases |chunks|
  {
    hide ByBytes, ContiguousRun, Keeps, ParserOk, Chain, Tiled, StartsAt, Leads;
    if chunks == [] {
      var _ := RunTiles(s, [], true, last);
    } else {
      var next := RunTiles(s, chunks[0], true, last);
      EndReadable(s, chunks[0], true);
      var first := ByBytes(s, chunks[0], true);
      if first.end.Ok? {
        var e := first.end.value.core;
        LeadsFacts(s, e, first.segments, last, next);
        ChunksTile(e, chunks[1..], next);
        LeadsOn(s, e, first.segments, Chunked(e, chunks[1..]).segments, last, next);
      }
    }
  }

  lemma LeadsFacts(s: Core, e: Core, segments: seq<Segment>, last: Option<u64>, next: Option<u64>)
    requires Leads(s, e, segments, last, next)
    ensures Keeps(e) && Chain(e, next)
  {}

  /**
   * However a stream is cut into pushes, with contiguous source decode times every segment ends exactly where the next
   * one starts.
   */
  lemma SegmentsTile(config: Config, chunks: seq<bytes>)
    requires ContiguousChunks(NewCore(config), chunks)
    ensures Tiled(Drained(config, chunks).segments)
  {
    hide ContiguousChunks, Tiled, StartsAt, Chunked, Drive;
    NewReaderKeeps(config);
    DriveIsChunked(Reader(NewCore(config), []), chunks);
    ChunksTile(NewCore(config), chunks, None);
  }
}
