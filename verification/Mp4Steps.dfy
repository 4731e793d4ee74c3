/** Every byte and every finished segment keeps the reader whole, over every sequence of calls. */
module Mp4Steps {
  import opened Bytes
  import opened Mp4Types
  import opened Mp4Parse
  import opened Mp4Select
  import opened Mp4Split
  import opened Mp4Audio
  import opened Mp4Build
  import opened Mp4Reader
  import opened Mp4Runs
  import opened Mp4Keeps
  import opened Mp4Resolve

  // ----- building -----

  /** The segment's payload is exactly what its tracks are recorded to have emitted, video before audio. */
  ghost predicate Emitted(q: Queue, r: Queue, segment: Segment) {
    exists head: bytes, v: bytes, a: bytes ::
      && segment.data == head + (v + a)
      && r.log.video.bytesOut == q.log.video.bytesOut + v && r.log.audio.bytesOut == q.log.audio.bytesOut + a
  }

  /** A regular cut ends before a sync fragment, which stays queued. */
  lemma CutIsBoundary(q: Queue, c: Config, u: Setup)
    ensures match ChooseCut(q, c, u)
            case Ok(Cut(_, v, _)) => SyncBoundary(q.video, v)
            case _ => true
  {
    hide CutQueue, SelectFrom;
    if ToUnits(c.seconds, u.video.timescale).Ok? {
      SelectedIsBoundary(q.video, 0, 0, 0, AheadOfSchedule(q.completed, c.seconds, c.diff, u.video.timescale, q.lastVideoEnd),
                         ToUnits(c.seconds, u.video.timescale).value);
    }
  }

  lemma CutKeeps(q: Queue, c: Config, u: Setup, limit: nat)
    requires QueuesOk(q, u) && QueuesKeep(q, limit)
    ensures match ChooseCut(q, c, u)
            case Ok(Cut(audio, v, a)) => QueuesOk(q.(audio := audio), u) && QueuesKeep(q.(audio := audio), limit)
            case _ => true
  {
    hide TrackKeeps, Attached, Disjoint, CutQueue, CutShape, SelectVideoCount, OfTrack;
    match ChooseCut(q, c, u)
    case Ok(Cut(audio, v, a)) =>
      if u.audio.id != 0 {
        var end := EndTime(q.video[v - 1]);
        AudioScale(q.audio, u.audio);
        AudioCutIsShortest(q.audio, u.video.timescale, end, u.audio.timescale);
        CutHasShape(q.audio, u.video.timescale, end);
        CutFacts(q.audio, audio, a, u.video.timescale, end, u.audio.timescale);
        CutKeepsTrack(q.log.audio, q.payload, q.audio, audio);
        CutKeepsRanges(q.video, q.audio, audio, u.audio, limit);
      }
    case _ =>
  }

  lemma AudioScale(fs: seq<Fragment>, ids: TrackIds)
    requires OfTrack(fs, ids)
    ensures SameScale(fs, ids.timescale)
  {}

  lemma CutFacts(fs: seq<Fragment>, cut: seq<Fragment>, count: nat, videoScale: u32, videoEnd: u64, audioScale: u32)
    requires CutCorrect(fs, cut, count, videoScale, videoEnd, audioScale)
    ensures QueueOk(cut) && QueueSamples(cut) == QueueSamples(fs)
  {}

  lemma BuildEmits(q: Queue, e: Envelope, v: nat, a: nat, limit: nat)
    requires QueueOk(q.video) && QueueOk(q.audio) && QueuesKeep(q, limit)
    requires 0 < v <= |q.video| && a <= |q.audio|
    requires SegmentOf(e, q.video[..v], q.audio[..a], q.payload).Ok?
    ensures Emitted(q, Drop(q, v, a), SegmentOf(e, q.video[..v], q.audio[..a], q.payload).value)
  {
    hide SegmentOf, TrackKeeps, Attached, QueueBytes, QueueSamples, CollectPayload;
    SplitQueue(q.video, v);
    SplitQueue(q.audio, a);
    EmitKeepsTrack(q.log.video, q.payload, q.video, v);
    EmitKeepsTrack(q.log.audio, q.payload, q.audio, a);
    var head := SegmentHead(e, q.video[..v], q.audio[..a], q.payload);
    assert Drop(q, v, a).log.video.bytesOut == q.log.video.bytesOut + QueueBytes(q.payload, q.video[..v]);
    assert Drop(q, v, a).log.audio.bytesOut == q.log.audio.bytesOut + QueueBytes(q.payload, q.audio[..a]);
  }

  /** One more segment: both tracks stay whole, a sync video fragment stays queued, and bytes above `limit` stay. */
  lemma BuildNextKeeps(q: Queue, c: Config, u: Setup, e: Envelope, limit: nat)
    requires QueuesOk(q, u) && QueuesKeep(q, limit)
    ensures match BuildNext(q, c, u, e)
            case Ok(Some(built)) =>
              && QueuesOk(built.queue, u) && Emitted(q, built.queue, built.segment)
              && built.queue.video != [] && built.queue.video[0].startsWithSync
              && (exists shift: nat :: shift <= limit && Rebased(q, built.queue, shift) && QueuesKeep(built.queue, limit - shift))
            case _ => true
  {
    hide SegmentOf, TrackKeeps, Attached, Disjoint, Within, OfTrack, QueueOk, Reclaim, ChooseCut, Emit, Emitted;
    match BuildNext(q, c, u, e)
    case Ok(Some(built)) =>
      var cut := ChooseCut(q, c, u).value;
      var q1 := q.(audio := cut.audio);
      CutIsBoundary(q, c, u);
      CutKeeps(q, c, u, limit);
      BuildEmits(q1, e, cut.v, cut.a, limit);
      DropKeeps(q1, u, limit, cut.v, cut.a);
      var q2 := Drop(q1, cut.v, cut.a);
      ReclaimKeeps(q2, u, limit);
      var shift: nat :| shift <= limit && Moved(q2, Reclaim(q2), shift) && QueuesKeep(Reclaim(q2), limit - shift);
      assert Rebased(q, Reclaim(q2), shift);
      ReclaimKeepsFirst(q2);
      EmittedSameLog(q, q1, q2, Reclaim(q2), built.segment);
    case _ =>
  }

  ghost predicate Rebased(q: Queue, r: Queue, shift: nat) {
    && shift <= |q.payload| && r.payload == q.payload[shift..]
    && r.payloadStart == Max(q.payloadStart - shift, 0) && r.log.open == q.log.open
  }

  lemma ReclaimKeepsFirst(q: Queue)
    requires q.video != []
    ensures Reclaim(q).video != [] && Reclaim(q).video[0].startsWithSync == q.video[0].startsWithSync
    ensures Reclaim(q).log == q.log
    ensures Reclaim(q).completed == q.completed && Reclaim(q).lastVideoEnd == q.lastVideoEnd
    ensures Reclaim(q).sequence == q.sequence
    ensures |Reclaim(q).video| == |q.video|
    ensures forall i | 0 <= i < |q.video| ::
        Reclaim(q).video[i].(payloadStart := 0) == q.video[i].(payloadStart := 0)
  {
    hide MinStart;
  }

  lemma EmittedSameLog(q: Queue, q1: Queue, q2: Queue, r: Queue, segment: Segment)
    requires Emitted(q1, q2, segment) && q.log == q1.log && r.log == q2.log
    ensures Emitted(q, r, segment)
  {
    var head: bytes, v: bytes, a: bytes :|
      && segment.data == head + (v + a)
      && q2.log.video.bytesOut == q1.log.video.bytesOut + v && q2.log.audio.bytesOut == q1.log.audio.bytesOut + a;
    assert r.log.video.bytesOut == q.log.video.bytesOut + v && r.log.audio.bytesOut == q.log.audio.bytesOut + a;
  }

  /** Building, even in the middle of an `mdat`, keeps the reader whole. */
  lemma TryBuildKeepsReader(s: Core)
    requires Keeps(s)
    ensures match TryBuild(s)
            case Err(_) => true
            case Ok(p) =>
              && Keeps(p.core)
              && (p.segment.Some? ==> Emitted(s.queue, p.core.queue, p.segment.value)
                                      && p.core.queue.video != [] && p.core.queue.video[0].startsWithSync)
  {
    hide BuildNext, QueuesKeep, Emitted, QueuesOk, PendingOk;
    BuildNextKeeps(s.queue, s.config, s.setup, EnvelopeOf(s), Limit(s));
    match TryBuild(s)
    case Err(_) =>
    case Ok(p) =>
      if p.segment.Some? {
        var shift: nat :| shift <= Limit(s) && Rebased(s.queue, p.core.queue, shift)
                          && QueuesKeep(p.core.queue, Limit(s) - shift);
        LimitFits(s.queue, Limit(s));
      }
  }

  lemma LimitFits(q: Queue, limit: nat)
    requires QueuesKeep(q, limit)
    ensures limit <= |q.payload|
  {}

  // ----- boxes -----

  /** Appending to the buffer above every queued range changes no track. */
  lemma AppendKeeps(q: Queue, limit: nat, data: bytes)
    requires QueuesKeep(q, limit)
    ensures QueuesKeep(q.(payload := q.payload + data, log := q.log.(open := q.log.open + data)), limit)
  {
    hide Erase, QueueSamples, NoneInferred, Disjoint;
    AppendKeepsBytes(q.payload, q.video, data);
    AppendKeepsBytes(q.payload, q.audio, data);
  }

  lemma {:induction false} AppendKeepsBytes(payload: bytes, fs: seq<Fragment>, data: bytes)
    requires InBounds(payload, fs)
    ensures InBounds(payload + data, fs) && QueueBytes(payload + data, fs) == QueueBytes(payload, fs)
  {
    if fs != [] {
      assert fs[0] in fs;
      AppendKeepsBytes(payload, fs[1..], data);
    }
  }

  lemma OpenKeeps(q: Queue, limit: nat, start: nat, open: bytes)
    requires QueuesKeep(q, limit)
    ensures QueuesKeep(q.(payloadStart := start, log := q.log.(open := open)), limit)
  {
    hide TrackKeeps, Disjoint, Within;
  }

  lemma BeginMediaKeeps(r: Source, kind: u32, size: u64, headerSize: nat)
    ensures match BeginMedia(r, kind, size, headerSize)
            case Err(_) => true
            case Ok((source, target)) =>
              source.pending == r.pending && (target.PayloadTarget? <==> kind == MDAT) && !target.InitTarget?
  {}

  lemma BeginTargetKeeps(s: Core, target: Target)
    requires QueuesOk(s.queue, s.setup) && QueuesKeep(s.queue, |s.queue.payload|)
    requires s.source.pending.Some? ==> s.setup.initDone && PendingOk(s.source.pending.value, s.setup)
    requires target.PayloadTarget? <==> s.box.kind == MDAT
    requires s.box.kind in {MOOF, MDAT} ==> s.setup.initDone
    requires target.InitTarget? ==> !s.setup.initDone
    ensures Keeps(BeginTarget(s, target))
  {
    hide QueuesKeep, PendingOk;
    OpenKeeps(s.queue, |s.queue.payload|, |s.queue.payload|, []);
    WriteElsewhere(s.setup, s.source, target, s.box.header);
    SetupInit(s.queue, s.setup, WriteSetup(s.setup, target, s.box.header));
  }

  lemma WriteElsewhere(u: Setup, r: Source, target: Target, data: bytes)
    ensures WriteSource(r, target, data).pending == r.pending
    ensures WriteSetup(u, target, data).(init := []) == u.(init := [])
    ensures !target.InitTarget? ==> WriteSetup(u, target, data) == u
  {}

  lemma SetupInit(q: Queue, u: Setup, w: Setup)
    requires w.(init := []) == u.(init := [])
    ensures QueuesOk(q, w) <==> QueuesOk(q, u)
    ensures forall f: Fragment :: PendingOk(f, w) <==> PendingOk(f, u)
  {
    hide QueueOk, TrackFragment, OfTrack;
  }

  lemma CompleteInitKeeps(q: Queue, u: Setup)
    requires QueuesOk(q, u) && !u.initDone
    ensures CompleteInit(u).Ok? ==> QueuesOk(q, CompleteInit(u).value) && CompleteInit(u).value.initDone
  {
    hide ParseInitTracks;
  }

  lemma BeginBoxKeepsReader(s: Core, size: u64, headerSize: nat)
    requires QueuesOk(s.queue, s.setup) && QueuesKeep(s.queue, |s.queue.payload|)
    requires s.source.pending.Some? ==> s.setup.initDone && PendingOk(s.source.pending.value, s.setup)
    ensures BeginBox(s, size, headerSize).Ok? ==> Keeps(BeginBox(s, size, headerSize).value)
  {
    hide QueuesKeep, QueuesOk, PendingOk, BeginMedia, BeginTarget, CompleteInit;
    var kind := s.box.kind;
    if BeginBox(s, size, headerSize).Ok? {
      if !s.setup.initDone {
        CompleteInitKeeps(s.queue, s.setup);
      }
      var setup := if !s.setup.initDone && (kind == STYP || kind == MOOF) then CompleteInit(s.setup).value else s.setup;
      var s1 := s.(box := s.box.(remaining := size - headerSize, target := NoTarget), setup := setup);
      if setup.initDone {
        BeginMediaKeeps(s.source, kind, size, headerSize);
        var (source, target) := BeginMedia(s.source, kind, size, headerSize).value;
        BeginTargetKeeps(s1.(source := source), target);
      } else {
        BeginTargetKeeps(s1, InitTarget);
      }
    }
  }

  // ----- completing boxes -----

  lemma CompleteMoofKeeps(s: Core)
    requires Keeps(s) && !MdatOpen(s.box) && s.setup.initDone
    ensures CompleteMoof(s).Ok? ==> Keeps(CompleteMoof(s).value)
  {
    hide QueuesKeep, QueuesOk, ResolvePrevious, MoofFragment, Remember, PendingOk;
    if CompleteMoof(s).Ok? {
      var f := MoofFragment(s).value;
      ResolvePreviousKeeps(s.queue, s.hints, s.setup, f, Limit(s));
      MoofFragmentOk(s);
    }
  }

  lemma MoofFragmentOk(s: Core)
    ensures MoofFragment(s).Ok? ==> PendingOk(MoofFragment(s).value, s.setup)
  {
    hide MoofTraf, FragmentOk;
    ParsedMoofOk(s.source.moof, s.setup.video, s.setup.audio,
                 HintFor(s.hints.video, s.hints.videoScale, s.setup.video),
                 HintFor(s.hints.audio, s.hints.audioScale, s.setup.audio));
    ParsedScale(s.source.moof, s.setup.video, s.setup.audio,
                HintFor(s.hints.video, s.hints.videoScale, s.setup.video),
                HintFor(s.hints.audio, s.hints.audioScale, s.setup.audio));
  }

  lemma ParsedScale(d: bytes, video: TrackIds, audio: TrackIds, videoHint: u32, audioHint: u32)
    ensures var r := ParsedMoof(d, video, audio, videoHint, audioHint);
            r.Ok? ==> r.value.timescale == (if r.value.trackId == video.id then video.timescale else audio.timescale)
  {
    hide MoofTraf, TryReadBox;
    var root := TryReadBox(d, 0);
    if root.Some? {
      TrafScale(root.value.body, root.value.header, None, video, audio, videoHint, audioHint);
    }
  }

  lemma {:induction false} TrafScale(
    d: bytes, at: nat, found: Option<Fragment>, video: TrackIds, audio: TrackIds, videoHint: u32, audioHint: u32)
    requires found.Some? ==>
      found.value.timescale == (if found.value.trackId == video.id then video.timescale else audio.timescale)
    ensures var r := MoofTraf(d, at, found, video, audio, videoHint, audioHint);
            r.Ok? && r.value.Some? ==>
              r.value.value.timescale == (if r.value.value.trackId == video.id then video.timescale else audio.timescale)
    decreases |d| - at
  {
    hide TryReadBox, TrafFields, TrafRuns;
    var next := TryReadBox(d, at);
    if next.Some? {
      var b := next.value;
      if b.kind != TRAF {
        TrafScale(d, b.next, found, video, audio, videoHint, audioHint);
      } else if found.None? {
        var f := ParsedTraf(b.body, b.header, video, audio, videoHint, audioHint);
        if f.Ok? {
          TrafScale(d, b.next, Some(f.value), video, audio, videoHint, audioHint);
        }
      }
    }
  }

  lemma AttachKeeps(f: Fragment, start: nat, length: nat, fromMoof: int)
    requires FragmentOk(f)
    ensures match AttachPayload(f, start, length, fromMoof)
            case Err(_) => true
            case Ok(g) => Attached(g) && g.payloadStart == start && g.payloadLen == length
                          && g.trackId == f.trackId && g.timescale == f.timescale && g.inferred == f.inferred
  {
    hide RunOk, CanonicalTfhd, Contiguous;
    if AttachPayload(f, start, length, fromMoof).Ok? {
      LaidOutFacts(f.runs);
      LaidOutAttached(f.runs);
    }
  }

  lemma AcceptKeeps(t: TrackLog, payload: bytes, fs: seq<Fragment>, g: Fragment, open: bytes)
    requires TrackKeeps(t, payload, fs)
    requires g.payloadStart + g.payloadLen == |payload| && open == payload[g.payloadStart..]
    ensures TrackKeeps(Accept(t, g, open), payload, fs + [g])
  {
    hide QueueBytes, QueueSamples, RunSamples;
    assert forall f | f in fs + [g] :: f in fs || f == g;
    QueueBytesConcat(payload, fs, [g]);
    OneBytes(payload, g);
    QueueSamplesConcat(fs, [g]);
    OneSamples(g);
    EraseConcat(t.samplesIn, RunSamples(g.runs));
    EraseConcat(t.samplesOut + QueueSamples(fs), RunSamples(g.runs));
    assert t.samplesOut + (QueueSamples(fs) + RunSamples(g.runs)) == t.samplesOut + QueueSamples(fs) + RunSamples(g.runs);
    assert t.bytesOut + (QueueBytes(payload, fs) + open) == t.bytesOut + QueueBytes(payload, fs) + open;
  }

  /** A fragment above every other range joins either queue. */
  lemma JoinDisjoint(v: seq<Fragment>, a: seq<Fragment>, g: Fragment, limit: nat)
    requires Within(v, limit) && Within(a, limit) && Disjoint(v + a) && g.payloadStart >= limit
    ensures Disjoint((v + [g]) + a) && Disjoint(v + (a + [g]))
  {
    var before := v + a;
    assert forall f | f in before :: f in v || f in a;
    assert forall i | 0 <= i < |before| :: before[i] in before;
    forall i, j | 0 <= i < j < |v| + |a| + 1
      ensures Apart(((v + [g]) + a)[i], ((v + [g]) + a)[j]) && Apart((v + (a + [g]))[i], (v + (a + [g]))[j])
    {
      var i', j' := (if i < |v| then i else i - 1), (if j < |v| then j else j - 1);
      if i != |v| && j != |v| {
        assert ((v + [g]) + a)[i] == before[i'] && ((v + [g]) + a)[j] == before[j'];
      } else if i == |v| {
        assert ((v + [g]) + a)[j] == before[j'] && before[j'] in before;
      } else {
        assert ((v + [g]) + a)[i] == before[i'] && before[i'] in before;
      }
      if j < |v| + |a| {
        assert (v + (a + [g]))[i] == before[i] && (v + (a + [g]))[j] == before[j];
      } else {
        assert (v + (a + [g]))[i] == before[i] && before[i] in before;
      }
    }
  }

  lemma EnqueueKeeps(q: Queue, u: Setup, g: Fragment)
    requires QueuesOk(q, u) && QueuesKeep(q, q.payloadStart) && u.initDone
    requires Attached(g) && PendingOk(g, u)
    requires g.payloadStart == q.payloadStart && g.payloadStart + g.payloadLen == |q.payload|
    requires q.log.open == q.payload[q.payloadStart..]
    ensures match Enqueue(q, u, g)
            case Err(_) => true
            case Ok(r) => QueuesOk(r, u) && QueuesKeep(r, |r.payload|)
  {
    hide TrackKeeps, Disjoint, Attached, Accept, TrackFragment;
    JoinDisjoint(q.video, q.audio, g, q.payloadStart);
    AcceptKeeps(q.log.video, q.payload, q.video, g, q.log.open);
    AcceptKeeps(q.log.audio, q.payload, q.audio, g, q.log.open);
    assert forall f | f in q.video + [g] :: f in q.video || f == g;
    assert forall f | f in q.audio + [g] :: f in q.audio || f == g;
  }

  /** A complete `mdat`: its body joins the accepted bytes of its track. */
  lemma CompleteMdatKeeps(s: Core)
    requires Keeps(s) && MdatOpen(s.box) && s.setup.initDone
    ensures CompleteMdat(s).Ok? ==> Keeps(CompleteMdat(s).value.(box := NO_BOX))
  {
    hide QueuesKeep, QueuesOk, AttachPayload, Enqueue, TrackFragment, Attached;
    if CompleteMdat(s).Ok? {
      var f := s.source.pending.value;
      PendingIsOk(f, s.setup);
      var g := AttachPayload(f, s.queue.payloadStart, |s.queue.payload| - s.queue.payloadStart, s.source.fromMoof);
      AttachKeeps(f, s.queue.payloadStart, |s.queue.payload| - s.queue.payloadStart, s.source.fromMoof);
      AttachedPending(f, g.value, s.setup);
      EnqueueKeeps(s.queue, s.setup, g.value);
    }
  }

  lemma PendingIsOk(f: Fragment, u: Setup)
    requires PendingOk(f, u)
    ensures FragmentOk(f)
  {}

  lemma AttachedPending(f: Fragment, g: Fragment, u: Setup)
    requires PendingOk(f, u) && Attached(g) && g.trackId == f.trackId && g.timescale == f.timescale
    ensures PendingOk(g, u)
  {
    hide FragmentOk;
    assert FragmentOk(g);
  }

  lemma TryBuildIgnoresBox(s: Core, b: BoxState)
    ensures match TryBuild(s)
            case Err(e) => TryBuild(s.(box := b)) == Err(e)
            case Ok(p) => TryBuild(s.(box := b)) == Ok(Progress(p.core.(box := b), p.segment))
  {
    hide BuildNext;
  }

  /** A segment just built from the queues of `q`: its payload is recorded, and a sync video fragment stays queued. */
  ghost predicate BuiltFrom(q: Queue, r: Core, segment: Segment) {
    && Emitted(q, r.queue, segment) && r.queue.video != [] && r.queue.video[0].startsWithSync
  }

  /** The segment of a step was built from the queues with the `mdat` that `s` had just read. */
  ghost predicate BuiltBy(s: Core, p: Progress) {
    p.segment.Some? && CompleteMdat(s).Ok? && BuiltFrom(CompleteMdat(s).value.queue, p.core, p.segment.value)
  }

  lemma FinishBoxKeeps(s: Core)
    requires Keeps(s) && |s.box.header| == s.box.required
    ensures match FinishBox(s)
            case Err(_) => true
            case Ok(p) => Keeps(p.core) && (p.segment.Some? ==>
                            s.box.kind == MDAT && CompleteMdat(s).Ok? && BuiltFrom(CompleteMdat(s).value.queue, p.core, p.segment.value))
  {
    hide QueuesKeep, QueuesOk, PendingOk, CompleteMoof, CompleteMdat, TryBuild, Emitted, CompleteStyp;
    if FinishBox(s).Ok? {
      if s.box.kind == MOOF {
        CompleteMoofKeeps(s);
        CompleteMoofKeepsBox(s);
        BoxForgotten(CompleteMoof(s).value);
      } else if s.box.kind == MDAT {
        var s1 := CompleteMdat(s).value;
        CompleteMdatKeeps(s);
        TryBuildIgnoresBox(s1, NO_BOX);
        TryBuildKeepsReader(s1.(box := NO_BOX));
      } else {
        OtherBoxKeepsAll(s);
      }
    }
  }

  lemma CompleteMoofKeepsBox(s: Core)
    ensures CompleteMoof(s).Ok? ==> CompleteMoof(s).value.box == s.box
  {
    hide MoofFragment, ResolvePrevious, Remember;
  }

  /** Outside an `mdat`, forgetting the current box keeps the reader whole. */
  lemma BoxForgotten(s: Core)
    requires Keeps(s) && !MdatOpen(s.box)
    ensures Keeps(s.(box := NO_BOX))
  {
    hide QueuesKeep, QueuesOk, PendingOk;
  }

  lemma OtherBoxKeepsAll(s: Core)
    requires Keeps(s) && |s.box.header| == s.box.required && s.box.kind !in {MOOF, MDAT} && FinishBox(s).Ok?
    ensures Keeps(FinishBox(s).value.core) && FinishBox(s).value.segment.None?
  {
    hide QueuesKeep, PendingOk, CompleteStyp, QueueOk, OfTrack;
    StypKeepsPending(s.source);
    SetupMoov(s.queue, s.setup);
  }

  lemma StypKeepsPending(r: Source)
    ensures CompleteStyp(r).pending == r.pending
  {}

  lemma SetupMoov(q: Queue, u: Setup)
    ensures forall f: Fragment :: PendingOk(f, u) <==> PendingOk(f, u.(moovCompleted := true))
  {
    hide TrackFragment;
  }

  lemma WriteKeeps(s: Core, data: bytes, remaining: u64)
    requires Keeps(s) && |s.box.header| == s.box.required
    ensures Keeps(WriteBoxData(s, data).(box := s.box.(remaining := remaining)))
  {
    hide QueuesKeep, QueuesOk, PendingOk;
    WriteElsewhere(s.setup, s.source, s.box.target, data);
    SetupInit(s.queue, s.setup, WriteSetup(s.setup, s.box.target, data));
    SetupInit(WritePayload(s.queue, s.box.target, data), s.setup, WriteSetup(s.setup, s.box.target, data));
    if MdatOpen(s.box) {
      AppendKeeps(s.queue, s.queue.payloadStart, data);
      LimitFits(s.queue, s.queue.payloadStart);
      assert (s.queue.payload + data)[s.queue.payloadStart..] == s.queue.payload[s.queue.payloadStart..] + data;
      SameQueuesOk(s.queue, WritePayload(s.queue, s.box.target, data), s.setup);
    }
  }

  lemma SameQueuesOk(q: Queue, r: Queue, u: Setup)
    requires r.video == q.video && r.audio == q.audio
    ensures QueuesOk(q, u) <==> QueuesOk(r, u)
  {
    hide QueueOk, OfTrack;
  }

  /** The box a complete header begins. */
  function HeaderBegun(s: Core): Result<Core>
    requires s.box.required in {8, 16} && |s.box.header| == s.box.required
  {
    if s.box.required == 8 then BeginBox(s.(box := s.box.(kind := ReadBe32(s.box.header, 4))), ReadBe32(s.box.header, 0), 8)
    else BeginBox(s, ReadBe64(s.box.header, 8), 16)
  }

  lemma HeaderKeeps(s: Core)
    requires s.box.required in {8, 16} && |s.box.header| == s.box.required
    requires QueuesOk(s.queue, s.setup) && QueuesKeep(s.queue, |s.queue.payload|)
    requires s.source.pending.Some? ==> s.setup.initDone && PendingOk(s.source.pending.value, s.setup)
    ensures match HeaderComplete(s)
            case Err(_) => true
            case Ok(p) => Keeps(p.core) && (p.segment.Some? ==> HeaderBegun(s).Ok? && BuiltBy(HeaderBegun(s).value, p))
  {
    hide QueuesKeep, QueuesOk, PendingOk, BeginBox, FinishBox, ReadBe32, ReadBe64, BuiltFrom;
    var s1 := if s.box.required == 8 then s.(box := s.box.(kind := ReadBe32(s.box.header, 4))) else s;
    var size: u64 := if s.box.required == 8 then ReadBe32(s.box.header, 0) else ReadBe64(s.box.header, 8);
    BeginBoxKeepsReader(s1, size, s.box.required);
    BeginBoxKeeps(s1, size, s.box.required);
    if BeginBox(s1, size, s.box.required).Ok? {
      var s2 := BeginBox(s1, size, s.box.required).value;
      if s2.box.remaining == 0 {
        FinishBoxKeeps(s2);
      }
    }
  }

  /** The reader as the last byte of a box leaves it, before the box is acted on. */
  function BoxEnd(s: Core, b: byte): Result<Core>
    requires ParserOk(s.box)
  {
    if |s.box.header| < s.box.required then
      var s1 := s.(box := s.box.(header := s.box.header + [b]));
      if |s1.box.header| < s1.box.required then Ok(s1) else HeaderBegun(s1)
    else Ok(WriteBoxData(s, [b]).(box := s.box.(remaining := s.box.remaining - 1)))
  }

  /** Every byte of every stream keeps the reader whole; a segment was built from the queues its `mdat` completed. */
  lemma FeedKeepsReader(s: Core, b: byte)
    requires ParserOk(s.box) && Keeps(s)
    ensures match FeedByte(s, b)
            case Err(_) => true
            case Ok(p) => Keeps(p.core) && (p.segment.Some? ==> BoxEnd(s, b).Ok? && BuiltBy(BoxEnd(s, b).value, p))
  {
    hide QueuesKeep, QueuesOk, PendingOk, HeaderComplete, FinishBox, BuiltFrom, WriteBoxData, HeaderBegun;
    if |s.box.header| < s.box.required {
      var s1 := s.(box := s.box.(header := s.box.header + [b]));
      if |s1.box.header| == s1.box.required {
        HeaderKeeps(s1);
      }
    } else {
      WriteKeeps(s, [b], s.box.remaining - 1);
      var s1 := WriteBoxData(s, [b]).(box := s.box.(remaining := s.box.remaining - 1));
      FinishBoxKeeps(s1);
    }
  }

  // ----- whole runs -----

  lemma {:induction false} ProcessedKeepsReader(s: Core, data: bytes)
    requires ParserOk(s.box) && Keeps(s)
    ensures ProcessedBytes(s, data).Ok? ==> Keeps(ProcessedBytes(s, data).value.core)
    decreases |data|
  {
    hide FeedByte, Keeps, ParserOk;
    if data != [] {
      FeedKeepsParser(s, data[0]);
      FeedKeepsReader(s, data[0]);
      if FeedByte(s, data[0]).Ok? && FeedByte(s, data[0]).value.segment.None? {
        ProcessedKeepsReader(FeedByte(s, data[0]).value.core, data[1..]);
      }
    }
  }

  lemma DeferredKeepsReader(r: Reader)
    requires ParserOk(r.core.box) && Keeps(r.core)
    ensures TryDeferred(r).Ok? ==> Keeps(TryDeferred(r).value.reader.core)
  {
    hide Keeps, TryBuild;
    TryBuildKeepsReader(r.core);
    TryBuildKeeps(r.core);
    ProcessedKeepsReader(r.core, r.deferred);
  }

  lemma PushKeepsReader(r: Reader, data: bytes)
    requires ParserOk(r.core.box) && Keeps(r.core)
    ensures Push(r, data).Ok? ==> Keeps(Push(r, data).value.reader.core)
  {
    hide Keeps, TryDeferred;
    DeferredKeepsParser(r);
    DeferredKeepsReader(r);
    if TryDeferred(r).Ok? {
      ProcessedKeepsReader(TryDeferred(r).value.reader.core, data);
    }
  }

  /** What a caller may do, in any order. */
  datatype Call = PushCall(data: bytes) | DeferredCall

  function Perform(r: Reader, call: Call): Result<Step>
    requires ParserOk(r.core.box)
  {
    match call
    case PushCall(data) => Push(r, data)
    case DeferredCall => TryDeferred(r)
  }

  lemma PerformKeeps(r: Reader, call: Call)
    requires ParserOk(r.core.box)
    ensures Perform(r, call).Ok? ==> ParserOk(Perform(r, call).value.reader.core.box)
    ensures Perform(r, call).Ok? && Keeps(r.core) ==> Keeps(Perform(r, call).value.reader.core)
  {
    hide Push, TryDeferred, Keeps, ParserOk;
    match call
    case PushCall(data) =>
      PushKeepsParser(r, data);
      if Keeps(r.core) { PushKeepsReader(r, data); }
    case DeferredCall =>
      DeferredKeepsParser(r);
      if Keeps(r.core) { DeferredKeepsReader(r); }
  }

  /** The segments handed out by `calls`, and the reader they leave or the error that ended them. */
  function PerformAll(r: Reader, calls: seq<Call>): Outcome
    requires ParserOk(r.core.box)
    decreases |calls|
  {
    if calls == [] then Idle(r) else
    match Perform(r, calls[0])
    case Err(e) => Fail(e)
    case Ok(step) =>
      PerformKeeps(r, calls[0]);
      Before(Taken(step.segment), PerformAll(step.reader, calls[1..]))
  }

  /** In every run of push and try_process_deferred the reader stays whole. */
  lemma {:induction false} EveryRunConserves(r: Reader, calls: seq<Call>)
    requires ParserOk(r.core.box) && Keeps(r.core)
    ensures PerformAll(r, calls).end.Ok? ==> Keeps(PerformAll(r, calls).end.value.core)
    decreases |calls|
  {
    hide Perform, Keeps, ParserOk;
    if calls != [] {
      PerformKeeps(r, calls[0]);
      if Perform(r, calls[0]).Ok? {
        EveryRunConserves(Perform(r, calls[0]).value.reader, calls[1..]);
      }
    }
  }
}
