/**
 * Streams whose audio has no known durations: a cut between boxes can let a segment out that a single push loses, and
 * a fragment can end up lasting no time at all.
 */
module Mp4Inferred {
  import opened Bytes
  import opened Mp4Types
  import opened Mp4Parse
  import opened Mp4Write
  import opened Mp4Select
  import opened Mp4Audio
  import opened Mp4Build
  import opened Mp4Reader
  import opened Mp4Runs
  import opened Mp4Keeps
  import opened Mp4Steps
  import opened Mp4Early
  import opened Mp4Chunks
  import opened Mp4Class
  import opened Mp4Boxes
  import opened Mp4Streams

  // ----- reading one box -----

  /** A whole short box read byte by byte is begun, filled and finished. */
  lemma WholeBox(s: Core, kind: u32, body: bytes, begun: Core, e: Core)
    requires s.box == NO_BOX && |body| < 900
    requires Begun(s, TopBox(kind, false, body)) == Ok(begun)
    requires FinishBox(Filled(begun, body)) == Ok(Progress(e, None))
    ensures ByBytes(s, Box(kind, body), false) == Idle(Reader(e, []))
  {
    hide BeginBox, FinishBox, Header, WriteBoxData, ByBytes;
    var b := TopBox(kind, false, body);
    BoxReads(s, b);
    assert BoxStep(s, b) == Ok(Progress(e, None));
    assert Box(kind, body) == BoxBytes(b);
    NoBytes(e);
    BeforeNothing(Idle(Reader(e, [])));
  }

  // ----- the states between boxes -----

  const NO_HINTS: Hints := Hints(0, 0, 0, 0)
  const BEFORE: Setup := Setup(InitBytes(), true, false, NO_TRACK, NO_TRACK, None)
  const READY: Setup := Setup(InitBytes(), true, true, VIDEO, AUDIO, Some(InitBytes()))
  const IDLE: Source := Source([], [], [], [], false, None, 0, false, false)

  function Between(config: Config, u: Setup, h: Hints, q: Queue): Core { Core(config, NO_BOX, u, IDLE, h, q) }

  function Awaiting(config: Config, h: Hints, q: Queue, f: Fragment, moof: bytes): Core {
    Core(config, NO_BOX, READY, IDLE.(moof := moof, pending := Some(f), fromMoof := 80), h, q)
  }

  lemma ReadInit(config: Config)
    ensures ByBytes(NewCore(config), InitBytes(), false)
         == Idle(Reader(Between(config, BEFORE, NO_HINTS, NewCore(config).queue), []))
  {
    hide ByBytes, Header, Trak, Box;
    var s := NewCore(config);
    var body := Trak(1, 1, HANDLER_VIDEO) + Trak(2, 10, HANDLER_AUDIO);
    BoxHeads(1, 1, HANDLER_VIDEO);
    BoxHeads(2, 10, HANDLER_AUDIO);
    InitIs(body);
    var h := Header(176, MOOV);
    var begun := s.(box := BoxState(h, 8, MOOV, 168, InitTarget), setup := s.setup.(init := h));
    assert [] + h == h;
    assert Begun(s, TopBox(MOOV, false, body)) == Ok(begun);
    WholeBox(s, MOOV, body, begun, Between(config, BEFORE, NO_HINTS, s.queue));
  }

  lemma InitIs(body: bytes)
    requires body == Trak(1, 1, HANDLER_VIDEO) + Trak(2, 10, HANDLER_AUDIO)
    ensures InitBytes() == Box(MOOV, body) == Header(176, MOOV) + body
  {
    hide Header;
  }

  lemma InitCompletes(u: Setup)
    requires u in {BEFORE, READY}
    ensures (if u.initDone then Ok(u) else CompleteInit(u)) == Ok(READY)
  {
    hide ParseInitTracks, InitBytes;
    InitReads();
    InitNotEmpty();
  }

  lemma InitNotEmpty()
    ensures InitBytes() != []
  {
    hide Box;
  }

  /** What a fragment's duration is taken to be. */
  function DurationOf(h: Hints, ids: TrackIds, duration: u32): u32 {
    if duration != 0 then duration
    else if ids == VIDEO then HintFor(h.video, h.videoScale, VIDEO) else HintFor(h.audio, h.audioScale, AUDIO)
  }

  function FragmentOf(h: Hints, ids: TrackIds, time: u64, duration: u32): Fragment {
    OneSample(ids, time, DurationOf(h, ids, duration), duration == 0)
  }

  lemma ReadMoof(config: Config, u: Setup, h: Hints, q: Queue, ids: TrackIds, time: u64, duration: u32, q2: Queue, h2: Hints)
    requires u in {BEFORE, READY} && ids in {VIDEO, AUDIO} && DurationOf(h, ids, duration) != 0
    requires ResolvePrevious(q, h, READY, FragmentOf(h, ids, time, duration)) == Ok((q2, h2))
    ensures ByBytes(Between(config, u, h, q), MoofOf(ids.id, time, duration), false)
         == Idle(Reader(Awaiting(config, Remember(h2, READY, ids.id, duration, ids.timescale), q2,
                                 FragmentOf(h, ids, time, duration), MoofOf(ids.id, time, duration)), []))
  {
    hide ByBytes, Header, TrafBytes, MoofOf, CompleteInit, ResolvePrevious, Remember, OneSample, CanonicalTfhd, InitBytes, Box;
    var s, body, moof := Between(config, u, h, q), TrafBytes(ids.id, time, duration), MoofOf(ids.id, time, duration);
    TrafHead(ids.id, time, duration);
    InitCompletes(u);
    var head := Header(80, MOOF);
    assert [] + head == head;
    MoofIs(ids.id, time, duration);
    var begun := s.(box := BoxState(head, 8, MOOF, 72, MoofTarget), setup := READY, source := IDLE.(moof := head));
    assert Begun(s, TopBox(MOOF, false, body)) == Ok(begun);
    MoofReads(ids.id, time, duration, HintFor(h.video, h.videoScale, VIDEO), HintFor(h.audio, h.audioScale, AUDIO));
    LastDuration(h, ids, time, duration);
    var e := Awaiting(config, Remember(h2, READY, ids.id, duration, ids.timescale), q2, FragmentOf(h, ids, time, duration), moof);
    assert FinishBox(Filled(begun, body)) == Ok(Progress(e, None));
    WholeBox(s, MOOF, body, begun, e);
  }

  lemma MoofIs(track: u32, time: u64, duration: u32)
    ensures MoofOf(track, time, duration) == Header(80, MOOF) + TrafBytes(track, time, duration)
    ensures |MoofOf(track, time, duration)| == 80
  {
    hide Header;
  }

  lemma LastDuration(h: Hints, ids: TrackIds, time: u64, duration: u32)
    requires DurationOf(h, ids, duration) != 0
    ensures var f := FragmentOf(h, ids, time, duration);
            (if f.inferred then 0 else LastNonZeroDuration(RunSamples(f.runs))) == duration
            && f.trackId == ids.id && f.timescale == ids.timescale
  {
    hide CanonicalTfhd;
    var f := FragmentOf(h, ids, time, duration);
    assert f.runs[..0] == [];
    assert RunSamples(f.runs) == [Sample(DurationOf(h, ids, duration), 1, 0, 0)];
  }

  /** The queues after `f` and its payload, one zero byte. */
  function Queued(q: Queue, f: Fragment): Queue {
    var q1 := q.(payload := q.payload + [0], payloadStart := |q.payload|, log := q.log.(open := [0]));
    match Enqueue(q1, READY, f.(payloadStart := |q.payload|, payloadLen := 1))
    case Ok(r) => r
    case Err(_) => q
  }

  lemma Attaches(ids: TrackIds, time: u64, duration: u32, inferred: bool, start: nat)
    ensures var f := OneSample(ids, time, duration, inferred);
            AttachPayload(f, start, 1, 88) == Ok(f.(payloadStart := start, payloadLen := 1))
  {
    hide CanonicalTfhd;
    var f := OneSample(ids, time, duration, inferred);
    assert f.runs[..0] == [] && RunsSize(f.runs) == 1;
    assert LaidOut(f.runs) == [f.runs[0].(payloadOffset := 0)] == f.runs;
  }

  lemma ReadMdat(config: Config, h: Hints, q: Queue, ids: TrackIds, time: u64, duration: u32, inferred: bool, moof: bytes)
    requires ids in {VIDEO, AUDIO}
    requires ChooseCut(Queued(q, OneSample(ids, time, duration, inferred)), config, READY) == Ok(NoCut)
    ensures var f := OneSample(ids, time, duration, inferred);
            ByBytes(Awaiting(config, h, q, f, moof), Box(MDAT, [0]), false)
            == Idle(Reader(Between(config, READY, h, Queued(q, f)), []))
  {
    hide ByBytes, Header, ChooseCut, AttachPayload, Accept, InitBytes, Box, BuildNext;
    var f := OneSample(ids, time, duration, inferred);
    var s := Awaiting(config, h, q, f, moof);
    var q1 := q.(payloadStart := |q.payload|, log := q.log.(open := []));
    var begun := s.(box := BoxState(Header(9, MDAT), 8, MDAT, 1, PayloadTarget), source := s.source.(fromMoof := 88), queue := q1);
    assert Begun(s, TopBox(MDAT, false, [0])) == Ok(begun);
    Attaches(ids, time, duration, inferred, |q.payload|);
    var filled := Filled(begun, [0]);
    assert [] + [0] == [0];
    assert CompleteMdat(filled) == Ok(filled.(queue := Queued(q, f), source := IDLE));
    var done := filled.(queue := Queued(q, f), source := IDLE);
    TryBuildFollowsCut(done);
    TryBuildKeeps(done);
    WholeBox(s, MDAT, [0], begun, Between(config, READY, h, Queued(q, f)));
  }

  // ----- two audio fragments, the second without a duration -----

  const CONFIG: Config := Config(1, 0, 0)
  const START: Queue := NewCore(CONFIG).queue
  const FIRST: Fragment := OneSample(AUDIO, 0, 1, false)
  const SECOND: Fragment := OneSample(AUDIO, 1, 1, true)
  const HINTED: Hints := Hints(0, 0, 1, 10)

  /** A fragment of one sample of one byte. */
  function FragmentBytesOf(track: u32, time: u64, duration: u32): bytes { MoofOf(track, time, duration) + Box(MDAT, [0]) }

  /** The initialization, a tenth of a second of audio, and audio of which only the last duration seen gives a hint. */
  function HintedAudio(): bytes { InitBytes() + FragmentBytesOf(2, 0, 1) + FragmentBytesOf(2, 1, 0) }

  function Placed(f: Fragment, start: nat): Fragment { f.(payloadStart := start, payloadLen := 1) }

  lemma QueuedAudio(q: Queue, f: Fragment)
    requires f.trackId == 2
    ensures var r := Queued(q, f);
            r.audio == q.audio + [Placed(f, |q.payload|)] && r.video == q.video && r.payload == q.payload + [0]
            && r.completed == q.completed && r.lastVideoEnd == q.lastVideoEnd && r.sequence == q.sequence
  {
    hide Accept;
  }

  lemma QueuedVideo(q: Queue, f: Fragment)
    requires f.trackId == 1
    ensures var r := Queued(q, f);
            r.video == q.video + [Placed(f, |q.payload|)] && r.audio == q.audio && r.payload == q.payload + [0]
            && r.completed == q.completed && r.lastVideoEnd == q.lastVideoEnd && r.sequence == q.sequence
  {
    hide Accept;
  }

  /** Two stretches read in turn without a segment. */
  lemma ReadOn(s: Core, a: bytes, m: Core, b: bytes, e: Core)
    requires ParserOk(s.box) && ParserOk(m.box)
    requires ByBytes(s, a, false) == Idle(Reader(m, [])) && ByBytes(m, b, false) == Idle(Reader(e, []))
    ensures ByBytes(s, a + b, false) == Idle(Reader(e, []))
  {
    hide ByBytes;
    ByBytesConcat(s, a, b, false);
    BeforeNothing(Idle(Reader(e, [])));
  }

  /** One fragment whose track has nothing to resolve, and after which no segment is due. */
  lemma ReadFragment(u: Setup, h: Hints, q: Queue, ids: TrackIds, time: u64, duration: u32)
    requires u in {BEFORE, READY} && ids in {VIDEO, AUDIO} && DurationOf(h, ids, duration) != 0
    requires var queue := if ids == VIDEO then q.video else q.audio; queue == [] || !queue[|queue| - 1].inferred
    requires ChooseCut(Queued(q, FragmentOf(h, ids, time, duration)), CONFIG, READY) == Ok(NoCut)
    ensures ByBytes(Between(CONFIG, u, h, q), FragmentBytesOf(ids.id, time, duration), false)
         == Idle(Reader(Between(CONFIG, READY, Remember(h, READY, ids.id, duration, ids.timescale),
                                Queued(q, FragmentOf(h, ids, time, duration))), []))
  {
    hide ByBytes, MoofOf, Box, ChooseCut, Queued, InitBytes, CanonicalTfhd;
    var f := FragmentOf(h, ids, time, duration);
    var h2 := Remember(h, READY, ids.id, duration, ids.timescale);
    ReadMoof(CONFIG, u, h, q, ids, time, duration, q, h);
    ReadMdat(CONFIG, h2, q, ids, time, DurationOf(h, ids, duration), duration == 0, MoofOf(ids.id, time, duration));
    ReadOn(Between(CONFIG, u, h, q), MoofOf(ids.id, time, duration), Awaiting(CONFIG, h2, q, f, MoofOf(ids.id, time, duration)),
           Box(MDAT, [0]), Between(CONFIG, READY, h2, Queued(q, f)));
  }

  lemma ReadHinted()
    ensures ByBytes(NewCore(CONFIG), HintedAudio(), false)
         == Idle(Reader(Between(CONFIG, READY, HINTED, Queued(Queued(START, FIRST), SECOND)), []))
    ensures var q := Queued(Queued(START, FIRST), SECOND);
            q.audio == [Placed(FIRST, 0), Placed(SECOND, 1)] && q.video == [] && q.payload == [0, 0]
            && q.completed == 0 && q.sequence == 1
  {
    hide ByBytes, MoofOf, Box, ChooseCut, Queued, InitBytes, CanonicalTfhd;
    var s := NewCore(CONFIG);
    var q1 := Queued(START, FIRST);
    var q2 := Queued(q1, SECOND);
    QueuedAudio(START, FIRST);
    QueuedAudio(q1, SECOND);
    NoVideoNoCut(q1, CONFIG, READY);
    NoVideoNoCut(q2, CONFIG, READY);
    ReadInit(CONFIG);
    ReadFragment(BEFORE, NO_HINTS, START, AUDIO, 0, 1);
    ReadFragment(READY, HINTED, q1, AUDIO, 1, 0);
    var b0, b1, b2 := Between(CONFIG, BEFORE, NO_HINTS, START), Between(CONFIG, READY, HINTED, q1), Between(CONFIG, READY, HINTED, q2);
    ReadOn(s, InitBytes(), b0, FragmentBytesOf(2, 0, 1), b1);
    ReadOn(s, InitBytes() + FragmentBytesOf(2, 0, 1), b1, FragmentBytesOf(2, 1, 0), b2);
    assert [] + [Placed(FIRST, 0)] + [Placed(SECOND, 1)] == [Placed(FIRST, 0), Placed(SECOND, 1)];
    assert [] + [0] + [0] == [0, 0];
  }

  /** The next fragment of the track tells how long the hinted one lasted. */
  lemma SecondResolves(q: Queue, h: Hints, f: Fragment)
    requires q.audio == [Placed(FIRST, 0), Placed(SECOND, 1)] && f.trackId == 2 && f.timescale == 10
    requires 1 <= f.decodeTime <= U32_MAX
    ensures ResolvePrevious(q, h, READY, f)
         == Ok((q.(audio := [Placed(FIRST, 0), Placed(OneSample(AUDIO, 1, f.decodeTime - 1, false), 1)]),
                Remember(h, READY, 2, f.decodeTime - 1, 10)))
  {
    hide CanonicalTfhd, InitBytes;
    var g := Placed(SECOND, 1);
    var exact: u32 := f.decodeTime - 1;
    assert g.runs == [OneRun(1, true)] && g.runs[..0] == [] && g.runs[1..] == [];
    assert LastInferred(g.runs) == Some(0);
    assert WithLastDuration(g.runs[0], exact) == OneRun(exact, true) by {
      assert [Sample(1, 1, 0, 0)][0 := Sample(exact, 1, 0, 0)] == [Sample(exact, 1, 0, 0)];
    }
    var runs := g.runs[0 := OneRun(exact, true)];
    assert runs == [OneRun(exact, true)] && runs[1..] == [];
    assert ClearInferred(runs) == [OneRun(exact, false)] + [] == [OneRun(exact, false)];
    assert ResolveFragment(g, f.decodeTime) == Ok((Placed(OneSample(AUDIO, 1, exact, false), 1), exact));
    var resolved := Placed(OneSample(AUDIO, 1, exact, false), 1);
    assert q.audio[..|q.audio| - 1] + [resolved] == [Placed(FIRST, 0), resolved];
    assert ResolveInferred(q.audio, f) == Ok(([Placed(FIRST, 0), resolved], exact));
  }

  // ----- a fragment that lasts no time -----

  /** The third fragment starts where the second did. */
  function ZeroAudio(): bytes { HintedAudio() + FragmentBytesOf(2, 1, 1) }

  const LASTING_NOTHING: seq<Fragment> :=
    [Placed(FIRST, 0), Placed(OneSample(AUDIO, 1, 0, false), 1), Placed(OneSample(AUDIO, 1, 1, false), 2)]

  lemma ReadZeroAudio() returns (e: Core)
    ensures ByBytes(NewCore(CONFIG), ZeroAudio(), false) == Idle(Reader(e, []))
    ensures e.queue.audio == LASTING_NOTHING && Keeps(e)
  {
    hide ByBytes, MoofOf, Box, ChooseCut, Queued, InitBytes, CanonicalTfhd, Keeps;
    var s := NewCore(CONFIG);
    ReadHinted();
    var q := Queued(Queued(START, FIRST), SECOND);
    var b := Between(CONFIG, READY, HINTED, q);
    var f := OneSample(AUDIO, 1, 1, false);
    SecondResolves(q, HINTED, f);
    var q2 := q.(audio := [Placed(FIRST, 0), Placed(OneSample(AUDIO, 1, 0, false), 1)]);
    ReadMoof(CONFIG, READY, HINTED, q, AUDIO, 1, 1, q2, HINTED);
    var m := Awaiting(CONFIG, HINTED, q2, f, MoofOf(2, 1, 1));
    QueuedAudio(q2, f);
    NoVideoNoCut(Queued(q2, f), CONFIG, READY);
    ReadMdat(CONFIG, HINTED, q2, AUDIO, 1, 1, false, MoofOf(2, 1, 1));
    e := Between(CONFIG, READY, HINTED, Queued(q2, f));
    ReadOn(b, MoofOf(2, 1, 1), m, Box(MDAT, [0]), e);
    ReadOn(s, HintedAudio(), b, FragmentBytesOf(2, 1, 1), e);
    NewReaderIsReady(CONFIG);
    EndReady(s, ZeroAudio(), false);
  }

  lemma NothingWrites()
    ensures WriteTraf(LASTING_NOTHING, 0, 0).Ok? && TrafSize(LASTING_NOTHING) == 144
    ensures !AllLast(QueueRuns(LASTING_NOTHING))
  {
    hide SamplesBytes, Header, Tfdt, CanonicalTfhd;
    var fs := LASTING_NOTHING;
    var a, z, b := OneRun(1, false), OneRun(0, false), OneRun(1, false);
    assert fs[1..] == [fs[1], fs[2]] && fs[1..][1..] == [fs[2]] && fs[1..][1..][1..] == [];
    assert QueueRuns(fs[1..][1..]) == [b] + [] == [b];
    assert QueueRuns(fs[1..]) == [z] + [b] == [z, b];
    assert QueueRuns(fs) == [a] + [z, b] == [a, z, b];
    var runs := QueueRuns(fs);
    assert runs[1..] == [z, b] && runs[1..][1..] == [b] && runs[1..][1..][1..] == [];
    assert TrunsSize([b]) == 32 && TrunsSize([z, b]) == 64 && TrunsSize(runs) == 96;
    assert WriteTruns([b], 0).Ok?;
    assert WriteTruns([z, b], 0).Ok?;
    assert WriteTruns(runs, 0).Ok?;
    assert z in runs;
  }

  /** A whole stream after which audio is queued that the parser refuses once it is written into a segment. */
  lemma ZeroDurationIsQueued() returns (e: Core)
    ensures ByBytes(NewCore(CONFIG), ZeroAudio(), false) == Idle(Reader(e, []))
    ensures e.queue.audio != [] && WriteTraf(e.queue.audio, 0, 0).Ok?
    ensures ParsedTraf(WriteTraf(e.queue.audio, 0, 0).value, 8, VIDEO, AUDIO, 0, 0).Err?
  {
    hide ByBytes, QueuesKeep, PendingOk, WriteTraf, ParsedTraf, QueueOk, OfTrack, QueueRuns, AllLast, RunsDuration;
    e := ReadZeroAudio();
    NothingWrites();
    TrafRoundTrip(e.queue.audio, 0, 0, VIDEO, AUDIO, 0, 0);
  }

  // ----- a segment that a single push loses -----

  const VIDEO0: Fragment := OneSample(VIDEO, 0, 1, false)
  const VIDEO1: Fragment := OneSample(VIDEO, 1, 1, false)
  const BOTH: Hints := Hints(1, 1, 1, 10)
  const LONG: Fragment := OneSample(AUDIO, 1, 19, false)

  /** Two seconds of video, and the `moof` that says the hinted audio lasted until second two. */
  function LateAudio(): bytes { HintedAudio() + FragmentBytesOf(1, 0, 1) + FragmentBytesOf(1, 1, 1) + MoofOf(2, 20, 1) }

  /** A box of size zero, which ends the run in an error. */
  const ZEROS: bytes := [0, 0, 0, 0, 0, 0, 0, 0]

  lemma OneVideo(q: Queue)
    requires |q.video| == 1 && q.video[0].startsWithSync
    ensures ChooseCut(q, CONFIG, READY) == Ok(NoCut)
  {
    hide InitBytes;
  }

  /** How far the audio of a fragment of one sample reaches. */
  lemma OneReaches(time: u64, duration: u32, inferred: bool, start: nat)
    requires time + duration <= U64_MAX
    ensures FindAudioSplit(Placed(OneSample(AUDIO, time, duration, inferred), start), 1, 1)
         == Ok(if time + duration >= 10 then Some(1) else None)
  {
    hide CanonicalTfhd;
    var f := Placed(OneSample(AUDIO, time, duration, inferred), start);
    assert f.runs[..0] == [];
    assert RunSamples(f.runs) == [Sample(duration, 1, 0, 0)];
    var samples := RunSamples(f.runs);
    assert samples[1..] == [];
    assert Reach([], time + duration, 1, 1, 1, 10) == NotReached(time + duration);
    assert Reach(samples, time, 0, 1, 1, 10) == if time + duration >= 10 then Reached(1) else NotReached(time + duration);
    assert EndTime(f) == time + duration;
  }

  lemma CutOfTwo(second: Fragment)
    requires second in {Placed(SECOND, 1), Placed(LONG, 1)}
    ensures CutQueue([Placed(FIRST, 0), second], 1, 1)
         == Ok(([Placed(FIRST, 0), second], if second == Placed(LONG, 1) then 2 else 0))
  {
    hide FindAudioSplit, CanonicalTfhd, SplitFragment;
    OneReaches(0, 1, false, 0);
    OneReaches(1, 1, true, 1);
    OneReaches(1, 19, false, 1);
    var fs := [Placed(FIRST, 0), second];
    assert fs[1..] == [second] && fs[1..][1..] == [];
    assert |RunSamples(second.runs)| == 1 by { assert second.runs[..0] == []; }
    assert CutQueue([second], 1, 1) == Ok(([second], if second == Placed(LONG, 1) then 1 else 0)) by {
      assert [second] + [] == [second];
    }
    assert [fs[0]] + [second] == fs;
  }

  lemma TwoVideos(q: Queue)
    requires q.video == [Placed(VIDEO0, 2), Placed(VIDEO1, 3)] && q.completed == 0
    requires q.audio in {[Placed(FIRST, 0), Placed(SECOND, 1)], [Placed(FIRST, 0), Placed(LONG, 1)]}
    ensures ChooseCut(q, CONFIG, READY)
         == Ok(if q.audio[1] == Placed(LONG, 1) then Cut(q.audio, 1, 2) else NoCut)
  {
    hide CutQueue, InitBytes, CanonicalTfhd;
    CutOfTwo(q.audio[1]);
    assert q.audio == [Placed(FIRST, 0), q.audio[1]];
    assert SelectFrom(q.video, 0, 0, 0, false, 1) == 1;
  }

  lemma ReadLateAudio() returns (e: Core)
    ensures ByBytes(NewCore(CONFIG), LateAudio(), false) == Idle(Reader(e, []))
    ensures e.box == NO_BOX && e.setup == READY && e.source.pending.Some? && e.source.pending.value.trackId == 2
    ensures e.config == CONFIG && e.source.prefix == [] && e.source.firstStyp == []
    ensures e.queue.video == [Placed(VIDEO0, 2), Placed(VIDEO1, 3)] && e.queue.audio == [Placed(FIRST, 0), Placed(LONG, 1)]
    ensures e.queue.completed == 0 && |e.queue.payload| == 4
  {
    hide ByBytes, MoofOf, Box, ChooseCut, Queued, InitBytes, CanonicalTfhd;
    var s := NewCore(CONFIG);
    ReadHinted();
    var q2 := Queued(Queued(START, FIRST), SECOND);
    var q3 := Queued(q2, VIDEO0);
    var q4 := Queued(q3, VIDEO1);
    QueuedVideo(q2, VIDEO0);
    QueuedVideo(q3, VIDEO1);
    assert q3.video == [Placed(VIDEO0, 2)] && q4.video == [Placed(VIDEO0, 2), Placed(VIDEO1, 3)];
    OneVideo(q3);
    TwoVideos(q4);
    ReadFragment(READY, HINTED, q2, VIDEO, 0, 1);
    ReadFragment(READY, BOTH, q3, VIDEO, 1, 1);
    var f := OneSample(AUDIO, 20, 1, false);
    SecondResolves(q4, BOTH, f);
    var q5 := q4.(audio := [Placed(FIRST, 0), Placed(LONG, 1)]);
    var h := Remember(BOTH, READY, 2, 19, 10);
    ReadMoof(CONFIG, READY, BOTH, q4, AUDIO, 20, 1, q5, h);
    e := Awaiting(CONFIG, Remember(h, READY, 2, 1, 10), q5, f, MoofOf(2, 20, 1));
    var b2, b3, b4 := Between(CONFIG, READY, HINTED, q2), Between(CONFIG, READY, BOTH, q3), Between(CONFIG, READY, BOTH, q4);
    ReadOn(s, HintedAudio(), b2, FragmentBytesOf(1, 0, 1), b3);
    ReadOn(s, HintedAudio() + FragmentBytesOf(1, 0, 1), b3, FragmentBytesOf(1, 1, 1), b4);
    ReadOn(s, HintedAudio() + FragmentBytesOf(1, 0, 1) + FragmentBytesOf(1, 1, 1), b4, MoofOf(2, 20, 1), e);
  }

  lemma WritesOne(base: int)
    requires 0 <= base <= 1000
    ensures var fs := AssignOffsets([Placed(VIDEO0, 2)], 0); WriteTraf(fs, base, 0).Ok? && TrafSize(fs) == 80
  {
    hide SamplesBytes, Header, Tfdt, CanonicalTfhd;
    var f := Placed(VIDEO0, 2);
    var run := f.runs[0].(outputOffset := 0);
    assert AssignRuns(f.runs, 0) == [run] + [] == [run];
    assert AssignOffsets([f], 0) == [f.(runs := [run])] + [] == [f.(runs := [run])];
    assert QueueRuns([f.(runs := [run])]) == [run] + [] == [run];
    assert TrunsSize([run]) == 32 && WriteTruns([run], base).Ok?;
  }

  lemma WritesTwo(base: int)
    requires 0 <= base <= 1000
    ensures var fs := AssignOffsets([Placed(FIRST, 0), Placed(LONG, 1)], 1);
            WriteTraf(fs, base, 0).Ok? && TrafSize(fs) == 112 && fs != []
  {
    hide SamplesBytes, Header, Tfdt, CanonicalTfhd;
    var f, g := Placed(FIRST, 0), Placed(LONG, 1);
    var a, b := f.runs[0].(outputOffset := 1), g.runs[0].(outputOffset := 2);
    assert AssignRuns(f.runs, 1) == [a] + [] == [a] && AssignRuns(g.runs, 2) == [b] + [] == [b];
    assert [f, g][1..] == [g] && [g][1..] == [];
    assert AssignOffsets([g], 2) == [g.(runs := [b])] + [] == [g.(runs := [b])];
    var fs := AssignOffsets([f, g], 1);
    assert fs == [f.(runs := [a])] + [g.(runs := [b])] == [f.(runs := [a]), g.(runs := [b])];
    assert fs[1..] == [g.(runs := [b])];
    assert QueueRuns(fs[1..]) == [b] + [] == [b];
    assert QueueRuns(fs) == [a] + [b] == [a, b];
    assert [a, b][1..] == [b];
    assert TrunSize(a) == 32 && TrunSize(b) == 32;
    assert TrunsSize([b]) == 32;
    assert TrunsSize([a, b]) == TrunSize(a) + TrunsSize([b]) == 64;
    assert WriteTruns([b], base).Ok? && WriteTruns([a, b], base).Ok?;
  }

  lemma SegmentOk(e: Envelope, payload: bytes)
    requires |payload| == 4 && e.offsetSeconds == 0
    ensures SegmentOf(e, [Placed(VIDEO0, 2)], [Placed(FIRST, 0), Placed(LONG, 1)], payload).Ok?
  {
    hide WriteTraf, TrafSize, Header, Mfhd, MdatHeader, AssignOffsets, CanonicalTfhd;
    var v, a := [Placed(VIDEO0, 2)], [Placed(FIRST, 0), Placed(LONG, 1)];
    assert v[1..] == [] && a[1..] == [Placed(LONG, 1)] && a[1..][1..] == [];
    assert QueuePayloadLength(v) == 1 && QueuePayloadLength(a[1..]) == 1 && QueuePayloadLength(a) == 2;
    WritesOne(224);
    WritesTwo(224);
    assert Mergeable(v) && Mergeable(a);
    assert InBounds(payload, v + a);
    CollectInBounds(payload, v + a);
    assert MoofSize(AssignOffsets(v, 0), AssignOffsets(a, 1)) == 216;
  }

  lemma LateIsDue(e: Core)
    requires e.setup == READY && e.config == CONFIG
    requires e.queue.video == [Placed(VIDEO0, 2), Placed(VIDEO1, 3)] && e.queue.audio == [Placed(FIRST, 0), Placed(LONG, 1)]
    requires e.queue.completed == 0 && |e.queue.payload| == 4
    ensures TryBuild(e).Ok? && TryBuild(e).value.segment.Some?
  {
    hide SegmentOf, InitBytes, CanonicalTfhd, ChooseCut;
    TwoVideos(e.queue);
    assert e.queue.video[..1] == [Placed(VIDEO0, 2)] && e.queue.audio[..2] == e.queue.audio;
    SegmentOk(EnvelopeOf(e), e.queue.payload);
  }

  lemma ZerosFail(s: Core)
    requires s.box == NO_BOX
    ensures ByBytes(s, ZEROS, false) == Fail(ZeroBoxSize)
  {
    hide ByBytes, BeginBox, ProcessedBytes;
    assert [] + ZEROS == ZEROS && ZEROS + [] == ZEROS;
    assert ReadBe32(ZEROS, 0) == 0;
    BulkHeader(s, ZEROS, []);
    ProcessedIsByBytes(s, ZEROS);
  }

  /**
   * A stream that ends in a zero box: pushed whole it gives no segment, pushed with a cut before that box it gives one.
   * So a segment that is due early is lost with an error that comes before its payload.
   */
  lemma LostSegment()
    ensures Drained(CONFIG, [LateAudio() + ZEROS]) == Fail(ZeroBoxSize)
    ensures Drained(CONFIG, [LateAudio(), ZEROS]).segments != []
    ensures !Undisturbed(NewCore(CONFIG), LateAudio() + ZEROS, false)
  {
    hide ByBytes, LateAudio, Drive, Chunked, Full, TryBuild, InitBytes, CanonicalTfhd, Undisturbed;
    var s := NewCore(CONFIG);
    NewReaderIsReady(CONFIG);
    var e := ReadLateAudio();
    LateIsDue(e);
    ZerosFail(e);
    WholeIsFull(CONFIG, LateAudio() + ZEROS);
    FullConcat(s, LateAudio(), ZEROS, false);
    FailsFull(e);
    DriveIsChunked(Reader(s, []), [LateAudio(), ZEROS]);
    CutIsChunked(CONFIG, LateAudio(), ZEROS);
    FullBuilds(e, ZEROS);
    ChunkIndependence(CONFIG, LateAudio() + ZEROS);
    TwoChunks(LateAudio(), ZEROS);
  }

  lemma FailsFull(s: Core)
    requires ParserOk(s.box) && ByBytes(s, ZEROS, false) == Fail(ZeroBoxSize)
    ensures Full(s, ZEROS, false) == Fail(ZeroBoxSize)
  {}
}
