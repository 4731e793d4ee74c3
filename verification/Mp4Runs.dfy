/**
 * Runs of the reader: pushing chunks, taking each finished segment and draining, against the reference that reads the
 * stream byte by byte. Between two bytes nothing is left to build, unless a queued audio sample got its duration late.
 */
module Mp4Runs {
  import opened Bytes
  import opened Mp4Types
  import opened Mp4Select
  import opened Mp4Build
  import opened Mp4Reader

  // ----- the calls of the reader -----

  lemma BeginBoxKeeps(s: Core, size: u64, headerSize: nat)
    ensures BeginBox(s, size, headerSize).Ok? ==>
              BeginBox(s, size, headerSize).value.box.header == s.box.header
              && BeginBox(s, size, headerSize).value.box.required == s.box.required
  {
    hide CompleteInit, BeginMedia, WriteSetup, WriteSource, WritePayload;
  }

  /** Each byte leaves a readable box state behind. */
  lemma FeedKeepsParser(s: Core, b: byte)
    requires ParserOk(s.box)
    ensures FeedByte(s, b).Ok? ==> ParserOk(FeedByte(s, b).value.core.box)
  {
    hide BeginBox, CompleteBox, ReadBe32, ReadBe64, WriteSetup, WriteSource, WritePayload;
    if |s.box.header| + 1 == s.box.required {
      var s1 := s.(box := s.box.(header := s.box.header + [b]));
      if s.box.required == 8 {
        BeginBoxKeeps(s1.(box := s1.box.(kind := ReadBe32(s1.box.header, 4))), ReadBe32(s1.box.header, 0), 8);
      } else {
        BeginBoxKeeps(s1, ReadBe64(s1.box.header, 8), 16);
      }
    }
  }

  datatype Processed = Processed(core: Core, consumed: nat, segment: Option<Segment>)

  /** `process_bytes`: bytes are read until a segment completes or they run out. */
  function ProcessedBytes(s: Core, data: bytes): (r: Result<Processed>)
    requires ParserOk(s.box)
    ensures r.Ok? ==> ParserOk(r.value.core.box) && r.value.consumed <= |data|
    ensures r.Ok? && r.value.segment.Some? ==> r.value.consumed > 0
    ensures r.Ok? && r.value.segment.None? ==> r.value.consumed == |data|
    decreases |data|
  {
    if data == [] then Ok(Processed(s, 0, None)) else
    FeedKeepsParser(s, data[0]);
    match FeedByte(s, data[0])
    case Err(e) => Err(e)
    case Ok(p) =>
      if p.segment.Some? then Ok(Processed(p.core, 1, p.segment)) else
      match ProcessedBytes(p.core, data[1..])
      case Err(e) => Err(e)
      case Ok(rest) => Ok(rest.(consumed := rest.consumed + 1))
  }

  /** The reader together with the bytes left over by the last finished segment. */
  datatype Reader = Reader(core: Core, deferred: bytes)

  datatype Step = Step(reader: Reader, segment: Option<Segment>)

  ghost predicate Readable(r: Reader) { ParserOk(r.core.box) }

  /** `try_process_deferred`: one more segment from the queues, or from the bytes left over by an earlier one. */
  function TryDeferred(r: Reader): Result<Step>
    requires ParserOk(r.core.box)
  {
    match TryBuild(r.core)
    case Err(e) => Err(e)
    case Ok(p) =>
      if p.segment.Some? then Ok(Step(r.(core := p.core), p.segment)) else
      if r.deferred == [] then Ok(Step(r, None)) else
      match ProcessedBytes(r.core, r.deferred)
      case Err(e) => Err(e)
      case Ok(done) =>
        if done.segment.Some? then Ok(Step(Reader(done.core, r.deferred[done.consumed..]), done.segment))
        else if done.consumed != |r.deferred| then Err(DeferredNotConsumed)
        else Ok(Step(Reader(done.core, []), None))
  }

  lemma TryBuildKeeps(s: Core)
    ensures TryBuild(s).Ok? ==> TryBuild(s).value.core.box == s.box
    ensures TryBuild(s).Ok? && TryBuild(s).value.segment.Some? ==> |TryBuild(s).value.core.queue.video| < |s.queue.video|
    ensures TryBuild(s).Ok? && TryBuild(s).value.segment.None? ==> TryBuild(s).value.core == s
  {
    hide BuildNext;
    BuildShrinks(s.queue, s.config, s.setup, EnvelopeOf(s));
  }

  lemma BuildShrinks(q: Queue, c: Config, u: Setup, e: Envelope)
    ensures BuildNext(q, c, u, e).Ok? && BuildNext(q, c, u, e).value.Some? ==>
              |BuildNext(q, c, u, e).value.value.queue.video| < |q.video|
  {
    hide ChooseCut, MinStart, Emit;
  }

  /** `push`: at most one segment completes; what follows it waits in `deferred`. */
  function Push(r: Reader, data: bytes): Result<Step>
    requires ParserOk(r.core.box)
  {
    if data == [] then Ok(Step(r, None)) else
    match TryDeferred(r)
    case Err(e) => Err(e)
    case Ok(step) =>
      if step.segment.Some? then Ok(step.(reader := step.reader.(deferred := step.reader.deferred + data))) else
      DeferredKeepsParser(r);
      match ProcessedBytes(step.reader.core, data)
      case Err(e) => Err(e)
      case Ok(done) => Ok(Step(Reader(done.core, step.reader.deferred + data[done.consumed..]), done.segment))
  }

  lemma DeferredKeepsParser(r: Reader)
    requires ParserOk(r.core.box)
    ensures TryDeferred(r).Ok? ==> ParserOk(TryDeferred(r).value.reader.core.box)
    ensures TryDeferred(r).Ok? && TryDeferred(r).value.segment.None? ==> TryDeferred(r).value.reader.deferred == []
  {
    hide TryBuild;
    TryBuildKeeps(r.core);
  }

  lemma PushKeepsParser(r: Reader, data: bytes)
    requires ParserOk(r.core.box)
    ensures Push(r, data).Ok? ==> ParserOk(Push(r, data).value.reader.core.box)
  {
    hide TryDeferred;
    DeferredKeepsParser(r);
  }

  // ----- the caller -----

  /** The segments handed out, and the reader left behind or the error that ended the run. */
  datatype Outcome = Outcome(segments: seq<Segment>, end: Result<Reader>)

  function Fail(e: Error): Outcome { Outcome([], Err(e)) }

  function Idle(r: Reader): Outcome { Outcome([], Ok(r)) }

  /** What is handed out first goes in front. */
  function Before(segments: seq<Segment>, o: Outcome): Outcome { Outcome(segments + o.segments, o.end) }

  function Taken(s: Option<Segment>): seq<Segment> { if s.Some? then [s.value] else [] }

  lemma DeferredShrinks(r: Reader)
    requires ParserOk(r.core.box) && TryDeferred(r).Ok? && TryDeferred(r).value.segment.Some?
    ensures var t := TryDeferred(r).value.reader;
            |t.deferred| < |r.deferred| || (|t.deferred| == |r.deferred| && |t.core.queue.video| < |r.core.queue.video|)
  {
    hide TryBuild;
    TryBuildKeeps(r.core);
  }

  /** Taking segments until the reader has no more. */
  function Drain(r: Reader): Outcome
    requires ParserOk(r.core.box)
    decreases |r.deferred|, |r.core.queue.video|
  {
    match TryDeferred(r)
    case Err(e) => Fail(e)
    case Ok(step) =>
      DeferredKeepsParser(r);
      if step.segment.None? then Idle(step.reader) else
      DeferredShrinks(r);
      Before(Taken(step.segment), Drain(step.reader))
  }

  /** One push, then every segment that is ready. */
  function PushAndDrain(r: Reader, data: bytes): Outcome
    requires ParserOk(r.core.box)
  {
    match Push(r, data)
    case Err(e) => Fail(e)
    case Ok(step) =>
      PushKeepsParser(r, data);
      Before(Taken(step.segment), Drain(step.reader))
  }

  lemma {:induction false} DrainKeepsParser(r: Reader)
    requires ParserOk(r.core.box)
    ensures Drain(r).end.Ok? ==> ParserOk(Drain(r).end.value.core.box)
    decreases |r.deferred|, |r.core.queue.video|
  {
    hide TryDeferred, ParserOk;
    DeferredKeepsParser(r);
    if TryDeferred(r).Ok? && TryDeferred(r).value.segment.Some? {
      DeferredShrinks(r);
      DrainKeepsParser(TryDeferred(r).value.reader);
    }
  }

  lemma PushAndDrainKeepsParser(r: Reader, data: bytes)
    requires ParserOk(r.core.box)
    ensures PushAndDrain(r, data).end.Ok? ==> ParserOk(PushAndDrain(r, data).end.value.core.box)
  {
    hide Push, Drain, ParserOk;
    PushKeepsParser(r, data);
    if Push(r, data).Ok? {
      DrainKeepsParser(Push(r, data).value.reader);
    }
  }

  /** A whole run over a stream cut into `chunks`. */
  function Drive(r: Reader, chunks: seq<bytes>): Outcome
    requires ParserOk(r.core.box)
    decreases |chunks|
  {
    if chunks == [] then Idle(r) else
    var first := PushAndDrain(r, chunks[0]);
    PushAndDrainKeepsParser(r, chunks[0]);
    if first.end.Err? then first else Before(first.segments, Drive(first.end.value, chunks[1..]))
  }

  // ----- the reference: byte by byte -----

  /** Every segment the queues hold, then the rest of the stream one byte at a time. */
  function ByBytes(s: Core, data: bytes, building: bool): Outcome
    requires ParserOk(s.box)
    decreases |data|, building, |s.queue.video|
  {
    if building then
      match TryBuild(s)
      case Err(e) => Fail(e)
      case Ok(p) =>
        TryBuildKeeps(s);
        if p.segment.None? then ByBytes(s, data, false)
        else Before(Taken(p.segment), ByBytes(p.core, data, true))
    else if data == [] then Idle(Reader(s, []))
    else
      FeedKeepsParser(s, data[0]);
      match FeedByte(s, data[0])
      case Err(e) => Fail(e)
      case Ok(p) => Before(Taken(p.segment), ByBytes(p.core, data[1..], p.segment.Some?))
  }

  // ----- draining is building and reading on -----

  lemma BeforeTwice(a: seq<Segment>, b: seq<Segment>, o: Outcome)
    ensures Before(a, Before(b, o)) == Before(a + b, o)
  {
    assert a + (b + o.segments) == a + b + o.segments;
  }

  lemma BeforeNothing(o: Outcome)
    ensures Before([], o) == o
  {
    assert [] + o.segments == o.segments;
  }

  lemma {:induction false} ProcessedIsByBytes(s: Core, data: bytes)
    requires ParserOk(s.box)
    ensures match ProcessedBytes(s, data)
            case Err(e) => ByBytes(s, data, false) == Fail(e)
            case Ok(r) =>
              if r.segment.None? then ByBytes(s, data, false) == Idle(Reader(r.core, []))
              else ByBytes(s, data, false) == Before(Taken(r.segment), ByBytes(r.core, data[r.consumed..], true))
    decreases |data|
  {
    hide FeedByte, TryBuild, ParserOk;
    if data != [] {
      FeedKeepsParser(s, data[0]);
      if FeedByte(s, data[0]).Ok? {
        var p := FeedByte(s, data[0]).value;
        if p.segment.None? {
          ProcessedIsByBytes(p.core, data[1..]);
          BeforeNothing(ByBytes(p.core, data[1..], false));
          if ProcessedBytes(p.core, data[1..]).Ok? {
            var r := ProcessedBytes(p.core, data[1..]).value;
            assert data[1..][r.consumed..] == data[r.consumed + 1..];
          }
        }
      }
    }
  }

  lemma {:induction false} DrainIsByBytes(r: Reader)
    requires ParserOk(r.core.box)
    ensures Drain(r) == ByBytes(r.core, r.deferred, true)
    decreases |r.deferred|, |r.core.queue.video|
  {
    hide TryBuild, ParserOk, FeedByte;
    TryBuildKeeps(r.core);
    DeferredKeepsParser(r);
    if TryDeferred(r).Ok? && TryDeferred(r).value.segment.Some? {
      DeferredShrinks(r);
      DrainIsByBytes(TryDeferred(r).value.reader);
    }
    if TryBuild(r.core).Ok? && TryBuild(r.core).value.segment.None? {
      ProcessedIsByBytes(r.core, r.deferred);
    }
  }

  // ----- a push starts with nothing to build -----

  /** No segment is due, and nothing is queued before the initialization is known. */
  ghost predicate Settled(s: Core) {
    && ChooseCut(s.queue, s.config, s.setup) == Ok(NoCut)
    && (!s.setup.initDone ==> s.queue.video == [])
  }

  /** A fragment or its payload is only ever read after the initialization. */
  ghost predicate KindKnown(s: Core) {
    |s.box.header| == s.box.required && s.box.kind in {MOOF, MDAT} ==> s.setup.initDone
  }

  /** The last queued audio sample has a known duration, so a later fragment cannot lengthen or shorten it. */
  predicate AudioExact(s: Core) {
    s.queue.audio == [] || !s.queue.audio[|s.queue.audio| - 1].inferred
  }

  /**
   * A queued audio fragment waits for its payload: until its `mdat` only boxes between the two may come, and a
   * segment may be due.
   */
  ghost predicate Waiting(s: Core) {
    && s.setup.initDone && s.source.pending.Some? && s.source.pending.value.trackId != s.setup.video.id
    && (|s.box.header| == s.box.required ==>
          s.box.kind in {SIDX, EMSG, FREE, PRFT, MDAT} && s.box.target in {NoTarget, PayloadTarget, PrefixTarget})
  }

  /** Only resolving the duration of the last queued audio sample can make a segment due between two boxes. */
  ghost predicate StaysSettled(s: Core, p: Progress) {
    && (p.segment.None? ==> Settled(p.core) || (!AudioExact(s) && Waiting(p.core)))
    && (p.segment.Some? ==> p.core.setup.initDone)
  }

  /** What the decision to build looks at. */
  ghost predicate SameQueues(a: Queue, b: Queue) {
    a.video == b.video && a.audio == b.audio && a.completed == b.completed && a.lastVideoEnd == b.lastVideoEnd
  }

  lemma NoVideoNoCut(q: Queue, c: Config, u: Setup)
    requires q.video == []
    ensures ChooseCut(q, c, u) == Ok(NoCut)
  {}

  lemma TryBuildFollowsCut(s: Core)
    ensures TryBuild(s).Ok? && TryBuild(s).value.segment.None? <==> ChooseCut(s.queue, s.config, s.setup) == Ok(NoCut)
  {
    hide ChooseCut, Build;
  }

  lemma BeginTargetKeepsQueues(s: Core, target: Target)
    ensures var r := BeginTarget(s, target);
            SameQueues(r.queue, s.queue) && r.setup.(init := []) == s.setup.(init := []) && r.config == s.config
            && r.box == s.box.(target := target)
  {}

  /** Only the queues and the tracks decide whether a reader is settled. */
  lemma SettledFollows(s: Core, r: Core)
    requires Settled(s) && SameQueues(s.queue, r.queue) && r.config == s.config
    requires r.setup.(init := []) == s.setup.(init := [])
    ensures Settled(r)
  {
    hide SelectVideoCount, Mp4Audio.CutQueue;
  }

  lemma BeginBoxStaysSettled(s: Core, size: u64, headerSize: nat)
    requires Settled(s)
    ensures match BeginBox(s, size, headerSize)
            case Err(_) => true
            case Ok(r) => Settled(r) && r.queue.audio == s.queue.audio && r.box.kind == s.box.kind
                          && (s.box.kind in {MOOF, MDAT} ==> r.setup.initDone)
  {
    hide BeginTarget, BeginMedia, ChooseCut, Mp4Parse.ParseInitTracks;
    var kind := s.box.kind;
    var begun := if !s.setup.initDone && (kind == STYP || kind == MOOF) then CompleteInit(s.setup) else Ok(s.setup);
    if BeginBox(s, size, headerSize).Ok? {
      var setup := begun.value;
      var s1 := s.(box := s.box.(remaining := size - headerSize, target := NoTarget), setup := setup);
      if s.queue.video == [] {
        NoVideoNoCut(s.queue, s.config, setup);
      }
      if setup.initDone {
        var (source, target) := BeginMedia(s.source, kind, size, headerSize).value;
        BeginTargetKeepsQueues(s1.(source := source), target);
        SettledFollows(s1, BeginBox(s, size, headerSize).value);
      } else {
        BeginTargetKeepsQueues(s1, InitTarget);
        SettledFollows(s1, BeginBox(s, size, headerSize).value);
      }
    }
  }

  // ----- resolving the last video fragment changes no decision -----

  /** The duration of the last fragment is never looked at. */
  lemma {:induction false} SelectIgnoresLast(
    a: seq<Fragment>, b: seq<Fragment>, index: nat, duration: u64, selected: nat, early: bool, target: u64)
    requires |a| == |b| && |a| > 0 && a[..|a| - 1] == b[..|a| - 1]
    requires a[|a| - 1].startsWithSync == b[|a| - 1].startsWithSync
    ensures SelectFrom(a, index, duration, selected, early, target)
         == SelectFrom(b, index, duration, selected, early, target)
    decreases |a| - index
  {
    if index + 1 < |a| {
      assert a[index] == a[..|a| - 1][index] == b[index];
      assert a[index + 1].startsWithSync == b[index + 1].startsWithSync by {
        if index + 1 < |a| - 1 { assert a[index + 1] == a[..|a| - 1][index + 1] == b[index + 1]; }
      }
      var total := Wrap64(duration as int + a[index].duration as int);
      SelectIgnoresLast(a, b, index + 1, total, selected, early, target);
      SelectIgnoresLast(a, b, index + 1, total, index + 1, early, target);
    }
  }

  /** `b` differs from `a` in the durations of its last fragment at most. */
  ghost predicate LastResolved(a: seq<Fragment>, b: seq<Fragment>) {
    a == b || (|a| == |b| && |a| > 0 && a[..|a| - 1] == b[..|a| - 1]
               && a[|a| - 1].startsWithSync == b[|a| - 1].startsWithSync)
  }

  lemma ResolveChangesLast(queue: seq<Fragment>, f: Fragment)
    ensures ResolveInferred(queue, f).Ok? ==> LastResolved(queue, ResolveInferred(queue, f).value.0)
    ensures queue == [] || !queue[|queue| - 1].inferred ==> ResolveInferred(queue, f) == Ok((queue, 0))
  {
    hide ClearInferred, LastInferred, WithLastDuration;
  }

  lemma ResolvedVideoStaysSettled(q: Queue, r: Queue, c: Config, u: Setup)
    requires ChooseCut(q, c, u) == Ok(NoCut)
    requires LastResolved(q.video, r.video) && r == q.(video := r.video)
    ensures ChooseCut(r, c, u) == Ok(NoCut)
  {
    hide Mp4Audio.CutQueue, SelectFrom;
    if q.video != r.video {
      var early := AheadOfSchedule(q.completed, c.seconds, c.diff, u.video.timescale, q.lastVideoEnd);
      var units := ToUnits(c.seconds, u.video.timescale);
      if units.Ok? {
        SelectIgnoresLast(q.video, r.video, 0, 0, 0, early, units.value);
        SelectedIsBoundary(q.video, 0, 0, 0, early, units.value);
        var v := SelectFrom(q.video, 0, 0, 0, early, units.value);
        if v > 0 {
          assert q.video[v - 1] == q.video[..|q.video| - 1][v - 1] == r.video[v - 1];
        }
        assert q.video[0].startsWithSync == r.video[0].startsWithSync by {
          if |q.video| > 1 { assert q.video[0] == q.video[..|q.video| - 1][0] == r.video[0]; }
        }
      }
    }
  }

  // ----- every byte without a segment leaves nothing to build -----

  lemma CompleteMoofStaysSettled(s: Core)
    requires Settled(s) && s.setup.initDone
    ensures CompleteMoof(s).Ok? ==>
              Settled(CompleteMoof(s).value) || (!AudioExact(s) && Waiting(CompleteMoof(s).value.(box := NO_BOX)))
  {
    hide ChooseCut, MoofFragment, ResolveInferred;
    if CompleteMoof(s).Ok? {
      var f := MoofFragment(s).value;
      ResolveChangesLast(s.queue.video, f);
      ResolveChangesLast(s.queue.audio, f);
      if f.trackId == s.setup.video.id || AudioExact(s) {
        ResolvedVideoStaysSettled(s.queue, CompleteMoof(s).value.queue, s.config, s.setup);
      }
    }
  }

  lemma FinishBoxStaysSettled(s: Core)
    requires Settled(s)
    requires s.box.kind in {MOOF, MDAT} ==> s.setup.initDone
    ensures FinishBox(s).Ok? ==> StaysSettled(s, FinishBox(s).value)
  {
    hide ChooseCut, CompleteMoof, CompleteMdat, TryBuild, CompleteStyp;
    if s.box.kind == MOOF {
      CompleteMoofStaysSettled(s);
    } else if s.box.kind == MDAT {
      if CompleteMdat(s).Ok? {
        CompleteMdatKeepsSetup(s);
        TryBuildFollowsCut(CompleteMdat(s).value);
        TryBuildKeeps(CompleteMdat(s).value);
        TryBuildKeepsSetup(CompleteMdat(s).value);
      }
    } else if CompleteBox(s).Ok? {
      OtherBoxKeeps(s);
      SettledFollowsMoov(s, CompleteBox(s).value.core);
    }
  }

  lemma FinishBoxForgets(s: Core)
    ensures FinishBox(s).Ok? ==> FinishBox(s).value.core.box == NO_BOX
  {
    hide CompleteBox;
  }

  lemma TryBuildKeepsSetup(s: Core)
    ensures TryBuild(s).Ok? ==> TryBuild(s).value.core.setup == s.setup
  {
    hide BuildNext;
  }

  lemma CompleteMdatKeepsSetup(s: Core)
    ensures CompleteMdat(s).Ok? ==> CompleteMdat(s).value.setup == s.setup
  {
    hide AttachPayload, Enqueue;
  }

  lemma OtherBoxKeeps(s: Core)
    requires s.box.kind !in {MOOF, MDAT} && CompleteBox(s).Ok?
    ensures var r := CompleteBox(s).value.core;
            r.queue == s.queue && r.config == s.config && r.setup.(moovCompleted := true) == s.setup.(moovCompleted := true)
  {
    hide CompleteStyp;
  }

  lemma SettledFollowsMoov(s: Core, r: Core)
    requires Settled(s) && r.queue == s.queue && r.config == s.config
    requires r.setup.(moovCompleted := true) == s.setup.(moovCompleted := true)
    ensures Settled(r)
  {
    hide SelectVideoCount, Mp4Audio.CutQueue;
  }

  /** Between two segments a byte leaves nothing to build, unless it resolves the duration of queued audio. */
  lemma FeedStaysSettled(s: Core, b: byte)
    requires ParserOk(s.box) && Settled(s) && KindKnown(s)
    ensures FeedByte(s, b).Ok? ==> StaysSettled(s, FeedByte(s, b).value) && KindKnown(FeedByte(s, b).value.core)
  {
    hide ChooseCut, BeginBox, FinishBox, ReadBe32, ReadBe64;
    if |s.box.header| < s.box.required {
      var s1 := s.(box := s.box.(header := s.box.header + [b]));
      if |s1.box.header| == s1.box.required {
        HeaderStaysSettled(s1);
      }
    } else {
      var s1 := WriteBoxData(s, [b]).(box := s.box.(remaining := s.box.remaining - 1));
      WriteStaysSettled(s, [b], s.box.remaining - 1);
      FinishBoxStaysSettled(s1);
      FinishBoxForgets(s1);
    }
  }

  lemma WriteStaysSettled(s: Core, data: bytes, remaining: u64)
    requires Settled(s)
    ensures var r := WriteBoxData(s, data).(box := s.box.(remaining := remaining));
            Settled(r) && r.queue.audio == s.queue.audio && r.setup.initDone == s.setup.initDone
  {
    hide ChooseCut;
    SettledFollows(s, WriteBoxData(s, data).(box := s.box.(remaining := remaining)));
  }

  lemma HeaderStaysSettled(s: Core)
    requires s.box.required in {8, 16} && |s.box.header| == s.box.required
    requires Settled(s)
    ensures HeaderComplete(s).Ok? ==> StaysSettled(s, HeaderComplete(s).value) && KindKnown(HeaderComplete(s).value.core)
  {
    hide ChooseCut, BeginBox, FinishBox, ReadBe32, ReadBe64;
    var s1 := if s.box.required == 8 then s.(box := s.box.(kind := ReadBe32(s.box.header, 4))) else s;
    var size: u64 := if s.box.required == 8 then ReadBe32(s.box.header, 0) else ReadBe64(s.box.header, 8);
    BeginBoxStaysSettled(s1, size, s.box.required);
    BeginBoxKeeps(s1, size, s.box.required);
    if BeginBox(s1, size, s.box.required).Ok? {
      FinishBoxStaysSettled(BeginBox(s1, size, s.box.required).value);
      FinishBoxForgets(BeginBox(s1, size, s.box.required).value);
    }
  }

  // ----- reading on -----

  lemma NowSettled(s: Core)
    requires s.setup.initDone && TryBuild(s).Ok? && TryBuild(s).value.segment.None?
    ensures Settled(s)
  {
    hide ChooseCut, TryBuild;
    TryBuildFollowsCut(s);
  }

  /** Reading on from where a part of the stream ended. */
  lemma {:induction false} ByBytesConcat(s: Core, a: bytes, b: bytes, building: bool)
    requires ParserOk(s.box)
    ensures var r := ByBytes(s, a, building);
            && (r.end.Ok? ==> r.end.value.deferred == [] && ParserOk(r.end.value.core.box))
            && ByBytes(s, a + b, building)
               == if r.end.Err? then r else Before(r.segments, ByBytes(r.end.value.core, b, false))
    decreases |a|, building, |s.queue.video|
  {
    hide TryBuild, FeedByte, ParserOk;
    if building {
      TryBuildKeeps(s);
      if TryBuild(s).Ok? {
        var p := TryBuild(s).value;
        ByBytesConcat(p.core, a, b, p.segment.Some?);
        var r := ByBytes(p.core, a, p.segment.Some?);
        if r.end.Ok? {
          BeforeTwice(Taken(p.segment), r.segments, ByBytes(r.end.value.core, b, false));
        }
      }
    } else if a == [] {
      assert a + b == b;
      BeforeNothing(ByBytes(s, b, false));
    } else {
      assert (a + b)[1..] == a[1..] + b && (a + b)[0] == a[0];
      FeedKeepsParser(s, a[0]);
      if FeedByte(s, a[0]).Ok? {
        var p := FeedByte(s, a[0]).value;
        ByBytesConcat(p.core, a[1..], b, p.segment.Some?);
        var r := ByBytes(p.core, a[1..], p.segment.Some?);
        if r.end.Ok? {
          BeforeTwice(Taken(p.segment), r.segments, ByBytes(r.end.value.core, b, false));
        }
      }
    }
  }

  lemma SettledBuildsNothing(s: Core)
    requires Settled(s)
    ensures TryBuild(s) == Ok(Progress(s, None))
  {
    hide ChooseCut;
  }

  lemma NoBytes(s: Core)
    requires ParserOk(s.box)
    ensures ByBytes(s, [], false) == Idle(Reader(s, []))
  {}

  lemma OneChunk(data: bytes)
    ensures Flatten([data]) == data
  {
    assert Flatten([data]) == data + Flatten([data][1..]) == data + [];
  }
}
