/**
 * The reader as the object the pipeline holds: fields updated in place, headers and bodies copied slice by slice.
 * Every method is proved to do what the byte-by-byte state machine does, and to keep the reader whole.
 */
module Mp4Class {
  import opened Bytes
  import opened Mp4Types
  import opened Mp4Parse
  import opened Mp4Write
  import opened Mp4Select
  import opened Mp4Split
  import opened Mp4Audio
  import opened Mp4Build
  import opened Mp4Reader
  import opened Mp4Runs
  import opened Mp4Keeps
  import opened Mp4Steps

  // ----- whole slices are many bytes -----

  /** What follows a step that consumed `n` bytes and left `rest`. */
  function AfterStep(n: nat, step: Result<Progress>, rest: bytes): Result<Processed>
    requires step.Ok? ==> ParserOk(step.value.core.box)
  {
    match step
    case Err(e) => Err(e)
    case Ok(p) =>
      if p.segment.Some? then Ok(Processed(p.core, n, p.segment)) else
      match ProcessedBytes(p.core, rest)
      case Err(e) => Err(e)
      case Ok(r) => Ok(r.(consumed := r.consumed + n))
  }

  /** The step taken when `h` completes or extends the header. */
  function HeaderStep(s: Core, h: bytes): (r: Result<Progress>)
    requires ParserOk(s.box) && |s.box.header| < s.box.required && |s.box.header| + |h| <= s.box.required
  {
    var s1 := s.(box := s.box.(header := s.box.header + h));
    if |s1.box.header| < s1.box.required then Ok(Progress(s1, None)) else HeaderComplete(s1)
  }

  /** The step taken when `d` is the next part of the body. */
  function BodyStep(s: Core, d: bytes): Result<Progress>
    requires ParserOk(s.box) && |s.box.header| == s.box.required && |d| <= s.box.remaining
  {
    var s1 := WriteBoxData(s, d).(box := s.box.(remaining := s.box.remaining - |d|));
    if s1.box.remaining == 0 then FinishBox(s1) else Ok(Progress(s1, None))
  }

  lemma HeaderStepParser(s: Core, h: bytes)
    requires ParserOk(s.box) && |s.box.header| < s.box.required && |s.box.header| + |h| <= s.box.required && h != []
    ensures HeaderStep(s, h).Ok? ==> ParserOk(HeaderStep(s, h).value.core.box)
    ensures HeaderStep(s, h).Ok? && HeaderStep(s, h).value.segment.None? && |h| < s.box.required - |s.box.header|
            ==> HeaderStep(s, h).value.core == s.(box := s.box.(header := s.box.header + h))
  {
    hide BeginBox, FinishBox, ReadBe32, ReadBe64, HeaderComplete;
    var n := |h| - 1;
    var s0 := s.(box := s.box.(header := s.box.header + h[..n]));
    assert h == h[..n] + [h[n]];
    assert s0.box.header + [h[n]] == s.box.header + h;
    if |s.box.header| + |h| == s.box.required {
      FeedKeepsParser(s0, h[n]);
      assert FeedByte(s0, h[n]) == HeaderComplete(s.(box := s.box.(header := s.box.header + h)));
    }
  }

  lemma {:induction false} BulkHeader(s: Core, h: bytes, rest: bytes)
    requires ParserOk(s.box) && |s.box.header| < s.box.required && |s.box.header| + |h| <= s.box.required && h != []
    ensures HeaderStep(s, h).Ok? ==> ParserOk(HeaderStep(s, h).value.core.box)
    ensures ProcessedBytes(s, h + rest) == AfterStep(|h|, HeaderStep(s, h), rest)
    decreases |h|
  {
    hide HeaderComplete;
    HeaderStepParser(s, h);
    assert (h + rest)[0] == h[0] && (h + rest)[1..] == h[1..] + rest;
    if |h| == 1 {
      assert h == [h[0]] && h[1..] + rest == rest;
      assert FeedByte(s, h[0]) == HeaderStep(s, h);
    } else {
      var s1 := s.(box := s.box.(header := s.box.header + [h[0]]));
      assert s.box.header + [h[0]] + h[1..] == s.box.header + h;
      BulkHeader(s1, h[1..], rest);
      assert HeaderStep(s1, h[1..]) == HeaderStep(s, h);
    }
  }

  lemma WriteTwice(s: Core, a: bytes, b: bytes)
    ensures WriteBoxData(WriteBoxData(s, a), b) == WriteBoxData(s, a + b)
  {
    assert s.setup.init + a + b == s.setup.init + (a + b);
    assert s.source.moof + a + b == s.source.moof + (a + b);
    assert s.source.styp + a + b == s.source.styp + (a + b);
    assert s.source.prefix + a + b == s.source.prefix + (a + b);
    assert s.queue.payload + a + b == s.queue.payload + (a + b);
    assert s.queue.log.open + a + b == s.queue.log.open + (a + b);
  }

  lemma BodyStepParser(s: Core, d: bytes)
    requires ParserOk(s.box) && |s.box.header| == s.box.required && 0 < |d| <= s.box.remaining
    ensures BodyStep(s, d).Ok? ==> ParserOk(BodyStep(s, d).value.core.box)
  {
    hide CompleteBox, WriteSetup, WriteSource, WritePayload;
  }

  lemma {:induction false} BulkBody(s: Core, d: bytes, rest: bytes)
    requires ParserOk(s.box) && |s.box.header| == s.box.required && 0 < |d| <= s.box.remaining
    ensures BodyStep(s, d).Ok? ==> ParserOk(BodyStep(s, d).value.core.box)
    ensures ProcessedBytes(s, d + rest) == AfterStep(|d|, BodyStep(s, d), rest)
    decreases |d|
  {
    hide FinishBox, WriteSetup, WriteSource, WritePayload;
    BodyStepParser(s, d);
    assert (d + rest)[0] == d[0] && (d + rest)[1..] == d[1..] + rest;
    if |d| == 1 {
      assert d == [d[0]] && d[1..] + rest == rest;
      assert FeedByte(s, d[0]) == BodyStep(s, d);
    } else {
      var s1 := WriteBoxData(s, [d[0]]).(box := s.box.(remaining := s.box.remaining - 1));
      assert FeedByte(s, d[0]) == Ok(Progress(s1, None));
      BulkBody(s1, d[1..], rest);
      WriteTwice(s, [d[0]], d[1..]);
      assert [d[0]] + d[1..] == d;
      assert WriteBoxData(s1, d[1..]).(box := s.box) == WriteBoxData(WriteBoxData(s, [d[0]]), d[1..]);
      assert BodyStep(s1, d[1..]) == BodyStep(s, d);
    }
  }

  // ----- loops over the queues -----

  method LeastStart(fs: seq<Fragment>) returns (r: Option<nat>)
    ensures r == MinStart(fs)
  {
    r := None;
    var i := |fs|;
    while i > 0
      invariant 0 <= i <= |fs| && r == MinStart(fs[i..])
    {
      i := i - 1;
      assert fs[i..][1..] == fs[i + 1..];
      if fs[i].payloadLen > 0 && (r.None? || fs[i].payloadStart <= r.value) { r := Some(fs[i].payloadStart); }
    }
    assert fs[0..] == fs;
  }

  method MoveAllDown(fs: seq<Fragment>, shift: nat) returns (r: seq<Fragment>)
    ensures r == Rebase(fs, shift)
  {
    r := [];
    for i := 0 to |fs|
      invariant |r| == i && forall k | 0 <= k < i :: r[k] == MoveDown(fs[k], shift)
    {
      r := r + [if fs[i].payloadLen > 0 then fs[i].(payloadStart := Max(fs[i].payloadStart - shift, 0)) else fs[i]];
    }
  }

  method FindInferred(runs: seq<Run>) returns (r: Option<nat>)
    ensures r == LastInferred(runs)
  {
    var i := |runs|;
    assert runs[..|runs|] == runs;
    while i > 0
      invariant 0 <= i <= |runs| && LastInferred(runs[..i]) == LastInferred(runs)
    {
      assert runs[..i][..i - 1] == runs[..i - 1];
      if runs[i - 1].inferred { return Some(i - 1); }
      i := i - 1;
    }
    return None;
  }

  method ClearMarks(runs: seq<Run>) returns (r: seq<Run>)
    ensures r == ClearInferred(runs)
  {
    r := [];
    assert runs[0..] == runs;
    assert [] + ClearInferred(runs) == ClearInferred(runs);
    for i := 0 to |runs|
      invariant r + ClearInferred(runs[i..]) == ClearInferred(runs)
    {
      assert runs[i..][1..] == runs[i + 1..];
      assert r + ([runs[i].(inferred := false)] + ClearInferred(runs[i + 1..]))
          == r + [runs[i].(inferred := false)] + ClearInferred(runs[i + 1..]);
      r := r + [runs[i].(inferred := false)];
    }
    assert r + [] == r;
  }

  /** `resolve_previous_inferred_duration` on one queue. */
  method ResolveLast(queue: seq<Fragment>, current: Fragment) returns (r: Result<(seq<Fragment>, u32)>)
    ensures r == ResolveInferred(queue, current)
  {
    hide LastInferred, ClearInferred;
    if queue == [] { return Ok((queue, 0)); }
    var previous := queue[|queue| - 1];
    if !previous.inferred { return Ok((queue, 0)); }
    var index := FindInferred(previous.runs);
    if index.None? || index.value >= |previous.runs| || previous.runs[index.value].samples == [] {
      return Err(InferredMarkerMissing);
    }
    var run := previous.runs[index.value];
    var last := |run.samples| - 1;
    var was: int := run.samples[last].duration;
    if previous.duration < was { return Err(InvalidInferredDuration); }
    var start: int := Wrap64(previous.decodeTime as int + previous.duration as int - was);
    if current.decodeTime < start { return Err(DecodeTimeBackwards); }
    var exact: int := current.decodeTime as int - start;
    if exact > U32_MAX { return Err(InferredTooLong); }
    run := run.(samples := run.samples[last := run.samples[last].(duration := exact)],
                duration := Max(run.duration - was, 0) + exact);
    var runs := ClearMarks(previous.runs[index.value := run]);
    previous := previous.(runs := runs, duration := Wrap64(previous.duration as int - was + exact), inferred := false);
    return Ok((queue[..|queue| - 1] + [previous], exact));
  }

  // ----- the object -----

  class BoxReader {
    const config: Config

    var setup: Setup
    var source: Source
    var queue: Queue
    var hints: Hints
    var deferred: bytes
    var newSegment: Option<Segment>

    var boxHeader: array<byte>
    var boxHeaderLength: nat
    var boxHeaderRequired: nat
    var currentBoxType: u32
    var currentBoxRemaining: u64
    var currentTarget: Target

    ghost predicate Valid()
      reads this
    {
      boxHeader.Length == 16 && boxHeaderLength <= 16
    }

    ghost function BoxView(): BoxState
      reads this, boxHeader
      requires Valid()
    {
      BoxState(boxHeader[..boxHeaderLength], boxHeaderRequired, currentBoxType, currentBoxRemaining, currentTarget)
    }

    /** The state machine's reader this object stands for. */
    ghost function View(): Core
      reads this, boxHeader
      requires Valid()
    {
      Core(config, BoxView(), setup, source, hints, queue)
    }

    /** Between two calls: a readable box state, and nothing lost so far. */
    ghost predicate Whole()
      reads this, boxHeader
    {
      Valid() && ParserOk(BoxView()) && Keeps(View())
    }

    constructor (config: Config)
      ensures fresh(boxHeader) && Whole()
      ensures View() == NewCore(config) && deferred == [] && newSegment == None
    {
      this.config := config;
      setup, source, hints, queue := NewCore(config).setup, NewCore(config).source, NewCore(config).hints, NewCore(config).queue;
      deferred, newSegment := [], None;
      boxHeader := new byte[16](_ => 0);
      boxHeaderLength, boxHeaderRequired, currentBoxType, currentBoxRemaining, currentTarget := 0, 8, 0, 0, NoTarget;
      new;
      NewReaderKeeps(config);
    }

    /** The segment the last call completed, once. */
    method TakeSegment() returns (segment: Option<Segment>)
      modifies this`newSegment
      ensures segment == old(newSegment) && newSegment == None
    {
      segment, newSegment := newSegment, None;
    }

    method WriteCurrentBoxData(data: bytes)
      requires Valid()
      modifies this`setup, this`source, this`queue
      ensures View() == WriteBoxData(old(View()), data)
    {
      match currentTarget {
        case InitTarget => setup := setup.(init := setup.init + data);
        case MoofTarget => source := source.(moof := source.moof + data);
        case PayloadTarget =>
          queue := queue.(payload := queue.payload + data, log := queue.log.(open := queue.log.open + data));
        case StypTarget => source := source.(styp := source.styp + data);
        case PrefixTarget => source := source.(prefix := source.prefix + data);
        case NoTarget =>
      }
    }

    method CompleteInitialization() returns (error: Option<Error>)
      modifies this`setup
      ensures match CompleteInit(old(setup))
              case Err(e) => error == Some(e)
              case Ok(u) => error == None && setup == u
    {
      if !setup.moovCompleted || setup.init == [] { return Some(IncompleteInit); }
      var tracks := ParseInitTracks(setup.init);
      if tracks.Err? { return Some(tracks.error); }
      setup := setup.(video := tracks.value.0, audio := tracks.value.1, initDone := true, newInit := Some(setup.init));
      return None;
    }

    /** The next box goes to `target`; of an `mdat` only the body is kept. */
    method Aim(target: Target)
      requires Valid()
      modifies this`setup, this`source, this`queue, this`currentTarget
      ensures View() == BeginTarget(old(View()), target)
    {
      currentTarget := target;
      if target.PayloadTarget? {
        queue := queue.(payloadStart := |queue.payload|, log := queue.log.(open := []));
      } else {
        WriteCurrentBoxData(boxHeader[..boxHeaderLength]);
      }
    }

    method BeginMediaBox(size: u64, headerSize: nat) returns (error: Option<Error>)
      requires Valid()
      modifies this`setup, this`source, this`queue, this`currentTarget
      ensures match BeginMedia(old(source), currentBoxType, size, headerSize)
              case Err(e) => error == Some(e)
              case Ok((begun, target)) => error == None && View() == BeginTarget(old(View()).(source := begun), target)
    {
      hide BeginTarget;
      var kind := currentBoxType;
      if source.finalMoovDone { return Some(BoxAfterFinalMoov); }
      if source.mfraDone && kind != MOOV { return Some(OnlyMoovAfterMfra); }
      var target := NoTarget;
      if kind == MOOF {
        if source.pending.Some? { return Some(MoofBeforeMdat); }
        source, target := source.(moof := [], fromMoof := 0), MoofTarget;
      } else if kind == MDAT {
        if source.pending.None? { return Some(MdatWithoutMoof); }
        source, target := source.(fromMoof := source.fromMoof + headerSize), PayloadTarget;
      } else if kind == SIDX {
        source := CountBetween(source, size);
      } else if kind == STYP {
        if source.pending.Some? { return Some(StypInsideFragment); }
        source, target := source.(styp := []), StypTarget;
      } else if kind == EMSG || kind == FREE || kind == PRFT {
        source, target := CountBetween(source, size).(prefixActive := true), PrefixTarget;
      } else if kind == MFRA {
        if source.pending.Some? { return Some(MfraInsideFragment); }
        if source.mfraDone { return Some(DuplicateMfra); }
      } else if kind == MOOV {
        if !source.mfraDone { return Some(UnexpectedMoov); }
        if source.finalMoovDone { return Some(DuplicateMoov); }
        if source.pending.Some? { return Some(MoovInsideFragment); }
      } else {
        return Some(UnsupportedBox);
      }
      Aim(target);
      return None;
    }

    method BeginBoxOf(size: u64, headerSize: nat) returns (error: Option<Error>)
      requires Valid()
      modifies this`setup, this`source, this`queue, this`currentTarget, this`currentBoxRemaining
      ensures match BeginBox(old(View()), size, headerSize)
              case Err(e) => error == Some(e)
              case Ok(s) => error == None && View() == s
    {
      hide BeginMedia, BeginTarget, CompleteInit;
      if size < headerSize { return Some(InvalidBoxSize); }
      if (currentBoxType == MOOF || currentBoxType == MDAT) && size > I32_MAX { return Some(BoxTooLarge); }
      currentBoxRemaining, currentTarget := size - headerSize, NoTarget;
      if !setup.initDone && (currentBoxType == STYP || currentBoxType == MOOF) {
        var failed := CompleteInitialization();
        if failed.Some? { return failed; }
      }
      if !setup.initDone {
        if currentBoxType == MDAT { return Some(MdatBeforeInit); }
        if currentBoxType == MFRA { return Some(MfraBeforeInit); }
        Aim(InitTarget);
        return None;
      }
      error := BeginMediaBox(size, headerSize);
    }

    // ----- completing boxes -----

    method ResolvePreviousDuration(f: Fragment) returns (error: Option<Error>)
      modifies this`queue, this`hints
      ensures match ResolvePrevious(old(queue), old(hints), setup, f)
              case Err(e) => error == Some(e)
              case Ok((q, h)) => error == None && queue == q && hints == h
    {
      hide ResolveInferred, Remember;
      if f.trackId == setup.video.id {
        var resolved := ResolveLast(queue.video, f);
        if resolved.Err? { return Some(resolved.error); }
        queue := queue.(video := resolved.value.0);
        hints := Remember(hints, setup, f.trackId, resolved.value.1, f.timescale);
      } else if f.trackId == setup.audio.id {
        var resolved := ResolveLast(queue.audio, f);
        if resolved.Err? { return Some(resolved.error); }
        queue := queue.(audio := resolved.value.0);
        hints := Remember(hints, setup, f.trackId, resolved.value.1, f.timescale);
      }
      return None;
    }

    method CompleteMoofBox() returns (error: Option<Error>)
      requires Valid()
      modifies this`queue, this`hints, this`source
      ensures match CompleteMoof(old(View()))
              case Err(e) => error == Some(e)
              case Ok(s) => error == None && View() == s
    {
      hide ParsedMoof, ResolvePrevious, Remember, LastNonZeroDuration, HintFor;
      var parsed := ParseMoof(source.moof, setup.video, setup.audio,
                              HintFor(hints.video, hints.videoScale, setup.video),
                              HintFor(hints.audio, hints.audioScale, setup.audio));
      if parsed.Err? { return Some(parsed.error); }
      var f := parsed.value;
      var failed := ResolvePreviousDuration(f);
      if failed.Some? { return failed; }
      var last := if f.inferred then 0 else LastNonZeroDuration(RunSamples(f.runs));
      hints := Remember(hints, setup, f.trackId, last, f.timescale);
      source := source.(pending := Some(f), fromMoof := |source.moof|);
      return None;
    }

    method CompleteMdatBox() returns (error: Option<Error>)
      requires Valid()
      modifies this`queue, this`source
      ensures match CompleteMdat(old(View()))
              case Err(e) => error == Some(e)
              case Ok(s) => error == None && View() == s
    {
      hide AttachPayload, Accept;
      if source.pending.None? { return Some(MdatWithoutMoof); }
      if queue.payloadStart > |queue.payload| { return Some(PayloadOutOfRange); }
      var attached := PlacePayload(source.pending.value, queue.payloadStart, |queue.payload| - queue.payloadStart,
                                   source.fromMoof);
      if attached.Err? { return Some(attached.error); }
      var f := attached.value;
      if f.trackId == setup.video.id {
        queue := queue.(video := queue.video + [f], payloadStart := 0,
                        log := queue.log.(video := Accept(queue.log.video, f, queue.log.open), open := []));
      } else if setup.audio.id != 0 && f.trackId == setup.audio.id {
        queue := queue.(audio := queue.audio + [f], payloadStart := 0,
                        log := queue.log.(audio := Accept(queue.log.audio, f, queue.log.open), open := []));
      } else {
        return Some(UnsupportedTrack);
      }
      source := source.(pending := None, fromMoof := 0, moof := []);
      return None;
    }

    // ----- building -----

    method ReclaimPayloads()
      modifies this`queue
      ensures queue == Reclaim(old(queue))
    {
      hide MinStart, Rebase;
      if queue.payload == [] { return; }
      var least := LeastStart(queue.video + queue.audio);
      if least.None? {
        queue := queue.(payload := [], payloadStart := 0);
        return;
      }
      var shift := least.value;
      if shift == 0 { return; }
      var video := MoveAllDown(queue.video, shift);
      var audio := MoveAllDown(queue.audio, shift);
      queue := queue.(payload := queue.payload[Min(shift, |queue.payload|)..], video := video, audio := audio,
                      payloadStart := Max(queue.payloadStart - shift, 0));
    }

    /** One segment from the first fragments of each queue. */
    method BuildSegment(v: nat, a: nat) returns (error: Option<Error>)
      requires Valid() && 0 < v <= |queue.video| && a <= |queue.audio|
      modifies this`queue, this`source, this`newSegment
      ensures match Build(old(queue), EnvelopeOf(old(View())), v, a)
              case Err(e) => error == Some(e)
              case Ok(built) =>
                && error == None && queue == built.queue && newSegment == Some(built.segment)
                && source == old(source).(prefix := [], prefixActive := false)
    {
      hide Reclaim, Drop, SegmentOf;
      var envelope := Envelope(source.firstStyp, if source.prefixActive then source.prefix else [], queue.sequence,
                               config.offsetSeconds);
      var segment := EmitSegment(envelope, queue.video[..v], queue.audio[..a], queue.payload);
      if segment.Err? { return Some(segment.error); }
      newSegment := Some(segment.value);
      queue := Drop(queue, v, a);
      source := source.(prefix := [], prefixActive := false);
      ReclaimPayloads();
      return None;
    }

    method TryBuildSegment() returns (completed: bool, error: Option<Error>)
      requires Valid() && QueueOk(queue.audio)
      modifies this`queue, this`source, this`newSegment
      ensures match TryBuild(old(View()))
              case Err(e) => error == Some(e)
              case Ok(p) =>
                && error == None && View() == p.core && completed == p.segment.Some?
                && newSegment == (if p.segment.Some? then p.segment else old(newSegment))
    {
      hide Build, CutQueue, SelectVideoCount;
      completed := false;
      var chosen := ChooseVideoCount(queue.video, config.seconds, config.diff, setup.video.timescale,
                                     queue.completed, queue.lastVideoEnd);
      if chosen.Err? { error := Some(chosen.error); return; }
      var v := chosen.value;
      if v == 0 { error := None; return; }
      if v > |queue.video| { error := Some(InvalidFragmentCount); return; }
      var a := 0;
      if setup.audio.id != 0 {
        var cut := CutAudioQueue(queue.audio, setup.video.timescale, EndTime(queue.video[v - 1]));
        if cut.Err? { error := Some(cut.error); return; }
        a := cut.value.1;
        if a == 0 {
          error := None;
          return;
        }
        if a > |cut.value.0| { error := Some(InvalidFragmentCount); return; }
        queue := queue.(audio := cut.value.0);
      }
      error := BuildSegment(v, a);
      completed := error == None;
    }

    // ----- reading -----

    /** What a step reports: its error, or the new state and whether it completed a segment. */
    ghost predicate Shows(step: Result<Progress>, error: Option<Error>, completed: bool, before: Option<Segment>)
      requires Valid()
      reads this, boxHeader
    {
      match step
      case Err(e) => error == Some(e)
      case Ok(p) =>
        && error == None && View() == p.core && completed == p.segment.Some?
        && newSegment == (if completed then p.segment else before)
    }

    method CompleteCurrentBox() returns (completed: bool, error: Option<Error>)
      requires Valid() && Keeps(View()) && boxHeaderLength == boxHeaderRequired
      modifies this`setup, this`source, this`queue, this`hints, this`newSegment
      ensures Shows(CompleteBox(old(View())), error, completed, old(newSegment))
    {
      hide Keeps, CompleteMoof, CompleteMdat, TryBuild;
      completed, error := false, None;
      if currentBoxType == STYP {
        source := CompleteStyp(source);
      } else if currentBoxType == MFRA {
        source := source.(mfraDone := true);
      } else if currentBoxType == MOOV {
        if !setup.initDone {
          setup := setup.(moovCompleted := true);
        } else if !source.mfraDone || source.finalMoovDone {
          error := Some(UnexpectedMoov);
        } else {
          source := source.(finalMoovDone := true);
        }
      } else if currentBoxType == MOOF {
        error := CompleteMoofBox();
      } else if currentBoxType == MDAT {
        AudioStaysOk(View());
        error := CompleteMdatBox();
        if error == None { completed, error := TryBuildSegment(); }
      }
    }

    /** `complete_box` and `reset_box_state`. */
    method FinishCurrentBox() returns (completed: bool, error: Option<Error>)
      requires Valid() && Keeps(View()) && boxHeaderLength == boxHeaderRequired
      modifies this
      ensures boxHeader == old(boxHeader) && deferred == old(deferred) && Valid()
      ensures Shows(FinishBox(old(View())), error, completed, old(newSegment))
    {
      hide Keeps, CompleteBox;
      completed, error := CompleteCurrentBox();
      if error == None {
        boxHeaderLength, boxHeaderRequired := 0, 8;
        currentBoxType, currentBoxRemaining, currentTarget := 0, 0, NoTarget;
      }
    }

    /** The next `part` of the header of a box; with its last byte the box begins. */
    method ReadHeader(part: bytes) returns (completed: bool, error: Option<Error>)
      requires Whole() && part != [] && boxHeaderLength + |part| <= boxHeaderRequired
      modifies this, boxHeader
      ensures boxHeader == old(boxHeader) && deferred == old(deferred) && Valid()
      ensures Shows(HeaderStep(old(View()), part), error, completed, old(newSegment))
    {
      hide BeginBox, FinishBox, ReadBe32, ReadBe64, QueuesOk, QueuesKeep, PendingOk;
      completed, error := false, None;
      forall i | 0 <= i < |part| { boxHeader[boxHeaderLength + i] := part[i]; }
      boxHeaderLength := boxHeaderLength + |part|;
      assert boxHeader[..boxHeaderLength] == old(boxHeader[..boxHeaderLength]) + part;
      if boxHeaderLength < boxHeaderRequired { return; }
      ghost var s := View();
      var size: u64;
      if boxHeaderRequired == 8 {
        size := ReadBe32(boxHeader[..boxHeaderLength], 0);
        if size == 0 { error := Some(ZeroBoxSize); return; }
        currentBoxType := ReadBe32(boxHeader[..boxHeaderLength], 4);
        if size == 1 { boxHeaderRequired := 16; return; }
      } else {
        size := ReadBe64(boxHeader[..boxHeaderLength], 8);
      }
      BeginBoxKeepsReader(View(), size, boxHeaderRequired);
      BeginBoxKeeps(View(), size, boxHeaderRequired);
      error := BeginBoxOf(size, boxHeaderRequired);
      if error == None && currentBoxRemaining == 0 {
        completed, error := FinishCurrentBox();
      }
    }

    /** The next `part` of the body of the current box. */
    method ReadBody(part: bytes) returns (completed: bool, error: Option<Error>)
      requires Whole() && boxHeaderLength == boxHeaderRequired && 0 < |part| <= currentBoxRemaining
      modifies this
      ensures boxHeader == old(boxHeader) && deferred == old(deferred) && Valid()
      ensures Shows(BodyStep(old(View()), part), error, completed, old(newSegment))
    {
      hide FinishBox, Keeps, WriteSetup, WriteSource, WritePayload;
      completed, error := false, None;
      WriteKeeps(View(), part, currentBoxRemaining - |part|);
      WriteCurrentBoxData(part);
      currentBoxRemaining := currentBoxRemaining - |part|;
      if currentBoxRemaining == 0 {
        completed, error := FinishCurrentBox();
      }
    }

    /** `process_bytes`: slices are copied until a segment completes or the bytes run out. */
    method ProcessBytes(data: bytes) returns (consumed: nat, completed: bool, error: Option<Error>)
      requires Whole()
      modifies this, boxHeader
      ensures boxHeader == old(boxHeader) && deferred == old(deferred) && Valid()
      ensures match ProcessedBytes(old(View()), data)
              case Err(e) => error == Some(e)
              case Ok(p) => Whole() && consumed == p.consumed && Shows(Ok(Progress(p.core, p.segment)), error, completed, old(newSegment))
    {
      hide Keeps, HeaderStep, BodyStep, AfterStep, ProcessedBytes;
      LoopStarts(View(), data);
      consumed, completed, error := 0, false, None;
      assert data[0..] == data;
      while consumed < |data|
        invariant consumed <= |data| && Whole() && error == None && !completed
        invariant boxHeader == old(boxHeader) && deferred == old(deferred) && newSegment == old(newSegment)
        invariant AfterStep(consumed, Ok(Progress(View(), None)), data[consumed..]) == ProcessedBytes(old(View()), data)
        decreases |data| - consumed
      {
        ghost var s := View();
        var reading := boxHeaderLength < boxHeaderRequired;
        var count := Min(if reading then boxHeaderRequired - boxHeaderLength else currentBoxRemaining, |data| - consumed);
        var part := data[consumed..consumed + count];
        assert data[consumed..] == part + data[consumed + count..];
        StepKeeps(s, part);
        StepOn(ProcessedBytes(old(View()), data), s, part, consumed, data[consumed + count..]);
        if reading {
          completed, error := ReadHeader(part);
        } else {
          completed, error := ReadBody(part);
        }
        consumed := consumed + count;
        StepDone(ProcessedBytes(old(View()), data), consumed, PartStep(s, part), data[consumed..]);
        if error.Some? || completed { return; }
      }
      assert data[consumed..] == [];
      StepDone(ProcessedBytes(old(View()), data), consumed, Ok(Progress(View(), None)), []);
    }

    /** `try_process_deferred`. After a parser error the deferred bytes are put back. */
    method TryProcessDeferred() returns (completed: bool, error: Option<Error>)
      requires Whole()
      modifies this, boxHeader
      ensures boxHeader == old(boxHeader) && Valid()
      ensures error.Some? ==> deferred == old(deferred)
      ensures match TryDeferred(Reader(old(View()), old(deferred)))
              case Err(e) => error == Some(e)
              case Ok(step) => Whole() && deferred == step.reader.deferred
                               && Shows(Ok(Progress(step.reader.core, step.segment)), error, completed, old(newSegment))
    {
      hide TryBuild, QueuesKeep, PendingOk, ParserOk;
      TryBuildKeepsReader(View());
      TryBuildKeeps(View());
      completed, error := TryBuildSegment();
      if error.Some? || completed { return; }
      if deferred == [] { return; }
      var data := deferred;
      deferred := [];
      var consumed: nat;
      consumed, completed, error := ProcessBytes(data);
      if error.Some? {
        deferred := data;
        return;
      }
      if completed {
        deferred := data[consumed..];
        return;
      }
      assert consumed == |data|;
    }

    /** `push`: at most one segment completes per call; bytes after it wait in `deferred`. */
    method PushData(data: bytes) returns (error: Option<Error>)
      requires Whole()
      modifies this, boxHeader
      ensures boxHeader == old(boxHeader) && Valid()
      ensures match Push(Reader(old(View()), old(deferred)), data)
              case Err(e) => error == Some(e)
              case Ok(step) => Whole() && deferred == step.reader.deferred
                               && Shows(Ok(Progress(step.reader.core, step.segment)), error, step.segment.Some?, old(newSegment))
    {
      hide TryDeferred, Keeps, ParserOk;
      if data == [] { return None; }
      DeferredKeepsParser(Reader(View(), deferred));
      var completed: bool;
      completed, error := TryProcessDeferred();
      if error.Some? { return; }
      if completed {
        deferred := deferred + data;
        return;
      }
      var consumed: nat;
      consumed, completed, error := ProcessBytes(data);
      if error.Some? { return; }
      if completed && consumed < |data| {
        deferred := deferred + data[consumed..];
      }
    }
  }

  // ----- lemmas of the steps above -----

  lemma LoopStarts(s: Core, data: bytes)
    requires ParserOk(s.box)
    ensures AfterStep(0, Ok(Progress(s, None)), data) == ProcessedBytes(s, data)
  {}

  /** What the loop of `process_bytes` may conclude after a step. */
  lemma StepDone(goal: Result<Processed>, n: nat, step: Result<Progress>, rest: bytes)
    requires step.Ok? ==> ParserOk(step.value.core.box)
    requires goal == AfterStep(n, step, rest)
    ensures match step
            case Err(e) => goal == Err(e)
            case Ok(p) =>
              && (p.segment.Some? ==> goal == Ok(Processed(p.core, n, p.segment)))
              && (p.segment.None? ==> goal == AfterStep(n, Ok(Progress(p.core, None)), rest))
              && (p.segment.None? && rest == [] ==> goal == Ok(Processed(p.core, n, None)))
  {}

  lemma AudioStaysOk(s: Core)
    requires Keeps(s) && |s.box.header| == s.box.required
    ensures s.box.kind == MDAT && CompleteMdat(s).Ok? ==> QueueOk(CompleteMdat(s).value.queue.audio)
  {
    hide CompleteMdat, QueuesKeep, PendingOk;
    if s.box.kind == MDAT { CompleteMdatKeeps(s); }
  }

  /** The step that reads `part`, which stays inside the header or inside the body. */
  function PartStep(s: Core, part: bytes): Result<Progress>
    requires ParserOk(s.box) && part != []
    requires |part| <= if |s.box.header| < s.box.required then s.box.required - |s.box.header| else s.box.remaining
  {
    if |s.box.header| < s.box.required then HeaderStep(s, part) else BodyStep(s, part)
  }

  lemma StepKeeps(s: Core, part: bytes)
    requires ParserOk(s.box) && Keeps(s) && part != []
    requires |part| <= if |s.box.header| < s.box.required then s.box.required - |s.box.header| else s.box.remaining
    ensures PartStep(s, part).Ok? ==> Keeps(PartStep(s, part).value.core) && ParserOk(PartStep(s, part).value.core.box)
  {
    hide HeaderComplete, FinishBox, QueuesOk, QueuesKeep, PendingOk, WriteBoxData, BuiltFrom, HeaderBegun;
    if |s.box.header| < s.box.required {
      HeaderStepParser(s, part);
      var s1 := s.(box := s.box.(header := s.box.header + part));
      if |s1.box.header| == s1.box.required { HeaderKeeps(s1); }
    } else {
      BodyStepParser(s, part);
      WriteKeeps(s, part, s.box.remaining - |part|);
      FinishBoxKeeps(WriteBoxData(s, part).(box := s.box.(remaining := s.box.remaining - |part|)));
    }
  }

  /** One more part moves the loop of `process_bytes` on without changing what it is heading for. */
  lemma StepOn(goal: Result<Processed>, s: Core, part: bytes, n: nat, rest: bytes)
    requires ParserOk(s.box) && part != []
    requires |part| <= if |s.box.header| < s.box.required then s.box.required - |s.box.header| else s.box.remaining
    requires PartStep(s, part).Ok? ==> ParserOk(PartStep(s, part).value.core.box)
    requires goal == AfterStep(n, Ok(Progress(s, None)), part + rest)
    ensures goal == AfterStep(n + |part|, PartStep(s, part), rest)
  {
    hide HeaderStep, BodyStep, ProcessedBytes;
    if |s.box.header| < s.box.required {
      BulkHeader(s, part, rest);
    } else {
      BulkBody(s, part, rest);
    }
  }

  method PlacePayload(f: Fragment, start: nat, length: nat, fromMoof: int) returns (r: Result<Fragment>)
    ensures r == AttachPayload(f, start, length, fromMoof)
  {
    hide RunsSize, LaidOut;
    var expected: nat := 0;
    var runs: seq<Run> := [];
    NothingPlaced();
    for i := 0 to |f.runs|
      invariant expected == RunsSize(f.runs[..i]) && runs == LaidOut(f.runs[..i])
      invariant Contiguous(f.runs[..i], fromMoof)
    {
      var run := f.runs[i];
      assert f.runs[..i + 1][..i] == f.runs[..i];
      OneMorePlaced(f.runs[..i], run);
      assert f.runs[..i] + [run] == f.runs[..i + 1];
      var offset := if run.sourceDataOffset.Some? then run.sourceDataOffset.value - fromMoof else expected;
      if offset != expected {
        assert f.runs[i].sourceDataOffset.Some?;
        return Err(NonContiguousMdat);
      }
      forall j | 0 <= j <= i && f.runs[j].sourceDataOffset.Some?
        ensures f.runs[j].sourceDataOffset.value - fromMoof == RunsSize(f.runs[..i + 1][..j])
      {
        assert f.runs[..i + 1][..j] == f.runs[..j];
        if j < i {
          assert f.runs[..i][j] == f.runs[j] && f.runs[..i][..j] == f.runs[..j];
        }
      }
      runs := runs + [run.(payloadOffset := offset)];
      expected := offset + run.dataSize;
    }
    assert f.runs[..|f.runs|] == f.runs;
    if expected != length { return Err(MdatSizeMismatch); }
    return Ok(f.(runs := runs, payloadStart := start, payloadLen := length));
  }

  lemma NothingPlaced()
    ensures RunsSize([]) == 0 && LaidOut([]) == []
  {}

  lemma OneMorePlaced(runs: seq<Run>, run: Run)
    ensures RunsSize(runs + [run]) == RunsSize(runs) + run.dataSize
    ensures LaidOut(runs + [run]) == LaidOut(runs) + [run.(payloadOffset := RunsSize(runs))]
  {
    assert (runs + [run])[..|runs + [run]| - 1] == runs;
  }

  method EmitSegment(e: Envelope, video: seq<Fragment>, audio: seq<Fragment>, payload: bytes) returns (r: Result<Segment>)
    requires video != []
    ensures r == SegmentOf(e, video, audio, payload)
  {
    hide Mergeable, AssignOffsets, QueuePayloadLength, MoofSize, MdatHeaderSize, WriteTraf, MdatHeader, CollectPayload,
      TimelineNanoseconds, Header, Mfhd, OffsetNs;
    var merge := ValidateTrack(video);
    if !merge { return Err(CannotMerge); }
    if audio != [] {
      merge := ValidateTrack(audio);
      if !merge { return Err(CannotMerge); }
    }
    assert Mergeable(audio) by { if audio == [] { NothingToMerge(); } }
    var v, videoLength := PlaceFragments(video, 0);
    var a, length := PlaceFragments(audio, videoLength);
    var size := MoofSize(v, a);
    if size < 0 || size > U32_MAX { return Err(MoofTooLarge); }
    var base := size + MdatHeaderSize(length);
    var videoTraf := EmitTraf(v, base, e.offsetSeconds);
    if videoTraf.Err? { return Err(videoTraf.error); }
    var audioTraf: Result<bytes> := Ok([]);
    if audio != [] {
      audioTraf := EmitTraf(a, base, e.offsetSeconds);
      if audioTraf.Err? { return Err(audioTraf.error); }
    }
    var moof := Header(size, MOOF) + Mfhd(e.sequence) + videoTraf.value + audioTraf.value;
    var times := SegmentTimes(video, OffsetNs(e.offsetSeconds));
    if times.Err? { return Err(times.error); }
    var head := e.styp + e.prefix + moof + MdatHeader(length, MdatHeaderSize(length));
    var data := AppendPayload(head, payload, video + audio);
    if data.Err? { return Err(data.error); }
    return Ok(Segment(data.value, times.value.0, times.value.1));
  }

  lemma NothingToMerge()
    ensures Mergeable([])
  {}
}
