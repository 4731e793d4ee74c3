/**
 * Chunk independence: exactly which streams give the same segments and the same reader however they are cut into
 * pushes, for a caller that drains after every push and asks once more at the end of the stream.
 */
module Mp4Chunks {
  import opened Bytes
  import opened Mp4Types
  import opened Mp4Build
  import opened Mp4Reader
  import opened Mp4Runs
  import opened Mp4Keeps
  import opened Mp4Steps
  import opened Mp4Early

  // ----- the reference and the chunked run -----

  lemma EndReadable(s: Core, data: bytes, building: bool)
    requires ParserOk(s.box)
    ensures ByBytes(s, data, building).end.Ok? ==>
              ByBytes(s, data, building).end.value.deferred == [] && ParserOk(ByBytes(s, data, building).end.value.core.box)
  {
    ByBytesConcat(s, data, [], building);
  }

  /** What `o` handed out, then every segment that is due at its end. */
  function Closed(o: Outcome): Outcome
    requires o.end.Ok? ==> ParserOk(o.end.value.core.box)
  {
    if o.end.Err? then o else Before(o.segments, ByBytes(o.end.value.core, [], true))
  }

  /** The byte-by-byte run to the end of the stream. */
  function Full(s: Core, data: bytes, building: bool): Outcome
    requires ParserOk(s.box)
  {
    EndReadable(s, data, building);
    Closed(ByBytes(s, data, building))
  }

  /** The byte-by-byte run that also builds wherever a chunk begins, and at the end. */
  function Chunked(s: Core, chunks: seq<bytes>): Outcome
    requires ParserOk(s.box)
    decreases |chunks|
  {
    if chunks == [] then ByBytes(s, [], true) else
    var first := ByBytes(s, chunks[0], true);
    EndReadable(s, chunks[0], true);
    if first.end.Err? then first else Before(first.segments, Chunked(first.end.value.core, chunks[1..]))
  }

  /** What a caller gets who pushes `chunks`, draining after each, and asks once more at the end. */
  function Drained(config: Config, chunks: seq<bytes>): Outcome {
    Drive(Reader(NewCore(config), []), chunks + [[]])
  }

  // ----- pushing chunks is building where they begin -----

  /** When everything due is built, nothing is due. */
  lemma {:induction false} NothingLeft(s: Core)
    requires ParserOk(s.box)
    ensures var o := ByBytes(s, [], true); o.end.Ok? ==> TryBuild(o.end.value.core) == Ok(Progress(o.end.value.core, None))
    decreases |s.queue.video|
  {
    hide TryBuild, ParserOk, FeedByte;
    TryBuildKeeps(s);
    if TryBuild(s).Ok? && TryBuild(s).value.segment.Some? { NothingLeft(TryBuild(s).value.core); }
  }

  /** Building first what is due changes nothing for a run that begins by building. */
  lemma BuildFirst(s: Core, data: bytes)
    requires ParserOk(s.box)
    ensures var o := ByBytes(s, [], true);
            && (o.end.Ok? ==> ParserOk(o.end.value.core.box))
            && ByBytes(s, data, true) == if o.end.Err? then o else Before(o.segments, ByBytes(o.end.value.core, data, true))
  {
    hide TryBuild, ParserOk, FeedByte;
    NothingLeft(s);
    ByBytesConcat(s, [], data, true);
    assert [] + data == data;
  }

  lemma ChunkedBuildsFirst(s: Core, chunks: seq<bytes>)
    requires ParserOk(s.box)
    ensures var o := ByBytes(s, [], true);
            && (o.end.Ok? ==> ParserOk(o.end.value.core.box))
            && Chunked(s, chunks) == if o.end.Err? then o else Before(o.segments, Chunked(o.end.value.core, chunks))
  {
    hide ByBytes, ParserOk;
    BuildFirst(s, []);
    if chunks != [] {
      BuildFirst(s, chunks[0]);
      var o := ByBytes(s, [], true);
      if o.end.Ok? {
        var first := ByBytes(o.end.value.core, chunks[0], true);
        EndReadable(o.end.value.core, chunks[0], true);
        if first.end.Ok? { BeforeTwice(o.segments, first.segments, Chunked(first.end.value.core, chunks[1..])); }
      }
    }
  }

  /** A push from a reader that deferred nothing: perhaps what has become due is not built yet. */
  lemma PushBuilds(r: Reader, data: bytes)
    requires ParserOk(r.core.box) && r.deferred == []
    ensures PushAndDrain(r, data) == ByBytes(r.core, data, true) || PushAndDrain(r, data) == Full(r.core, data, true)
  {
    hide TryBuild, ParserOk, FeedByte, ByBytes;
    TryBuildKeeps(r.core);
    DeferredKeepsParser(r);
    ByBytesBuilds(r.core, data);
    if data == [] {
      DrainIsByBytes(r);
      BeforeNothing(Drain(r));
    } else if TryBuild(r.core).Ok? {
      if TryBuild(r.core).value.segment.Some? {
        var next := Reader(TryBuild(r.core).value.core, data);
        assert [] + data == data;
        DrainIsByBytes(next);
      } else {
        ProcessedIsByBytes(r.core, data);
        if ProcessedBytes(r.core, data).Ok? {
          var done := ProcessedBytes(r.core, data).value;
          var next := Reader(done.core, data[done.consumed..]);
          assert r.deferred + data[done.consumed..] == data[done.consumed..];
          assert Push(r, data) == Ok(Step(next, done.segment));
          DrainIsByBytes(next);
        }
      }
    }
  }

  lemma ByBytesBuilds(s: Core, data: bytes)
    requires ParserOk(s.box)
    ensures var built := TryBuild(s);
            && (built.Err? ==> ByBytes(s, data, true) == Fail(built.error))
            && (built.Ok? ==> ParserOk(built.value.core.box))
            && (built.Ok? && built.value.segment.None? ==>
                  built.value.core == s && ByBytes(s, data, true) == ByBytes(s, data, false))
            && (built.Ok? && built.value.segment.Some? ==>
                  |built.value.core.queue.video| < |s.queue.video|
                  && ByBytes(s, data, true) == Before(Taken(built.value.segment), ByBytes(built.value.core, data, true)))
  {
    hide TryBuild, ParserOk, FeedByte;
    TryBuildKeeps(s);
  }

  lemma {:induction false} DriveIsChunked(r: Reader, chunks: seq<bytes>)
    requires ParserOk(r.core.box) && r.deferred == []
    ensures Drive(r, chunks + [[]]) == Chunked(r.core, chunks)
    decreases |chunks|
  {
    hide PushAndDrain, ByBytes, ParserOk;
    var all := chunks + [[]];
    PushBuilds(r, all[0]);
    PushAndDrainKeepsParser(r, all[0]);
    EndReadable(r.core, all[0], true);
    var first, o := PushAndDrain(r, all[0]), ByBytes(r.core, all[0], true);
    if o.end.Ok? { EndReadable(o.end.value.core, [], true); }
    if chunks == [] {
      assert all == [[]] && all[0] == [] && all[1..] == [];
      ClosedTwice(r.core);
      if first.end.Ok? { BeforeIdle(first); }
    } else if first.end.Ok? {
      assert all[1..] == chunks[1..] + [[]];
      DriveIsChunked(first.end.value, chunks[1..]);
      ChunkedBuildsFirst(o.end.value.core, chunks[1..]);
      if first != o {
        var more := ByBytes(o.end.value.core, [], true);
        BeforeTwice(o.segments, more.segments, Chunked(more.end.value.core, chunks[1..]));
      }
    } else if o.end.Ok? {
      ChunkedBuildsFirst(o.end.value.core, chunks[1..]);
    }
  }

  lemma BeforeIdle(o: Outcome)
    requires o.end.Ok?
    ensures Before(o.segments, Idle(o.end.value)) == o
  {
    assert o.segments + [] == o.segments;
  }

  /** Closing what is closed changes nothing. */
  lemma ClosedTwice(s: Core)
    requires ParserOk(s.box)
    ensures Full(s, [], true) == ByBytes(s, [], true)
  {
    hide TryBuild, ParserOk, FeedByte;
    BuildFirst(s, []);
    EndReadable(s, [], true);
  }

  // ----- the condition -----

  /**
   * The next byte does no harm to a segment that is due, or to the error building ends in: it ends the run in no other
   * way, and keeps no more boxes for the segment unless the segment comes out.
   */
  ghost predicate Harmless(s: Core, b: byte)
    requires ParserOk(s.box)
  {
    var fed := FeedByte(s, b);
    match TryBuild(s)
    case Err(e) => fed.Ok? || fed.error == e
    case Ok(p) =>
      p.segment.Some? ==> fed.Ok? && (fed.value.segment.Some? || SameKept(s.source, fed.value.core.source))
  }

  /**
   * Along the byte-by-byte run, whenever a segment is already due although the payload of an audio fragment is still to
   * come, that payload comes before any error and before any other box that goes with the segment.
   */
  ghost predicate Undisturbed(s: Core, data: bytes, building: bool)
    requires ParserOk(s.box)
    decreases |data|, building, |s.queue.video|
  {
    && (building ==>
          match TryBuild(s)
          case Err(_) => true
          case Ok(p) =>
            TryBuildKeeps(s);
            if p.segment.None? then Undisturbed(s, data, false) else Undisturbed(p.core, data, true))
    && (!building && data != [] ==>
          Harmless(s, data[0]) &&
          (FeedKeepsParser(s, data[0]);
           match FeedByte(s, data[0])
           case Err(_) => true
           case Ok(p) => Undisturbed(p.core, data[1..], p.segment.Some?)))
  }

  // ----- every state of a run is settled or waits for audio -----

  ghost predicate Steady(s: Core) { Settled(s) || Waiting(s) }

  /** A state of a run, before a byte or before building. */
  ghost predicate Ready(s: Core, building: bool) {
    ParserOk(s.box) && Keeps(s) && (Steady(s) || (building && s.setup.initDone))
  }

  lemma BuildReady(s: Core)
    requires Ready(s, true) && TryBuild(s).Ok?
    ensures Ready(TryBuild(s).value.core, TryBuild(s).value.segment.Some?)
  {
    hide TryBuild, Settled, Keeps, ParserOk;
    TryBuildKeeps(s);
    TryBuildKeepsReader(s);
    TryBuildKeepsSetup(s);
    if s.setup.initDone {
      if TryBuild(s).value.segment.None? { NowSettled(s); }
    } else {
      SettledBuildsNothing(s);
    }
  }

  lemma FeedReady(s: Core, b: byte)
    requires Ready(s, false) && FeedByte(s, b).Ok?
    ensures Ready(FeedByte(s, b).value.core, FeedByte(s, b).value.segment.Some?)
  {
    hide FeedByte, Settled, Keeps, ParserOk, Waiting;
    FeedKeepsParser(s, b);
    FeedKeepsReader(s, b);
    var x := FeedByte(s, b).value;
    if Waiting(s) {
      if x.segment.None? { WaitingStays(s, b); } else { WaitingKeepsSetup(s, b); }
    } else {
      KeepsKind(s);
      FeedStaysSettled(s, b);
    }
  }

  lemma KeepsKind(s: Core)
    requires Keeps(s)
    ensures KindKnown(s)
  {
    hide QueuesOk, QueuesKeep, PendingOk;
  }

  lemma WaitingKeepsSetup(s: Core, b: byte)
    requires ParserOk(s.box) && Keeps(s) && Waiting(s) && FeedByte(s, b).Ok?
    ensures FeedByte(s, b).value.core.setup.initDone
  {
    hide FeedByte, FinishBox, Keeps, Advanced, KeepsAlike;
    FeedAdvances(s, b);
    var act := AdvanceWaits(s, s, b);
    var t := Advanced(s, b).value;
    if BoxComplete(t.box) {
      if t.box.kind != MDAT { OtherFinishes(t); } else { MdatKeepsSetup(t); }
    }
  }

  lemma MdatKeepsSetup(s: Core)
    requires s.box.kind == MDAT && FinishBox(s).Ok?
    ensures FinishBox(s).value.core.setup == s.setup
  {
    hide TryBuild, CompleteMdat, CompleteMoof, CompleteStyp;
    CompleteMdatKeepsSetup(s);
    TryBuildKeepsSetup(CompleteMdat(s).value);
  }

  lemma {:induction false} EndReady(s: Core, data: bytes, building: bool)
    requires Ready(s, building)
    ensures ByBytes(s, data, building).end.Ok? ==> Ready(ByBytes(s, data, building).end.value.core, false)
    decreases |data|, building, |s.queue.video|
  {
    hide TryBuild, FeedByte, Steady, Keeps, ParserOk;
    if building {
      if TryBuild(s).Ok? {
        BuildReady(s);
        TryBuildKeeps(s);
        EndReady(TryBuild(s).value.core, data, TryBuild(s).value.segment.Some?);
      }
    } else if data != [] && FeedByte(s, data[0]).Ok? {
      FeedReady(s, data[0]);
      EndReady(FeedByte(s, data[0]).value.core, data[1..], FeedByte(s, data[0]).value.segment.Some?);
    }
  }

  // ----- an undisturbed run builds ahead without harm -----

  lemma FullFeeds(s: Core, data: bytes)
    requires ParserOk(s.box) && data != []
    ensures var fed := FeedByte(s, data[0]);
            && (fed.Err? ==> Full(s, data, false) == Fail(fed.error))
            && (fed.Ok? ==>
                  ParserOk(fed.value.core.box)
                  && Full(s, data, false) == Before(Taken(fed.value.segment), Full(fed.value.core, data[1..], fed.value.segment.Some?)))
  {
    hide TryBuild, ParserOk, FeedByte;
    FeedKeepsParser(s, data[0]);
    if FeedByte(s, data[0]).Ok? {
      var p := FeedByte(s, data[0]).value;
      EndReadable(p.core, data[1..], p.segment.Some?);
      ClosedBefore(Taken(p.segment), ByBytes(p.core, data[1..], p.segment.Some?));
    }
  }

  lemma ClosedBefore(segments: seq<Segment>, o: Outcome)
    requires o.end.Ok? ==> ParserOk(o.end.value.core.box)
    ensures Closed(Before(segments, o)) == Before(segments, Closed(o))
  {
    hide ByBytes, ParserOk;
    if o.end.Ok? { BeforeTwice(segments, o.segments, ByBytes(o.end.value.core, [], true)); }
  }

  lemma FullBuilds(s: Core, data: bytes)
    requires ParserOk(s.box)
    ensures var built := TryBuild(s);
            && (built.Err? ==> Full(s, data, true) == Fail(built.error))
            && (built.Ok? ==> ParserOk(built.value.core.box))
            && (built.Ok? && built.value.segment.None? ==>
                  built.value.core == s && Full(s, data, true) == Full(s, data, false))
            && (built.Ok? && built.value.segment.Some? ==>
                  |built.value.core.queue.video| < |s.queue.video|
                  && Full(s, data, true) == Before(Taken(built.value.segment), Full(built.value.core, data, true)))
  {
    hide TryBuild, ParserOk, FeedByte, ByBytes;
    ByBytesBuilds(s, data);
    if TryBuild(s).Ok? && TryBuild(s).value.segment.Some? {
      var p := TryBuild(s).value;
      EndReadable(p.core, data, true);
      ClosedBefore(Taken(p.segment), ByBytes(p.core, data, true));
    }
  }

  lemma FullOfNothing(s: Core)
    requires ParserOk(s.box)
    ensures Full(s, [], false) == ByBytes(s, [], true) == Full(s, [], true)
  {
    hide TryBuild, ParserOk, FeedByte;
    NoBytes(s);
    BeforeNothing(ByBytes(s, [], true));
    ClosedTwice(s);
  }

  lemma DueOrNot(s: Core)
    requires Ready(s, false) && TryBuild(s).Ok? && TryBuild(s).value.segment.Some?
    ensures Due(s)
  {
    hide TryBuild, Settled, Keeps, ParserOk, Waiting;
    if Settled(s) { SettledBuildsNothing(s); }
  }

  lemma FailsWaiting(s: Core)
    requires Ready(s, false) && TryBuild(s).Err?
    ensures Waiting(s)
  {
    hide TryBuild, Settled, Keeps, ParserOk, Waiting;
    if Settled(s) { SettledBuildsNothing(s); }
  }

  /** If building would fail now, an undisturbed run ends in that failure. */
  lemma {:induction false} FailsAnyway(s: Core, data: bytes)
    requires ParserOk(s.box) && Keeps(s) && Waiting(s) && TryBuild(s).Err? && Undisturbed(s, data, false)
    ensures Full(s, data, false) == Fail(TryBuild(s).error)
    decreases |data|
  {
    hide TryBuild, ParserOk, FeedByte, Keeps, Waiting, Full;
    if data == [] {
      FullOfNothing(s);
      FullBuilds(s, []);
    } else {
      FullFeeds(s, data);
      if FeedByte(s, data[0]).Ok? {
        StepFails(s, data[0]);
        FeedKeepsReader(s, data[0]);
        var x := FeedByte(s, data[0]).value;
        FailsAnyway(x.core, data[1..]);
        BeforeNothing(Full(x.core, data[1..], false));
      }
    }
  }

  /** A due segment comes out first, and the run goes on as if it had been built at once. */
  lemma {:induction false} Ahead(s: Core, data: bytes, u: Core)
    requires Due(s) && Undisturbed(s, data, false) && u == AfterBuild(s) && ParserOk(u.box)
    ensures Full(s, data, false) == Before(Taken(TryBuild(s).value.segment), Full(u, data, false))
    ensures Undisturbed(u, data, false)
    decreases |data|
  {
    hide TryBuild, ParserOk, FeedByte, Keeps, Waiting, Full, SameKept;
    BuiltWaits(s);
    var taken := Taken(TryBuild(s).value.segment);
    if data == [] {
      FullOfNothing(s);
      FullOfNothing(u);
      FullBuilds(s, []);
    } else {
      var b, rest := data[0], data[1..];
      assert Harmless(s, b);
      StepAhead(s, b, u);
      FullFeeds(s, data);
      FullFeeds(u, data);
      var x := FeedByte(s, b).value;
      BuiltHarmless(s, b, u);
      if x.segment.None? {
        BuiltWaits(x.core);
        var v := AfterBuild(x.core);
        Ahead(x.core, rest, v);
        BeforeNothing(Full(x.core, rest, false));
        BeforeNothing(Full(v, rest, false));
      } else {
        FullBuilds(x.core, rest);
        if TryBuild(x.core).Ok? && TryBuild(x.core).value.segment.None? {
          BeforeNothing(Full(x.core, rest, false));
        }
      }
    }
  }

  /** A byte that does no harm before building does none after. */
  lemma BuiltHarmless(s: Core, b: byte, u: Core)
    requires Due(s) && u == AfterBuild(s) && ParserOk(u.box) && Harmless(s, b)
    ensures Harmless(u, b)
  {
    hide TryBuild, ParserOk, FeedByte, Keeps, Waiting;
    BuiltWaits(s);
    StepAhead(s, b, u);
    var x := FeedByte(s, b).value;
    if x.segment.None? { BuiltWaits(x.core); }
  }

  /** Building wherever the stream is cut changes nothing in an undisturbed run. */
  lemma {:induction false} BuildAnywhere(s: Core, data: bytes)
    requires Ready(s, false) && Undisturbed(s, data, false)
    ensures Full(s, data, true) == Full(s, data, false) && Undisturbed(s, data, true)
    decreases |s.queue.video|
  {
    hide TryBuild, ParserOk, FeedByte, Keeps, Steady, Full, Harmless;
    FullBuilds(s, data);
    if TryBuild(s).Err? {
      FailsWaiting(s);
      FailsAnyway(s, data);
    } else if TryBuild(s).value.segment.Some? {
      DueOrNot(s);
      BuiltWaits(s);
      var u := AfterBuild(s);
      Ahead(s, data, u);
      WaitingIsReady(u);
      BuildAnywhere(u, data);
    }
  }

  lemma WaitingIsReady(s: Core)
    requires ParserOk(s.box) && Keeps(s) && Waiting(s)
    ensures Ready(s, false)
  {}

  lemma ReadyToBuild(s: Core)
    requires Ready(s, false)
    ensures Ready(s, true)
  {
    hide Keeps, Steady, ParserOk;
  }

  lemma {:induction false} UndisturbedConcat(s: Core, a: bytes, b: bytes, building: bool)
    requires ParserOk(s.box) && Undisturbed(s, a + b, building)
    ensures var o := ByBytes(s, a, building);
            o.end.Ok? ==> ParserOk(o.end.value.core.box) && Undisturbed(o.end.value.core, b, false)
    decreases |a|, building, |s.queue.video|
  {
    hide TryBuild, FeedByte, ParserOk, Harmless;
    if building {
      TryBuildKeeps(s);
      if TryBuild(s).Ok? { UndisturbedConcat(TryBuild(s).value.core, a, b, TryBuild(s).value.segment.Some?); }
    } else if a == [] {
      assert a + b == b;
    } else {
      assert (a + b)[1..] == a[1..] + b && (a + b)[0] == a[0];
      FeedKeepsParser(s, a[0]);
      if FeedByte(s, a[0]).Ok? {
        UndisturbedConcat(FeedByte(s, a[0]).value.core, a[1..], b, FeedByte(s, a[0]).value.segment.Some?);
      }
    }
  }

  lemma FullConcat(s: Core, a: bytes, b: bytes, building: bool)
    requires ParserOk(s.box)
    ensures var o := ByBytes(s, a, building);
            && (o.end.Ok? ==> ParserOk(o.end.value.core.box))
            && Full(s, a + b, building) == if o.end.Err? then o else Before(o.segments, Full(o.end.value.core, b, false))
  {
    hide ByBytes, ParserOk;
    ByBytesConcat(s, a, b, building);
    var o := ByBytes(s, a, building);
    if o.end.Ok? {
      EndReadable(o.end.value.core, b, false);
      ClosedBefore(o.segments, ByBytes(o.end.value.core, b, false));
    }
  }

  /** An undisturbed stream gives the same however it is cut. */
  lemma {:induction false} ChunksAreFull(s: Core, chunks: seq<bytes>)
    requires Ready(s, false) && Undisturbed(s, Flatten(chunks), false)
    ensures Chunked(s, chunks) == Full(s, Flatten(chunks), false)
    decreases |chunks|
  {
    hide ByBytes, ParserOk, Full, Undisturbed, Keeps, Steady;
    if chunks == [] {
      FullOfNothing(s);
    } else {
      var rest := Flatten(chunks[1..]);
      BuildAnywhere(s, chunks[0] + rest);
      FullConcat(s, chunks[0], rest, true);
      UndisturbedConcat(s, chunks[0], rest, true);
      ReadyToBuild(s);
      EndReady(s, chunks[0], true);
      EndReadable(s, chunks[0], true);
      var first := ByBytes(s, chunks[0], true);
      if first.end.Ok? { ChunksAreFull(first.end.value.core, chunks[1..]); }
    }
  }

  // ----- a disturbed stream does not -----

  /** Cut once, before `b`. */
  function CutOnce(s: Core, a: bytes, b: bytes, building: bool): Outcome
    requires ParserOk(s.box)
  {
    var first := ByBytes(s, a, building);
    EndReadable(s, a, building);
    if first.end.Err? then first else Before(first.segments, Full(first.end.value.core, b, true))
  }

  lemma BeforeDiffers(segments: seq<Segment>, x: Outcome, y: Outcome)
    requires x != y
    ensures Before(segments, x) != Before(segments, y)
  {
    var n := |segments|;
    assert (segments + x.segments)[n..] == x.segments && (segments + y.segments)[n..] == y.segments;
  }

  /** Wherever a due segment comes out, it is no shorter than at once. */
  lemma {:induction false} LaterIsNoShorter(s: Core, data: bytes)
    requires Due(s) && KeptOk(s)
    ensures var o := Full(s, data, false).segments;
            o == [] || |o[0].data| >= |TryBuild(s).value.segment.value.data|
    decreases |data|
  {
    hide TryBuild, ParserOk, FeedByte, Keeps, Waiting, Full, KeptOk, SameKept;
    if data == [] {
      FullOfNothing(s);
      FullBuilds(s, []);
    } else {
      FullFeeds(s, data);
      if FeedByte(s, data[0]).Ok? {
        BuiltWaits(s);
        StepAhead(s, data[0], AfterBuild(s));
        var x := FeedByte(s, data[0]).value;
        if x.segment.None? {
          FeedKeepsKept(s, data[0]);
          LaterIsNoShorter(x.core, data[1..]);
          BeforeNothing(Full(x.core, data[1..], false));
        }
      }
    }
  }

  lemma FinishKeepsKept(s: Core)
    requires KeptOk(s)
    ensures FinishBox(s).Ok? ==> KeptOk(FinishBox(s).value.core) && FinishBox(s).value.core.box == NO_BOX
  {
    hide BuildNext, MoofFragment, ResolvePrevious, Remember, AttachPayload, Enqueue;
  }

  lemma BeginMediaKept(r: Source, kind: u32, size: u64, headerSize: nat)
    ensures match BeginMedia(r, kind, size, headerSize)
            case Err(_) => true
            case Ok((source, target)) =>
              source.prefix == r.prefix && (source.prefixActive == (r.prefixActive || target.PrefixTarget?))
  {}

  lemma BeginKeepsKept(s: Core, size: u64, headerSize: nat)
    requires s.source.prefix != [] ==> s.source.prefixActive
    ensures BeginBox(s, size, headerSize).Ok? ==> KeptOk(BeginBox(s, size, headerSize).value)
  {
    hide CompleteInit, BeginMedia;
    BeginMediaKept(s.source, s.box.kind, size, headerSize);
  }

  lemma AdvanceKeepsKept(s: Core, b: byte)
    requires ParserOk(s.box) && KeptOk(s)
    ensures Advanced(s, b).Ok? ==> KeptOk(Advanced(s, b).value)
  {
    hide BeginBox, ReadBe32, ReadBe64;
    if |s.box.header| < s.box.required {
      var s1 := s.(box := s.box.(header := s.box.header + [b]));
      if |s1.box.header| == s1.box.required && (s1.box.required == 16 || ReadBe32(s1.box.header, 0) > 1) {
        var box := if s1.box.required == 8 then s1.box.(kind := ReadBe32(s1.box.header, 4)) else s1.box;
        var size: u64 := if s1.box.required == 8 then ReadBe32(s1.box.header, 0) else ReadBe64(s1.box.header, 8);
        BeginKeepsKept(s1.(box := box), size, s1.box.required);
      }
    }
  }

  lemma FeedKeepsKept(s: Core, b: byte)
    requires ParserOk(s.box) && KeptOk(s) && FeedByte(s, b).Ok?
    ensures KeptOk(FeedByte(s, b).value.core)
    ensures FeedByte(s, b).value.segment.Some? ==> FeedByte(s, b).value.core.box == NO_BOX
  {
    hide FeedByte, Advanced, FinishBox, KeptOk;
    FeedAdvances(s, b);
    AdvanceKeepsKept(s, b);
    if Advanced(s, b).Ok? { FinishKeepsKept(Advanced(s, b).value); }
  }

  lemma BuildKeepsKept(s: Core)
    requires KeptOk(s) && s.box == NO_BOX && TryBuild(s).Ok?
    ensures KeptOk(TryBuild(s).value.core) && TryBuild(s).value.core.box == NO_BOX
  {
    hide BuildNext;
  }

  /** Cutting before a harmful byte shows. */
  lemma HarmShows(s: Core, data: bytes)
    requires Ready(s, false) && KeptOk(s) && data != [] && !Harmless(s, data[0])
    ensures CutOnce(s, [], data, false) != Full(s, data, false)
  {
    hide TryBuild, ParserOk, FeedByte, Keeps, Steady, Full, KeptOk, Due, SameKept;
    NoBytes(s);
    BeforeNothing(Full(s, data, true));
    FullBuilds(s, data);
    FullFeeds(s, data);
    if TryBuild(s).Ok? {
      var first := TryBuild(s).value.segment;
      assert first.Some?;
      DueOrNot(s);
      DueIsOk(s);
      if FeedByte(s, data[0]).Ok? {
        StepAhead(s, data[0], AfterBuild(s));
        var x := FeedByte(s, data[0]).value;
        StillDueFacts(s, x.core, FeedByte(AfterBuild(s), data[0]));
        FeedKeepsKept(s, data[0]);
        LaterIsNoShorter(x.core, data[1..]);
        BeforeNothing(Full(x.core, data[1..], false));
        assert Full(s, data, true).segments[0] == first.value;
      } else {
        assert Full(s, data, true).segments[0] == first.value;
      }
    }
  }

  lemma DueIsOk(s: Core)
    requires Due(s)
    ensures ParserOk(AfterBuild(s).box)
  {
    BuiltWaits(s);
  }

  lemma StillDueFacts(s: Core, t: Core, next: Result<Progress>)
    requires StillDue(s, t, next) && KeptOk(s) && !SameKept(s.source, t.source)
    ensures Due(t) && TryBuild(t).Ok? && TryBuild(t).value.segment.Some? && TryBuild(s).Ok? && TryBuild(s).value.segment.Some?
    ensures |TryBuild(t).value.segment.value.data| > |TryBuild(s).value.segment.value.data|
  {
    hide TryBuild, ParserOk, Keeps, Waiting, KeptOk, SameKept;
  }

  /** A step before the cut belongs to both runs. */
  lemma CutBuilds(s: Core, a: bytes, b: bytes)
    requires ParserOk(s.box) && TryBuild(s).Ok?
    ensures var p := TryBuild(s).value;
            ParserOk(p.core.box)
            && CutOnce(s, a, b, true) == Before(Taken(p.segment), CutOnce(p.core, a, b, p.segment.Some?))
  {
    hide TryBuild, ParserOk, FeedByte, ByBytes, Full;
    ByBytesBuilds(s, a);
    var p := TryBuild(s).value;
    EndReadable(p.core, a, p.segment.Some?);
    var first := ByBytes(p.core, a, p.segment.Some?);
    if p.segment.None? { BeforeNothing(CutOnce(p.core, a, b, false)); }
    if first.end.Ok? { BeforeTwice(Taken(p.segment), first.segments, Full(first.end.value.core, b, true)); }
  }

  lemma CutFeeds(s: Core, a: bytes, b: bytes)
    requires ParserOk(s.box) && a != [] && FeedByte(s, a[0]).Ok?
    ensures var p := FeedByte(s, a[0]).value;
            ParserOk(p.core.box)
            && CutOnce(s, a, b, false) == Before(Taken(p.segment), CutOnce(p.core, a[1..], b, p.segment.Some?))
  {
    hide TryBuild, ParserOk, FeedByte, Full;
    FeedKeepsParser(s, a[0]);
    var p := FeedByte(s, a[0]).value;
    EndReadable(p.core, a[1..], p.segment.Some?);
    var first := ByBytes(p.core, a[1..], p.segment.Some?);
    if first.end.Ok? { BeforeTwice(Taken(p.segment), first.segments, Full(first.end.value.core, b, true)); }
  }

  /** Somewhere in a disturbed stream a cut shows. */
  lemma {:induction false} DisturbedShows(s: Core, data: bytes, building: bool) returns (k: nat)
    requires Ready(s, building) && KeptOk(s) && (building ==> s.box == NO_BOX) && !Undisturbed(s, data, building)
    ensures k <= |data| && CutOnce(s, data[..k], data[k..], building) != Full(s, data, building)
    decreases |data|, building, |s.queue.video|
  {
    hide TryBuild, ParserOk, FeedByte, Keeps, Steady, Full, KeptOk, Harmless, CutOnce;
    if building {
      FullBuilds(s, data);
      BuildReady(s);
      BuildKeepsKept(s);
      var p := TryBuild(s).value;
      k := DisturbedShows(p.core, data, p.segment.Some?);
      CutBuilds(s, data[..k], data[k..]);
      if p.segment.None? { BeforeNothing(Full(s, data, false)); }
      BeforeDiffers(Taken(p.segment), CutOnce(p.core, data[..k], data[k..], p.segment.Some?), Full(p.core, data, p.segment.Some?));
    } else if !Harmless(s, data[0]) {
      k := 0;
      HarmShows(s, data);
      assert data[..0] == [] && data[0..] == data;
    } else {
      FullFeeds(s, data);
      FeedReady(s, data[0]);
      FeedKeepsKept(s, data[0]);
      var p, rest := FeedByte(s, data[0]).value, data[1..];
      k := DisturbedShows(p.core, rest, p.segment.Some?);
      BeforeDiffers(Taken(p.segment), CutOnce(p.core, rest[..k], rest[k..], p.segment.Some?), Full(p.core, rest, p.segment.Some?));
      k := k + 1;
      CutFeeds(s, data[..k], data[k..]);
      assert data[..k][1..] == rest[..k - 1] && data[k..] == rest[k - 1..];
    }
  }

  // ----- chunk independence -----

  lemma NewReaderIsReady(config: Config)
    ensures ParserOk(NewCore(config).box) && Ready(NewCore(config), false) && KeptOk(NewCore(config))
    ensures TryBuild(NewCore(config)) == Ok(Progress(NewCore(config), None))
  {
    hide Keeps;
    NewReaderKeeps(config);
  }

  /** A new reader has nothing to build, so the first cut is the only one. */
  lemma CutIsChunked(config: Config, a: bytes, b: bytes)
    ensures Chunked(NewCore(config), [a, b]) == CutOnce(NewCore(config), a, b, false)
  {
    hide TryBuild, ByBytes, Full;
    var s := NewCore(config);
    NewReaderIsReady(config);
    ByBytesBuilds(s, a);
    EndReadable(s, a, false);
    var first := ByBytes(s, a, false);
    assert [a, b][1..] == [b];
    if first.end.Ok? { ChunkedOne(first.end.value.core, b); }
  }

  lemma ChunkedOne(s: Core, data: bytes)
    requires ParserOk(s.box)
    ensures Chunked(s, [data]) == Full(s, data, true)
  {
    hide ByBytes;
    EndReadable(s, data, true);
    assert [data][1..] == [];
    if ByBytes(s, data, true).end.Ok? { assert Chunked(ByBytes(s, data, true).end.value.core, []) == ByBytes(ByBytes(s, data, true).end.value.core, [], true); }
  }

  /** One push of the whole stream is the byte-by-byte run. */
  lemma WholeIsFull(config: Config, data: bytes)
    ensures Drained(config, [data]) == Full(NewCore(config), data, false)
  {
    hide TryBuild, ByBytes, Full, Chunked, Drive;
    NewReaderIsReady(config);
    DriveIsChunked(Reader(NewCore(config), []), [data]);
    ChunkedOne(NewCore(config), data);
    FullBuilds(NewCore(config), data);
  }

  /**
   * Every way of cutting a stream into pushes gives the segments, the final reader or the error of one single push,
   * if and only if no segment that is due early is disturbed.
   */
  lemma ChunkIndependence(config: Config, data: bytes)
    ensures Undisturbed(NewCore(config), data, false)
        <==> (forall chunks: seq<bytes> | Flatten(chunks) == data :: Drained(config, chunks) == Drained(config, [data]))
  {
    hide Undisturbed, Full, Chunked, Drive, CutOnce, KeptOk, Ready, ParserOk;
    var s := NewCore(config);
    NewReaderIsReady(config);
    WholeIsFull(config, data);
    if Undisturbed(s, data, false) {
      forall chunks: seq<bytes> | Flatten(chunks) == data ensures Drained(config, chunks) == Drained(config, [data]) {
        DriveIsChunked(Reader(s, []), chunks);
        ChunksAreFull(s, chunks);
      }
    } else {
      var k := DisturbedShows(s, data, false);
      var chunks := [data[..k], data[k..]];
      TwoChunks(data[..k], data[k..]);
      assert data[..k] + data[k..] == data;
      DriveIsChunked(Reader(s, []), chunks);
      CutIsChunked(config, data[..k], data[k..]);
      assert Flatten(chunks) == data && Drained(config, chunks) != Drained(config, [data]);
    }
  }

  lemma TwoChunks(a: bytes, b: bytes)
    ensures Flatten([a, b]) == a + b
  {
    assert [a, b][1..] == [b];
    OneChunk(b);
  }
}
