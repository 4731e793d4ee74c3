/**
 * Which fragments of a stream are accepted, in positions of the stream: a `moof`, boxes between, and an `mdat` whose
 * bytes lie exactly where the data offsets of the `moof` say.
 */
module Mp4Accepts {
  import opened Bytes
  import opened Mp4Types
  import opened Mp4Parse
  import opened Mp4Select
  import opened Mp4Split
  import opened Mp4Build
  import opened Mp4Reader
  import opened Mp4Runs
  import opened Mp4Keeps
  import opened Mp4Steps
  import opened Mp4Boxes

  /** A box that may stand between `moof` and `mdat`. */
  predicate MayStandBetween(b: TopBox) { Sized(b) && b.kind in {SIDX, EMSG, FREE, PRFT} }

  /** Between two fragments, before the end of the stream. */
  predicate ReadyForMoof(s: Core) {
    s.box == NO_BOX && s.source.pending.None? && !s.source.mfraDone && !s.source.finalMoovDone
  }

  /** The tracks, read from the initialization when its first fragment comes. */
  function Entered(s: Core): Result<Setup> { if s.setup.initDone then Ok(s.setup) else CompleteInit(s.setup) }

  /** The reader while the fragment waits. */
  function Waits(s: Core, u: Setup, q: Queue, h: Hints, r: Source): Core { s.(setup := u, queue := q, hints := h, source := r) }

  /** The boxes among `bs` that go with the next segment, every byte of them. */
  function KeptBytes(bs: seq<TopBox>): bytes {
    if bs == [] then [] else (if Kept(bs[0]) then BoxBytes(bs[0]) else []) + KeptBytes(bs[1..])
  }

  predicate Kept(b: TopBox) { b.kind == EMSG || b.kind == FREE || b.kind == PRFT }

  /** What a parser makes of the `moof`, with the duration hints of the reader. */
  function ParsedFragment(s: Core, u: Setup, moof: bytes): Result<Fragment> {
    ParsedMoof(moof, u.video, u.audio, HintFor(s.hints.video, s.hints.videoScale, u.video),
               HintFor(s.hints.audio, s.hints.audioScale, u.audio))
  }

  /**
   * Every present data offset, counted from the start of the `moof`, is the position of the first byte of its run in the
   * body that begins at `at`, and the runs just fill that body.
   */
  predicate InPlace(f: Fragment, at: nat, length: nat) {
    && (forall i | 0 <= i < |f.runs| ::
          f.runs[i].sourceDataOffset.Some? ==> f.runs[i].sourceDataOffset.value == at + RunsSize(f.runs[..i]))
    && RunsSize(f.runs) == length
  }

  /** `g` is the fragment with its bytes in the buffer, run after run. */
  ghost predicate Holding(g: Fragment, f: Fragment, payload: bytes, body: bytes) {
    && g.(runs := f.runs, payloadStart := f.payloadStart, payloadLen := f.payloadLen) == f && |g.runs| == |f.runs|
    && (forall i | 0 <= i < |f.runs| :: g.runs[i] == f.runs[i].(payloadOffset := RunsSize(f.runs[..i])))
    && g.payloadStart + g.payloadLen <= |payload| && FragmentBytes(payload, g) == body
  }

  /** `w` has the queues of `q`, and behind them the fragment. */
  ghost predicate Gained(w: Queue, q: Queue, u: Setup, f: Fragment, body: bytes) {
    exists g: Fragment ::
      && Holding(g, f, w.payload, body) && w.payload == q.payload + body
      && (if f.trackId == u.video.id then w.video == q.video + [g] && w.audio == q.audio
          else w.audio == q.audio + [g] && w.video == q.video)
      && w.completed == q.completed && w.lastVideoEnd == q.lastVideoEnd && w.sequence == q.sequence
  }

  // ----- the three parts -----

  lemma MoofStep(s: Core, u: Setup, moof: TopBox, f: Fragment, q: Queue, h: Hints)
    requires ReadyForMoof(s) && Entered(s) == Ok(u) && u.initDone
    requires Sized(moof) && moof.kind == MOOF && |BoxBytes(moof)| <= I32_MAX
    requires ParsedFragment(s, u, BoxBytes(moof)) == Ok(f) && ResolvePrevious(s.queue, s.hints, u, f) == Ok((q, h))
    ensures exists h2: Hints ::
              BoxStep(s, moof)
              == Ok(Progress(Waits(s, u, q, h2, s.source.(moof := BoxBytes(moof), pending := Some(f), fromMoof := |BoxBytes(moof)|)), None))
  {
    hide CompleteInit, ParsedMoof, ResolvePrevious, Remember, BoxHead, HintFor, LastNonZeroDuration;
    var head := BoxHead(moof);
    assert [] + head == head;
    var begun := s.(box := BoxState(head, HeadSize(moof), MOOF, |moof.body|, MoofTarget), setup := u,
                    source := s.source.(moof := head, fromMoof := 0));
    assert Begun(s, moof) == Ok(begun);
    var last := if f.inferred then 0 else LastNonZeroDuration(RunSamples(f.runs));
    var h2 := Remember(h, u, f.trackId, last, f.timescale);
    assert BoxStep(s, moof)
      == Ok(Progress(Waits(s, u, q, h2, s.source.(moof := BoxBytes(moof), pending := Some(f), fromMoof := |BoxBytes(moof)|)), None));
  }

  /** What the boxes between leave behind. */
  function Passed(r: Source, bs: seq<TopBox>): Source {
    r.(fromMoof := r.fromMoof + |BoxesBytes(bs)|, prefix := r.prefix + KeptBytes(bs),
       prefixActive := r.prefixActive || exists b :: b in bs && Kept(b))
  }

  lemma BetweenStep(s: Core, b: TopBox)
    requires s.box == NO_BOX && s.setup.initDone && s.source.pending.Some? && !s.source.mfraDone && !s.source.finalMoovDone
    requires MayStandBetween(b)
    ensures BoxStep(s, b) == Ok(Progress(s.(source := Passed(s.source, [b])), None))
  {
    hide BoxHead, CompleteMoof, CompleteMdat, CompleteStyp;
    assert BoxesBytes([b]) == BoxBytes(b) + [] == BoxBytes(b);
    assert b in [b];
    if !Kept(b) {
      assert KeptBytes([b]) == [] + [] == [];
      assert s.source.prefix + [] == s.source.prefix;
    } else {
      assert KeptBytes([b]) == BoxBytes(b) + [] == BoxBytes(b);
      assert s.source.prefix + BoxHead(b) + b.body == s.source.prefix + BoxBytes(b);
    }
  }

  lemma OneBetween(s: Core, b: TopBox)
    requires s.box == NO_BOX && s.setup.initDone && s.source.pending.Some? && !s.source.mfraDone && !s.source.finalMoovDone
    requires MayStandBetween(b)
    ensures ByBytes(s, BoxBytes(b), false) == Idle(Reader(s.(source := Passed(s.source, [b])), []))
  {
    hide ByBytes, BoxStep, BoxBytes, Passed, ParserOk;
    BetweenStep(s, b);
    BoxReads(s, b);
    var m := s.(source := Passed(s.source, [b]));
    NoBytes(m);
    BeforeNothing(Idle(Reader(m, [])));
  }

  lemma PassedKeeps(r: Source, bs: seq<TopBox>)
    ensures var p := Passed(r, bs);
            p.pending == r.pending && p.mfraDone == r.mfraDone && p.finalMoovDone == r.finalMoovDone && (bs == [] ==> p == r)
  {
    assert r.prefix + [] == r.prefix;
  }

  lemma {:induction false} BetweenReads(s: Core, bs: seq<TopBox>)
    requires s.box == NO_BOX && s.setup.initDone && s.source.pending.Some? && !s.source.mfraDone && !s.source.finalMoovDone
    requires forall b | b in bs :: MayStandBetween(b)
    ensures ByBytes(s, BoxesBytes(bs), false) == Idle(Reader(s.(source := Passed(s.source, bs)), []))
    decreases |bs|
  {
    hide ByBytes, BoxBytes, Sized, Passed;
    PassedKeeps(s.source, bs);
    if bs == [] {
      NoBytes(s);
    } else {
      var b, rest := bs[0], bs[1..];
      assert b in bs && forall x | x in rest :: x in bs;
      OneBetween(s, b);
      var m := s.(source := Passed(s.source, [b]));
      PassedKeeps(s.source, [b]);
      BetweenReads(m, rest);
      ByBytesConcat(s, BoxBytes(b), BoxesBytes(rest), false);
      BeforeNothing(ByBytes(m, BoxesBytes(rest), false));
      PassedTwice(s.source, b, rest);
      assert [b] + rest == bs;
    }
  }

  lemma PassedTwice(r: Source, b: TopBox, rest: seq<TopBox>)
    ensures Passed(Passed(r, [b]), rest) == Passed(r, [b] + rest)
  {
    hide BoxBytes, Kept;
    var all := [b] + rest;
    assert all[0] == b && all[1..] == rest && [b][1..] == [];
    assert BoxesBytes([b]) == BoxBytes(b) + [] == BoxBytes(b);
    assert KeptBytes([b]) == (if Kept(b) then BoxBytes(b) else []) + [];
    assert r.prefix + KeptBytes([b]) + KeptBytes(rest) == r.prefix + KeptBytes(all);
    SomeKept(b, rest);
  }

  lemma SomeKept(b: TopBox, rest: seq<TopBox>)
    ensures (exists x :: x in [b] + rest && Kept(x)) <==> (exists x :: x in [b] && Kept(x)) || (exists x :: x in rest && Kept(x))
  {
    hide Kept;
    var all := [b] + rest;
    if exists x :: x in rest && Kept(x) {
      var x :| x in rest && Kept(x);
      assert x in all;
    }
    if exists x :: x in [b] && Kept(x) { assert b in all; }
  }

  /** The reader at the end of the `mdat` body. */
  function Poured(s: Core, mdat: TopBox): Core {
    s.(box := BoxState(BoxHead(mdat), HeadSize(mdat), MDAT, 0, PayloadTarget),
       source := s.source.(fromMoof := s.source.fromMoof + HeadSize(mdat)),
       queue := s.queue.(payload := s.queue.payload + mdat.body, payloadStart := |s.queue.payload|,
                         log := s.queue.log.(open := mdat.body)))
  }

  lemma MdatStep(s: Core, mdat: TopBox)
    requires s.box == NO_BOX && s.setup.initDone && s.source.pending.Some? && !s.source.mfraDone && !s.source.finalMoovDone
    requires Sized(mdat) && mdat.kind == MDAT && |BoxBytes(mdat)| <= I32_MAX
    ensures BoxStep(s, mdat) == FinishBox(Poured(s, mdat))
  {
    hide BoxHead, FinishBox;
    assert [] + mdat.body == mdat.body;
    assert Begun(s, mdat).Ok?;
  }

  lemma Attached(f: Fragment, start: nat, length: nat, fromMoof: int, at: nat)
    requires FragmentOk(f) && at == fromMoof
    ensures match AttachPayload(f, start, length, fromMoof)
            case Ok(g) => InPlace(f, at, length) && g.(runs := f.runs, payloadStart := f.payloadStart, payloadLen := f.payloadLen) == f
                          && g.payloadStart == start && g.payloadLen == length && g.runs == LaidOut(f.runs)
            case Err(e) => !InPlace(f, at, length) && e in {NonContiguousMdat, MdatSizeMismatch}
  {
    hide LaidOut, FragmentOk, RunsSize;
  }

  lemma JoinsQueue(q: Queue, u: Setup, g: Fragment)
    requires g.trackId == u.video.id || (u.audio.id != 0 && g.trackId == u.audio.id)
    ensures Enqueue(q, u, g).Ok?
    ensures var w := Enqueue(q, u, g).value;
            && (if g.trackId == u.video.id then w.video == q.video + [g] && w.audio == q.audio
                else w.audio == q.audio + [g] && w.video == q.video)
            && w.payload == q.payload && w.completed == q.completed && w.lastVideoEnd == q.lastVideoEnd
            && w.sequence == q.sequence
  {
    hide Accept;
  }

  /** The `mdat` joins the waiting fragment to its queue, or is refused. */
  lemma PourAttaches(s: Core, mdat: TopBox, f: Fragment, at: nat)
    requires s.source.pending == Some(f) && PendingOk(f, s.setup) && at == s.source.fromMoof + HeadSize(mdat)
    ensures match CompleteMdat(Poured(s, mdat))
            case Err(e) => !InPlace(f, at, |mdat.body|) && e in {NonContiguousMdat, MdatSizeMismatch}
            case Ok(w) =>
              && InPlace(f, at, |mdat.body|) && Gained(w.queue, s.queue, s.setup, f, mdat.body)
              && w.setup == s.setup && w.config == s.config && w.hints == s.hints
              && w.source == s.source.(pending := None, fromMoof := 0, moof := [])
  {
    hide AttachPayload, Enqueue, InPlace, FragmentOk, Holding;
    var t := Poured(s, mdat);
    var start, length := |s.queue.payload|, |mdat.body|;
    Attached(f, start, length, t.source.fromMoof, at);
    var g := AttachPayload(f, start, length, t.source.fromMoof);
    if g.Ok? {
      JoinsQueue(t.queue, s.setup, g.value);
      Holds(g.value, f, s.queue.payload, mdat.body);
    }
  }

  lemma Holds(g: Fragment, f: Fragment, payload: bytes, body: bytes)
    requires g.(runs := f.runs, payloadStart := f.payloadStart, payloadLen := f.payloadLen) == f
    requires g.payloadStart == |payload| && g.payloadLen == |body| && g.runs == LaidOut(f.runs)
    ensures Holding(g, f, payload + body, body)
  {
    hide LaidOut, RunsSize;
    LaidOutFacts(f.runs);
    assert (payload + body)[|payload|..|payload| + |body|] == body;
  }

  // ----- the whole fragment -----

  /** The bytes from the `moof` to the end of the `mdat`. */
  function FragmentStream(moof: TopBox, between: seq<TopBox>, mdat: TopBox): bytes {
    BoxBytes(moof) + BoxesBytes(between) + BoxBytes(mdat)
  }

  /** Where the body of the `mdat` begins, counted from the first byte of the `moof`. */
  function BodyStart(moof: TopBox, between: seq<TopBox>, mdat: TopBox): nat {
    |FragmentStream(moof, between, mdat)| - |mdat.body|
  }

  /** Everything up to the body is read without a segment or an error. */
  lemma UpToMdat(s: Core, u: Setup, moof: TopBox, between: seq<TopBox>, f: Fragment, q: Queue, h: Hints) returns (w: Core)
    requires ReadyForMoof(s) && Entered(s) == Ok(u) && u.initDone
    requires Sized(moof) && moof.kind == MOOF && |BoxBytes(moof)| <= I32_MAX
    requires forall b | b in between :: MayStandBetween(b)
    requires ParsedFragment(s, u, BoxBytes(moof)) == Ok(f) && ResolvePrevious(s.queue, s.hints, u, f) == Ok((q, h))
    ensures w.box == NO_BOX && w.setup == u && w.queue == q && w.config == s.config
    ensures w.source == s.source.(moof := BoxBytes(moof), pending := Some(f),
                                  fromMoof := |BoxBytes(moof)| + |BoxesBytes(between)|,
                                  prefix := s.source.prefix + KeptBytes(between), prefixActive := w.source.prefixActive)
    ensures w.source.prefixActive <==> s.source.prefixActive || exists b :: b in between && Kept(b)
    ensures ByBytes(s, BoxBytes(moof) + BoxesBytes(between), false) == Idle(Reader(w, []))
  {
    hide ByBytes, BoxStep, BoxBytes, Entered, ParsedFragment, ResolvePrevious, Sized;
    MoofStep(s, u, moof, f, q, h);
    var h2: Hints :|
      BoxStep(s, moof)
      == Ok(Progress(Waits(s, u, q, h2, s.source.(moof := BoxBytes(moof), pending := Some(f), fromMoof := |BoxBytes(moof)|)), None));
    var m := Waits(s, u, q, h2, s.source.(moof := BoxBytes(moof), pending := Some(f), fromMoof := |BoxBytes(moof)|));
    BoxReads(s, moof);
    NoBytes(m);
    BeforeNothing(Idle(Reader(m, [])));
    BetweenReads(m, between);
    w := m.(source := Passed(m.source, between));
    ByBytesConcat(s, BoxBytes(moof), BoxesBytes(between), false);
    BeforeNothing(Idle(Reader(w, [])));
  }

  /** The fragment's track is known. */
  lemma FragmentBelongs(s: Core, u: Setup, moof: bytes)
    ensures ParsedFragment(s, u, moof).Ok? ==> PendingOk(ParsedFragment(s, u, moof).value, u)
  {
    hide ParsedMoof, PendingOk, MoofFragment;
    var t := s.(setup := u, source := s.source.(moof := moof));
    MoofFragmentOk(t);
    SameFragment(t);
  }

  lemma SameFragment(t: Core)
    ensures MoofFragment(t) == ParsedFragment(t, t.setup, t.source.moof)
  {}

  /**
   * Between fragments, the bytes of a `moof` that parses, of any boxes that may follow it and of an `mdat` queue that
   * fragment, and whatever is due is built from there, if and only if each data offset it has is where its run begins in
   * the stream and the runs just fill the `mdat`; otherwise the stream is refused.
   */
  lemma FragmentAccepted(s: Core, u: Setup, moof: TopBox, between: seq<TopBox>, mdat: TopBox, f: Fragment, q: Queue, h: Hints)
    requires ReadyForMoof(s) && Entered(s) == Ok(u) && u.initDone
    requires Sized(moof) && moof.kind == MOOF && |BoxBytes(moof)| <= I32_MAX
    requires forall b | b in between :: MayStandBetween(b)
    requires Sized(mdat) && mdat.kind == MDAT && |BoxBytes(mdat)| <= I32_MAX
    requires ParsedFragment(s, u, BoxBytes(moof)) == Ok(f) && ResolvePrevious(s.queue, s.hints, u, f) == Ok((q, h))
    ensures var o := ByBytes(s, FragmentStream(moof, between, mdat), false);
            if InPlace(f, BodyStart(moof, between, mdat), |mdat.body|) then
              exists w: Core ::
                && w.box == NO_BOX && w.setup == u && w.config == s.config && Gained(w.queue, q, u, f, mdat.body)
                && w.source.prefix == s.source.prefix + KeptBytes(between) && w.source.firstStyp == s.source.firstStyp
                && (w.source.prefixActive <==> s.source.prefixActive || exists b :: b in between && Kept(b))
                && ReadyForMoof(w) && o == ByBytes(w, [], true)
            else o == Fail(NonContiguousMdat) || o == Fail(MdatSizeMismatch)
  {
    hide ByBytes, BoxStep, BoxBytes, Entered, ParsedFragment, ResolvePrevious, Sized, InPlace, Gained, PendingOk, CompleteMdat,
      MayStandBetween, KeptBytes, BoxesBytes;
    var m := UpToMdat(s, u, moof, between, f, q, h);
    FragmentBelongs(s, u, BoxBytes(moof));
    MdatStep(m, mdat);
    BoxReads(m, mdat);
    ByBytesConcat(s, BoxBytes(moof) + BoxesBytes(between), BoxBytes(mdat), false);
    BeforeNothing(ByBytes(m, BoxBytes(mdat), false));
    assert |FragmentStream(moof, between, mdat)| == |BoxBytes(moof)| + |BoxesBytes(between)| + HeadSize(mdat) + |mdat.body| by {
      SizeOf(mdat);
    }
    PourAttaches(m, mdat, f, BodyStart(moof, between, mdat));
    MdatFinish(Poured(m, mdat));
    if CompleteMdat(Poured(m, mdat)).Ok? {
      var w := CompleteMdat(Poured(m, mdat)).value.(box := NO_BOX);
      assert ReadyForMoof(w);
    }
  }

  lemma SizeOf(b: TopBox)
    ensures |BoxBytes(b)| == HeadSize(b) + |b.body|
  {}

  /** Finishing an `mdat` is building from what it queued. */
  lemma MdatFinish(s: Core)
    requires s.box.kind == MDAT
    ensures FinishBox(s).Ok? ==> ParserOk(FinishBox(s).value.core.box)
    ensures match CompleteMdat(s)
            case Err(e) => RunOn(FinishBox(s), []) == Fail(e)
            case Ok(w) => RunOn(FinishBox(s), []) == ByBytes(w.(box := NO_BOX), [], true)
  {
    hide CompleteMdat, TryBuild, CompleteMoof, CompleteStyp, ByBytes;
    if CompleteMdat(s).Ok? {
      var w := CompleteMdat(s).value;
      TryBuildIgnoresBox(w, NO_BOX);
      BuildsFirst(w.(box := NO_BOX));
    }
  }

  lemma BuildsFirst(s: Core)
    requires ParserOk(s.box)
    ensures TryBuild(s).Ok? ==> ParserOk(TryBuild(s).value.core.box)
    ensures ByBytes(s, [], true) == RunOn(TryBuild(s), [])
  {
    hide TryBuild;
    TryBuildKeeps(s);
    if TryBuild(s).Ok? && TryBuild(s).value.segment.None? { BeforeNothing(ByBytes(s, [], false)); }
  }
}
