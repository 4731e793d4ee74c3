/**
 * What surrounds the fragments of a stream: the initialization, the first `styp`, and the boxes that go with the next
 * segment. The stream is any list of boxes, those up to the first `styp` or `moof` being the initialization.
 */
module Mp4Envelopes {
  import opened Bytes
  import opened Mp4Types
  import opened Mp4Parse
  import opened Mp4Write
  import opened Mp4Build
  import opened Mp4Reader
  import opened Mp4Runs
  import opened Mp4Boxes
  import opened Mp4Accepts

  predicate AllSized(bs: seq<TopBox>) { forall i :: 0 <= i < |bs| ==> Sized(bs[i]) }

  predicate EndsInit(b: TopBox) { b.kind == STYP || b.kind == MOOF }

  predicate HasKind(bs: seq<TopBox>, kind: u32) { exists i :: 0 <= i < |bs| && bs[i].kind == kind }

  /** Inside a fragment: of the `moof` and `mdat` boxes, the last is a `moof`. */
  predicate Inside(bs: seq<TopBox>) {
    bs != [] && var last := bs[|bs| - 1]; last.kind == MOOF || (last.kind != MDAT && Inside(bs[..|bs| - 1]))
  }

  /** A box that may come next: fragments are whole, and the stream ends with one `mfra` and one `moov`. */
  predicate Legal(bs: seq<TopBox>, b: TopBox) {
    if b.kind == MOOV then HasKind(bs, MFRA) && !HasKind(bs, MOOV)
    else
      && !HasKind(bs, MFRA) && b.kind in {MOOF, MDAT, SIDX, STYP, EMSG, FREE, PRFT, MFRA}
      && (b.kind == MDAT ==> Inside(bs)) && (b.kind in {MOOF, STYP, MFRA} ==> !Inside(bs))
  }

  predicate AllLegal(bs: seq<TopBox>) { forall i :: 0 <= i < |bs| ==> Legal(bs[..i], bs[i]) }

  function FirstStyp(bs: seq<TopBox>): bytes {
    if bs == [] then [] else if bs[0].kind == STYP then BoxBytes(bs[0]) else FirstStyp(bs[1..])
  }

  /** The segment is `head` and then its `moof`. */
  predicate Carries(segment: Segment, head: bytes) {
    && |head| + 8 <= |segment.data| && segment.data[..|head|] == head
    && ReadBe32(segment.data, |head| + 4) == MOOF
  }

  /** What the reader keeps for the next segment. */
  predicate Around(s: Core, ms: seq<TopBox>, n: nat) {
    && n <= |ms| && s.source.firstStyp == FirstStyp(ms) && s.source.prefix == KeptBytes(ms[n..])
    && (!s.source.prefixActive ==> s.source.prefix == [])
  }

  /** What the reader knows of the order of the boxes. */
  predicate InOrder(r: Source, ms: seq<TopBox>) {
    && AllLegal(ms) && (r.pending.Some? <==> Inside(ms)) && (r.mfraDone <==> HasKind(ms, MFRA))
    && (r.finalMoovDone <==> HasKind(ms, MOOV))
  }

  /** The reader after the initialization `lead` and the boxes `ms`, the last segment having been built after `n` of them. */
  ghost predicate Stands(s: Core, lead: seq<TopBox>, ms: seq<TopBox>, n: nat) {
    && s.box == NO_BOX && s.setup.init == BoxesBytes(lead) && Around(s, ms, n) && InOrder(s.source, ms)
    && (s.setup.initDone <==> ms != [])
    && (if ms == [] then s.setup.moovCompleted <==> HasKind(lead, MOOV)
        else HasKind(lead, MOOV) && s.setup.newInit == Some(BoxesBytes(lead))
             && ParseInitTracks(BoxesBytes(lead)) == Ok((s.setup.video, s.setup.audio)))
  }

  /** A segment with the first `styp` of the `to` boxes before it, and the boxes kept since `from`. */
  predicate BuiltAfter(segment: Segment, from: nat, to: nat, all: seq<TopBox>) {
    from <= to <= |all| && Carries(segment, FirstStyp(all[..to]) + KeptBytes(all[from..to]))
  }

  function MarkBefore(ns: seq<nat>, n: nat, i: nat): nat
    requires i <= |ns|
  {
    if i == 0 then n else ns[i - 1]
  }

  /** Segment `i` was built after `ns[i]` boxes. */
  ghost predicate Marks(segments: seq<Segment>, ns: seq<nat>, n: nat, all: seq<TopBox>) {
    |ns| == |segments| && forall i :: 0 <= i < |ns| ==> BuiltAfter(segments[i], MarkBefore(ns, n, i), ns[i], all)
  }

  function LastMark(ns: seq<nat>, n: nat): nat { if ns == [] then n else ns[|ns| - 1] }

  // ----- lists of boxes -----

  lemma {:induction false} BoxesAppend(bs: seq<TopBox>, more: seq<TopBox>)
    ensures BoxesBytes(bs + more) == BoxesBytes(bs) + BoxesBytes(more)
  {
    hide BoxBytes;
    if bs == [] {
      assert bs + more == more;
    } else {
      assert (bs + more)[1..] == bs[1..] + more;
      BoxesAppend(bs[1..], more);
    }
  }

  lemma {:induction false} KeptAppend(bs: seq<TopBox>, more: seq<TopBox>)
    ensures KeptBytes(bs + more) == KeptBytes(bs) + KeptBytes(more)
  {
    hide BoxBytes;
    if bs == [] {
      assert bs + more == more;
    } else {
      assert (bs + more)[1..] == bs[1..] + more;
      KeptAppend(bs[1..], more);
    }
  }

  lemma {:induction false} StypAppend(bs: seq<TopBox>, b: TopBox)
    ensures FirstStyp(bs + [b]) == if FirstStyp(bs) == [] && b.kind == STYP then BoxBytes(b) else FirstStyp(bs)
  {
    if bs == [] {
      assert [] + [b] == [b] && [b][1..] == [];
    } else {
      assert (bs + [b])[1..] == bs[1..] + [b];
      StypAppend(bs[1..], b);
    }
  }

  lemma OneBoxBytes(b: TopBox)
    ensures BoxesBytes([b]) == BoxBytes(b)
    ensures KeptBytes([b]) == if Kept(b) then BoxBytes(b) else []
  {
    hide BoxBytes;
    assert [b][1..] == [];
    assert BoxBytes(b) + [] == BoxBytes(b);
  }

  lemma KindAppend(bs: seq<TopBox>, b: TopBox, kind: u32)
    ensures HasKind(bs + [b], kind) == (HasKind(bs, kind) || b.kind == kind)
  {
    assert (bs + [b])[|bs|] == b;
    if HasKind(bs, kind) {
      var i :| 0 <= i < |bs| && bs[i].kind == kind;
      assert (bs + [b])[i].kind == kind;
    }
  }

  lemma LegalAppend(bs: seq<TopBox>, b: TopBox)
    ensures AllLegal(bs + [b]) == (AllLegal(bs) && Legal(bs, b))
    ensures Inside(bs + [b]) == (b.kind == MOOF || (b.kind != MDAT && Inside(bs)))
  {
    hide Legal;
    var all := bs + [b];
    assert all[..|all| - 1] == bs && all[|bs|] == b;
    if AllLegal(all) {
      forall i | 0 <= i < |bs| ensures Legal(bs[..i], bs[i]) { assert all[..i] == bs[..i] && all[i] == bs[i]; }
    }
    if AllLegal(bs) && Legal(bs, b) {
      forall i | 0 <= i < |all| ensures Legal(all[..i], all[i]) {
        if i < |bs| { assert all[..i] == bs[..i] && all[i] == bs[i]; }
      }
    }
  }

  // ----- the initialization -----

  /** A box before the first `styp` or `moof` is kept, or refused. */
  lemma LeadStep(s: Core, b: TopBox)
    requires s.box == NO_BOX && !s.setup.initDone && Sized(b) && !EndsInit(b)
    ensures BoxStep(s, b).Ok? ==>
              BoxStep(s, b).value
              == Progress(s.(setup := s.setup.(init := s.setup.init + BoxBytes(b),
                                               moovCompleted := s.setup.moovCompleted || b.kind == MOOV)), None)
  {
    hide BoxHead, CompleteMoof, CompleteMdat, CompleteStyp, CompleteInit;
    assert s.setup.init + BoxHead(b) + b.body == s.setup.init + BoxBytes(b);
  }

  lemma {:induction false} LeadRuns(s: Core, lead: seq<TopBox>, more: seq<TopBox>)
    requires Stands(s, lead, [], 0) && AllSized(more) && forall i :: 0 <= i < |more| ==> !EndsInit(more[i])
    ensures var o := ByBytes(s, BoxesBytes(more), false);
            && o.segments == []
            && (o.end.Ok? ==> o.end.value.deferred == [] && Stands(o.end.value.core, lead + more, [], 0))
    decreases |more|
  {
    hide ByBytes, BoxStep, BoxBytes, Sized, ParserOk;
    if more == [] {
      NoBytesLeft(s);
      assert lead + [] == lead;
    } else {
      var b := more[0];
      NothingRead(s);
      BoxReads(s, b);
      ByBytesConcat(s, BoxBytes(b), BoxesBytes(more[1..]), false);
      LeadStep(s, b);
      if BoxStep(s, b).Ok? {
        var t := BoxStep(s, b).value.core;
        StandsInit(s, lead, b, t);
        RunsQuietly(t);
        BeforeNothing(ByBytes(t, BoxesBytes(more[1..]), false));
        LeadRuns(t, lead + [b], more[1..]);
        assert lead + [b] + more[1..] == lead + more;
      }
    }
  }

  lemma StandsInit(s: Core, lead: seq<TopBox>, b: TopBox, t: Core)
    requires Stands(s, lead, [], 0)
    requires t == s.(setup := s.setup.(init := s.setup.init + BoxBytes(b), moovCompleted := s.setup.moovCompleted || b.kind == MOOV))
    ensures Stands(t, lead + [b], [], 0)
  {
    hide BoxBytes;
    BoxesAppend(lead, [b]);
    OneBoxBytes(b);
    KindAppend(lead, b, MOOV);
  }

  lemma NothingRead(s: Core)
    requires s.box == NO_BOX
    ensures ParserOk(s.box)
  {}

  lemma NoBytesLeft(s: Core)
    requires s.box == NO_BOX
    ensures ByBytes(s, BoxesBytes([]), false) == Idle(Reader(s, []))
  {
    NoBytes(s);
  }

  /** Nothing more is read after a quiet box. */
  lemma RunsQuietly(t: Core)
    requires t.box == NO_BOX
    ensures ParserOk(t.box) && RunOn(Ok(Progress(t, None)), []) == Idle(Reader(t, []))
  {
    NoBytes(t);
    BeforeNothing(Idle(Reader(t, [])));
  }

  // ----- boxes after the initialization -----

  /** The first `styp` or `moof` is read as if the initialization had been complete before. */
  lemma EnterStep(s: Core, b: TopBox)
    requires s.box == NO_BOX && !s.setup.initDone && Sized(b) && EndsInit(b)
    ensures match CompleteInit(s.setup)
            case Err(e) => BoxStep(s, b).Err?
            case Ok(u) => BoxStep(s, b) == BoxStep(s.(setup := u), b)
  {
    hide BoxHead, FinishBox, WriteBoxData, BeginMedia, ParseInitTracks;
  }

  /** What one box does to the surroundings. */
  predicate Surrounds(s: Core, b: TopBox, t: Core) {
    && t.box == NO_BOX && t.setup == s.setup
    && t.source.firstStyp == (if s.source.firstStyp == [] && b.kind == STYP then BoxBytes(b) else s.source.firstStyp)
    && t.source.prefix == s.source.prefix + (if Kept(b) then BoxBytes(b) else [])
    && t.source.prefixActive == (s.source.prefixActive || Kept(b))
    && Admits(s.source, b)
    && (t.source.pending.Some? <==> b.kind == MOOF || (b.kind != MDAT && s.source.pending.Some?))
    && (t.source.mfraDone <==> s.source.mfraDone || b.kind == MFRA)
    && (t.source.finalMoovDone <==> s.source.finalMoovDone || b.kind == MOOV)
  }

  /** A box the reader lets come next. */
  predicate Admits(r: Source, b: TopBox) {
    if b.kind == MOOV then r.mfraDone && !r.finalMoovDone && r.pending.None?
    else
      && !r.mfraDone && !r.finalMoovDone && b.kind in {MOOF, MDAT, SIDX, STYP, EMSG, FREE, PRFT, MFRA}
      && (b.kind == MDAT ==> r.pending.Some?) && (b.kind in {MOOF, STYP, MFRA} ==> r.pending.None?)
  }

  /** The reader before it acts on a whole box. */
  lemma BegunMedia(s: Core, b: TopBox)
    requires s.box == NO_BOX && s.setup.initDone && Sized(b) && Begun(s, b).Ok?
    ensures var t := Filled(Begun(s, b).value, b.body);
            && t.box.kind == b.kind && t.setup == s.setup && Admits(s.source, b) && t.source.pending == s.source.pending
            && t.source.mfraDone == s.source.mfraDone && t.source.finalMoovDone == s.source.finalMoovDone
            && t.source.firstStyp == s.source.firstStyp && (b.kind == STYP ==> t.source.styp == BoxBytes(b))
            && t.source.prefix == s.source.prefix + (if Kept(b) then BoxBytes(b) else [])
            && t.source.prefixActive == (s.source.prefixActive || Kept(b))
  {
    hide BoxHead;
    assert [] + BoxHead(b) + b.body == BoxBytes(b);
    assert s.source.prefix + [] == s.source.prefix;
    assert s.source.prefix + BoxHead(b) + b.body == s.source.prefix + BoxBytes(b);
  }

  lemma FinishedMedia(s: Core)
    requires s.box.kind != MDAT && s.setup.initDone && FinishBox(s).Ok?
    ensures var p := FinishBox(s).value; var r, q := s.source, p.core.source;
            && p.segment == None && p.core.box == NO_BOX && p.core.setup == s.setup
            && q.firstStyp == (if s.box.kind == STYP && r.firstStyp == [] && r.styp != [] then r.styp else r.firstStyp)
            && q.prefix == r.prefix && q.prefixActive == r.prefixActive
            && (q.pending.Some? <==> s.box.kind == MOOF || r.pending.Some?)
            && (q.mfraDone <==> r.mfraDone || s.box.kind == MFRA) && (q.finalMoovDone <==> r.finalMoovDone || s.box.kind == MOOV)
  {
    hide CompleteMoof, CompleteMdat;
    CompleteMoofSource(s);
  }

  lemma MediaStep(s: Core, b: TopBox)
    requires s.box == NO_BOX && s.setup.initDone && Sized(b) && b.kind != MDAT
    ensures BoxStep(s, b).Ok? ==> BoxStep(s, b).value.segment == None && Surrounds(s, b, BoxStep(s, b).value.core)
  {
    hide BoxHead, FinishBox, Begun, Filled, Admits;
    if BoxStep(s, b).Ok? {
      BegunMedia(s, b);
      FinishedMedia(Filled(Begun(s, b).value, b.body));
    }
  }

  lemma CompleteMoofSource(s: Core)
    ensures CompleteMoof(s).Ok? ==>
              var t := CompleteMoof(s).value;
              && t.setup == s.setup && t.source.firstStyp == s.source.firstStyp && t.source.prefix == s.source.prefix
              && t.source.prefixActive == s.source.prefixActive && t.source.pending.Some?
              && t.source.mfraDone == s.source.mfraDone && t.source.finalMoovDone == s.source.finalMoovDone
  {
    hide MoofFragment, ResolvePrevious, Remember;
  }

  /** An `mdat` is refused, or the reader builds from where it leaves it. */
  lemma MdatMedia(s: Core, b: TopBox) returns (w: Option<Core>)
    requires s.box == NO_BOX && s.setup.initDone && Sized(b) && b.kind == MDAT
    ensures BoxStep(s, b).Ok? ==> ParserOk(BoxStep(s, b).value.core.box)
    ensures w.None? ==> exists e: Error :: RunOn(BoxStep(s, b), []) == Fail(e)
    ensures w.Some? ==> Surrounds(s, b, w.value) && ParserOk(w.value.box) && RunOn(BoxStep(s, b), []) == ByBytes(w.value, [], true)
  {
    hide FinishBox, BeginMedia, ByBytes, RunOn, Admits;
    StepsReadable(s, b);
    if Begun(s, b).Err? {
      assert BoxStep(s, b).Err?;
      Refused(BoxStep(s, b));
      w := None;
    } else {
      var t := Filled(Begun(s, b).value, b.body);
      BegunMedia(s, b);
      MdatFinish(t);
      CompleteMdatSource(t);
      if CompleteMdat(t).Err? {
        assert RunOn(BoxStep(s, b), []) == Fail(CompleteMdat(t).error);
        w := None;
      } else {
        w := Some(CompleteMdat(t).value.(box := NO_BOX));
        assert s.source.prefix + [] == s.source.prefix;
      }
    }
  }

  lemma Refused(step: Result<Progress>)
    requires step.Err?
    ensures RunOn(step, []) == Fail(step.error)
  {}

  lemma CompleteMdatSource(s: Core)
    ensures CompleteMdat(s).Ok? ==>
              var t := CompleteMdat(s).value;
              && t.setup == s.setup && t.source.firstStyp == s.source.firstStyp && t.source.prefix == s.source.prefix
              && t.source.prefixActive == s.source.prefixActive && t.source.pending.None?
              && t.source.mfraDone == s.source.mfraDone && t.source.finalMoovDone == s.source.finalMoovDone
  {
    hide AttachPayload, Enqueue;
  }

  // ----- building -----

  lemma SegmentStarts(e: Envelope, video: seq<Fragment>, audio: seq<Fragment>, payload: bytes)
    requires video != []
    ensures SegmentOf(e, video, audio, payload).Ok? ==> Carries(SegmentOf(e, video, audio, payload).value, e.styp + e.prefix)
  {
    hide Mergeable, AssignOffsets, QueuePayloadLength, MoofSize, WriteTraf, SegmentTimes, CollectPayload, MdatHeader, Header,
         ReadBe32, Mfhd;
    if SegmentOf(e, video, audio, payload).Ok? {
      var v := AssignOffsets(video, 0);
      var a := AssignOffsets(audio, QueuePayloadLength(video));
      var length := QueuePayloadLength(video) + QueuePayloadLength(audio);
      var size := MoofSize(v, a);
      var moof := MoofBytes(e, v, a, size, size + MdatHeaderSize(length)).value;
      var mdat := MdatHeader(length, MdatHeaderSize(length));
      var body := CollectPayload(payload, video + audio).value;
      var d := SegmentOf(e, video, audio, payload).value.data;
      assert d == (e.styp + e.prefix) + moof + mdat + body;
      HeaderFields(size, MOOF);
      StartsWithMoof(e.styp + e.prefix, Header(size, MOOF), moof, mdat + body, d);
    }
  }

  lemma StartsWithMoof(head: bytes, first: bytes, moof: bytes, rest: bytes, d: bytes)
    requires |first| == 8 && ReadBe32(first, 4) == MOOF && first <= moof && d == head + moof + rest
    ensures |head| + 8 <= |d| && d[..|head|] == head && ReadBe32(d, |head| + 4) == MOOF
  {
    assert d[|head| + 4..|head| + 8] == first[4..8];
    assert d[|head| + 4] == first[4] && d[|head| + 5] == first[5] && d[|head| + 6] == first[6] && d[|head| + 7] == first[7];
  }

  lemma BuiltStarts(s: Core)
    requires !s.source.prefixActive ==> s.source.prefix == []
    ensures match TryBuild(s)
            case Err(_) => true
            case Ok(p) => p.segment.Some? ==>
              && Carries(p.segment.value, s.source.firstStyp + s.source.prefix)
              && p.core.setup == s.setup && p.core.box == s.box && p.core.source == s.source.(prefix := [], prefixActive := false)
  {
    hide ChooseCut, SegmentOf, Reclaim, Drop, Carries;
    var q, e := s.queue, EnvelopeOf(s);
    if TryBuild(s).Ok? && TryBuild(s).value.segment.Some? {
      var cut := ChooseCut(q, s.config, s.setup).value;
      SegmentStarts(e, q.video[..cut.v], cut.audio[..cut.a], q.payload);
    }
  }

  /** Segments built one after the other: the first takes what was kept, the others nothing. */
  lemma {:induction false} Emits(s: Core)
    requires s.box == NO_BOX && (!s.source.prefixActive ==> s.source.prefix == [])
    ensures var o := ByBytes(s, [], true);
            && (forall i :: 0 <= i < |o.segments| ==>
                  Carries(o.segments[i], s.source.firstStyp + (if i == 0 then s.source.prefix else [])))
            && (o.end.Ok? ==>
                  var t := o.end.value.core;
                  && o.end.value.deferred == [] && t.box == NO_BOX && t.setup == s.setup
                  && t.source == if o.segments == [] then s.source else s.source.(prefix := [], prefixActive := false))
    decreases |s.queue.video|
  {
    hide TryBuild, Carries;
    TryBuildKeeps(s);
    BuiltStarts(s);
    if TryBuild(s).Ok? && TryBuild(s).value.segment.Some? {
      Emits(TryBuild(s).value.core);
    }
  }

  // ----- one box, and all of them -----

  /** The reader and its segments after one more box. */
  ghost predicate Follows(o: Outcome, lead: seq<TopBox>, all: seq<TopBox>, n: nat, ns: seq<nat>) {
    && Marks(o.segments, ns, n, all)
    && (o.end.Ok? ==> o.end.value.deferred == [] && Stands(o.end.value.core, lead, all, LastMark(ns, n)))
  }

  lemma Entered(s: Core, lead: seq<TopBox>)
    requires Stands(s, lead, [], 0) && CompleteInit(s.setup).Ok?
    ensures var u := CompleteInit(s.setup).value;
            && u.initDone && HasKind(lead, MOOV) && u.init == BoxesBytes(lead) && u.newInit == Some(BoxesBytes(lead))
            && ParseInitTracks(BoxesBytes(lead)) == Ok((u.video, u.audio))
  {
    hide ParseInitTracks;
  }

  /** Between the step and the building: the reader stands behind the box, if it stood before it. */
  lemma Surrounded(s: Core, lead: seq<TopBox>, ms: seq<TopBox>, n: nat, b: TopBox, t: Core)
    requires Around(s, ms, n) && InOrder(s.source, ms)
    requires s.setup.initDone && HasKind(lead, MOOV) && s.setup.init == BoxesBytes(lead) && s.setup.newInit == Some(BoxesBytes(lead))
    requires ParseInitTracks(BoxesBytes(lead)) == Ok((s.setup.video, s.setup.audio))
    requires Surrounds(s, b, t)
    ensures Stands(t, lead, ms + [b], n)
  {
    hide BoxBytes, ParseInitTracks, BoxesBytes, KeptBytes, FirstStyp, HasKind, AllLegal, Inside;
    StypAppend(ms, b);
    LegalAppend(ms, b);
    KindAppend(ms, b, MFRA);
    KindAppend(ms, b, MOOV);
    assert (ms + [b])[n..] == ms[n..] + [b];
    KeptAppend(ms[n..], [b]);
    OneBoxBytes(b);
  }

  lemma Quiet(lead: seq<TopBox>, all: seq<TopBox>, n: nat, t: Core)
    requires Stands(t, lead, all, n)
    ensures Follows(Idle(Reader(t, [])), lead, all, n, [])
  {}

  lemma Failed(lead: seq<TopBox>, all: seq<TopBox>, n: nat, e: Error)
    ensures Follows(Fail(e), lead, all, n, [])
  {}

  /** The boxes after which the segments of one `mdat` were built: all at its end. */
  lemma Marked(lead: seq<TopBox>, all: seq<TopBox>, n: nat, w: Core) returns (ns: seq<nat>)
    requires Stands(w, lead, all, n)
    ensures Follows(ByBytes(w, [], true), lead, all, n, ns)
  {
    hide ByBytes, ParseInitTracks, BoxesBytes, FirstStyp, HasKind, Carries;
    Emits(w);
    var o := ByBytes(w, [], true);
    ns := seq(|o.segments|, i requires 0 <= i < |o.segments| => |all|);
    assert all[..|all|] == all && all[|all|..] == [] && all[|all|..|all|] == [] && all[n..|all|] == all[n..];
  }

  lemma OneBox(s: Core, lead: seq<TopBox>, ms: seq<TopBox>, n: nat, b: TopBox) returns (ns: seq<nat>)
    requires Stands(s, lead, ms, n) && Sized(b) && (ms == [] ==> EndsInit(b))
    ensures Follows(ByBytes(s, BoxBytes(b), false), lead, ms + [b], n, ns)
  {
    hide ByBytes, BoxStep, BoxBytes, Sized, Follows, Surrounds, CompleteInit, ParseInitTracks, HasKind, BoxesBytes, KeptBytes,
         FirstStyp;
    BoxReads(s, b);
    var t := s;
    if ms == [] {
      EnterStep(s, b);
      if CompleteInit(s.setup).Err? {
        Refused(BoxStep(s, b));
        Failed(lead, ms + [b], n, BoxStep(s, b).error);
        return [];
      }
      Entered(s, lead);
      t := s.(setup := CompleteInit(s.setup).value);
    }
    if b.kind == MDAT {
      var w := MdatMedia(t, b);
      if w.None? {
        var e: Error :| RunOn(BoxStep(t, b), []) == Fail(e);
        Failed(lead, ms + [b], n, e);
        return [];
      }
      Surrounded(t, lead, ms, n, b, w.value);
      ns := Marked(lead, ms + [b], n, w.value);
    } else if BoxStep(t, b).Err? {
      Refused(BoxStep(t, b));
      Failed(lead, ms + [b], n, BoxStep(t, b).error);
      return [];
    } else {
      MediaStep(t, b);
      var r := BoxStep(t, b).value.core;
      Surrounded(t, lead, ms, n, b, r);
      assert r.box == NO_BOX by { assert Stands(r, lead, ms + [b], n); }
      RunsQuietly(r);
      Quiet(lead, ms + [b], n, r);
      return [];
    }
  }

  lemma MarksGrow(segments: seq<Segment>, ns: seq<nat>, n: nat, front: seq<TopBox>, all: seq<TopBox>)
    requires Marks(segments, ns, n, front) && front <= all
    ensures Marks(segments, ns, n, all)
  {
    hide Carries, KeptBytes, FirstStyp;
    forall i | 0 <= i < |ns| ensures BuiltAfter(segments[i], MarkBefore(ns, n, i), ns[i], all) {
      var from := MarkBefore(ns, n, i);
      assert BuiltAfter(segments[i], from, ns[i], front);
      assert all[..ns[i]] == front[..ns[i]] && all[from..ns[i]] == front[from..ns[i]];
    }
  }

  lemma MarksJoin(a: seq<Segment>, ns: seq<nat>, n: nat, b: seq<Segment>, more: seq<nat>, all: seq<TopBox>)
    requires Marks(a, ns, n, all) && Marks(b, more, LastMark(ns, n), all)
    ensures Marks(a + b, ns + more, n, all) && LastMark(ns + more, n) == LastMark(more, LastMark(ns, n))
  {
    hide BuiltAfter;
    var ks, ss, m := ns + more, a + b, LastMark(ns, n);
    forall i | 0 <= i < |ks| ensures BuiltAfter(ss[i], MarkBefore(ks, n, i), ks[i], all) {
      if i < |ns| {
        assert BuiltAfter(a[i], MarkBefore(ns, n, i), ns[i], all);
      } else {
        assert BuiltAfter(b[i - |ns|], MarkBefore(more, m, i - |ns|), more[i - |ns|], all);
      }
    }
  }

  lemma {:induction false} MediaRuns(s: Core, lead: seq<TopBox>, ms: seq<TopBox>, n: nat, more: seq<TopBox>)
    returns (ns: seq<nat>)
    requires Stands(s, lead, ms, n) && AllSized(more) && (ms == [] && more != [] ==> EndsInit(more[0]))
    ensures Follows(ByBytes(s, BoxesBytes(more), false), lead, ms + more, n, ns)
    decreases |more|
  {
    hide ByBytes, BoxBytes, Sized, Stands, Marks;
    assert s.box == NO_BOX by { StandsStill(s, lead, ms, n); }
    if more == [] {
      NoBytesLeft(s);
      assert ms + more == ms;
      Quiet(lead, ms, n, s);
      ns := [];
    } else {
      var b, rest := more[0], more[1..];
      var first := OneBox(s, lead, ms, n, b);
      var o := ByBytes(s, BoxBytes(b), false);
      ByBytesConcat(s, BoxBytes(b), BoxesBytes(rest), false);
      assert ms + [b] + rest == ms + more;
      MarksGrow(o.segments, first, n, ms + [b], ms + more);
      if o.end.Err? {
        ns := first;
      } else {
        var m := LastMark(first, n);
        var behind := MediaRuns(o.end.value.core, lead, ms + [b], m, rest);
        MarksJoin(o.segments, first, n, ByBytes(o.end.value.core, BoxesBytes(rest), false).segments, behind, ms + more);
        ns := first + behind;
      }
    }
  }

  lemma StandsStill(s: Core, lead: seq<TopBox>, ms: seq<TopBox>, n: nat)
    requires Stands(s, lead, ms, n)
    ensures s.box == NO_BOX
  {}

  /**
   * A stream of boxes, read from its first byte: what comes before the first `styp` or `moof` is the initialization, from
   * which the tracks come and which holds the `moov`; segment `i`, built after `ns[i]` of the other boxes, begins with the
   * first `styp` among those and every `emsg`, `free` and `prft` since the segment before; what is kept now goes with the
   * next one.
   */
  lemma EnvelopesAreHistory(config: Config, lead: seq<TopBox>, media: seq<TopBox>) returns (ns: seq<nat>)
    requires AllSized(lead) && AllSized(media)
    requires (forall i :: 0 <= i < |lead| ==> !EndsInit(lead[i])) && (media != [] ==> EndsInit(media[0]))
    ensures var o := ByBytes(NewCore(config), BoxesBytes(lead + media), false);
            && Marks(o.segments, ns, 0, media)
            && (o.end.Ok? ==> Stands(o.end.value.core, lead, media, LastMark(ns, 0)))
  {
    hide ByBytes, Marks, Sized, Stands;
    var s := NewCore(config);
    assert Stands(s, [], [], 0) by { NewStands(config); }
    LeadRuns(s, [], lead);
    assert [] + lead == lead;
    BoxesAppend(lead, media);
    ByBytesConcat(s, BoxesBytes(lead), BoxesBytes(media), false);
    var o := ByBytes(s, BoxesBytes(lead), false);
    if o.end.Err? {
      ns := [];
      NoMarks(media);
    } else {
      ns := MediaRuns(o.end.value.core, lead, [], 0, media);
      assert [] + media == media;
      BeforeNothing(ByBytes(o.end.value.core, BoxesBytes(media), false));
    }
  }

  lemma NoMarks(all: seq<TopBox>)
    ensures Marks([], [], 0, all)
  {}

  lemma NewStands(config: Config)
    ensures Stands(NewCore(config), [], [], 0)
  {}

  // ----- which boxes may come next -----

  lemma {:induction false} EndedOutside(bs: seq<TopBox>)
    requires AllLegal(bs)
    ensures HasKind(bs, MFRA) ==> !Inside(bs)
    ensures HasKind(bs, MOOV) ==> HasKind(bs, MFRA)
  {
    if bs != [] {
      var front, last := bs[..|bs| - 1], bs[|bs| - 1];
      assert bs == front + [last];
      LegalAppend(front, last);
      KindAppend(front, last, MFRA);
      KindAppend(front, last, MOOV);
      EndedOutside(front);
    }
  }

  lemma AdmitsLegal(r: Source, ms: seq<TopBox>, b: TopBox)
    requires InOrder(r, ms)
    ensures Admits(r, b) == Legal(ms, b)
  {
    hide Inside, HasKind, AllLegal;
    EndedOutside(ms);
  }

  predicate Fits(b: TopBox) { b.kind == MOOF || b.kind == MDAT ==> |BoxBytes(b)| <= I32_MAX }

  lemma BegunIffAdmitted(s: Core, b: TopBox)
    requires s.box == NO_BOX && s.setup.initDone && Sized(b)
    ensures Begun(s, b).Ok? == (Admits(s.source, b) && Fits(b))
  {
    hide BoxHead;
  }

  lemma BegunIffInit(s: Core, b: TopBox)
    requires s.box == NO_BOX && !s.setup.initDone && Sized(b)
    ensures !EndsInit(b) ==> Begun(s, b).Ok? == (b.kind != MDAT && b.kind != MFRA)
    ensures EndsInit(b) ==>
              Begun(s, b).Ok? == (CompleteInit(s.setup).Ok? && Begun(s.(setup := CompleteInit(s.setup).value), b).Ok?)
  {
    hide BoxHead, ParseInitTracks, BeginMedia;
  }

  lemma HeadBegins(s: Core, b: TopBox)
    requires s.box == NO_BOX && Sized(b) && b.body != []
    ensures ParserOk(s.box) && ByBytes(s, BoxHead(b), false).end.Ok? == Begun(s, b).Ok?
  {
    hide ByBytes, Begun, BoxHead;
    HeadReads(s, b, []);
    assert BoxHead(b) + [] == BoxHead(b);
    if Begun(s, b).Ok? { NoBytes(Begun(s, b).value); }
  }

  /** What a header needs to be accepted after the initialization `lead` and the boxes `ms`. */
  predicate MayFollow(lead: seq<TopBox>, ms: seq<TopBox>, b: TopBox) {
    if ms == [] && !EndsInit(b) then b.kind != MDAT && b.kind != MFRA
    else Legal(ms, b) && Fits(b) && (ms == [] ==> HasKind(lead, MOOV) && ParseInitTracks(BoxesBytes(lead)).Ok?)
  }

  lemma StandsMayFollow(s: Core, lead: seq<TopBox>, ms: seq<TopBox>, n: nat, b: TopBox)
    requires Stands(s, lead, ms, n) && Sized(b)
    ensures Begun(s, b).Ok? == MayFollow(lead, ms, b)
  {
    hide Begun, ParseInitTracks, Legal, Fits, Admits, AllLegal, BoxBytes;
    if ms != [] {
      BegunIffAdmitted(s, b);
      AdmitsLegal(s.source, ms, b);
    } else {
      BegunIffInit(s, b);
      InitComplete(s, lead);
      if EndsInit(b) && CompleteInit(s.setup).Ok? {
        var t := s.(setup := CompleteInit(s.setup).value);
        BegunIffAdmitted(t, b);
        AdmitsLegal(t.source, [], b);
      }
    }
  }

  lemma InitComplete(s: Core, lead: seq<TopBox>)
    requires Stands(s, lead, [], 0)
    ensures CompleteInit(s.setup).Ok? == (HasKind(lead, MOOV) && ParseInitTracks(BoxesBytes(lead)).Ok?)
  {
    hide ParseInitTracks;
    if HasKind(lead, MOOV) { NotEmpty(lead); }
  }

  lemma NotEmpty(bs: seq<TopBox>)
    requires bs != []
    ensures BoxesBytes(bs) != []
  {
    assert |BoxBytes(bs[0])| >= 8;
  }

  /**
   * After any stream of whole boxes that is accepted, the header of one more box is accepted exactly when that box may come
   * next: the initialization is complete and parses when the first `styp` or `moof` comes, fragments are whole, the end is
   * one `mfra` and one `moov`, and a `moof` or `mdat` is not too large.
   */
  lemma HeaderAccepted(config: Config, lead: seq<TopBox>, media: seq<TopBox>, b: TopBox)
    requires AllSized(lead) && AllSized(media) && Sized(b) && b.body != []
    requires (forall i :: 0 <= i < |lead| ==> !EndsInit(lead[i])) && (media != [] ==> EndsInit(media[0]))
    requires ByBytes(NewCore(config), BoxesBytes(lead + media), false).end.Ok?
    ensures ByBytes(NewCore(config), BoxesBytes(lead + media) + BoxHead(b), false).end.Ok? <==> MayFollow(lead, media, b)
  {
    hide ByBytes, BoxHead, Begun, Stands, Marks, MayFollow, BoxesBytes;
    var ns := EnvelopesAreHistory(config, lead, media);
    ByBytesConcat(NewCore(config), BoxesBytes(lead + media), BoxHead(b), false);
    var s := ByBytes(NewCore(config), BoxesBytes(lead + media), false).end.value.core;
    StandsStill(s, lead, media, LastMark(ns, 0));
    StandsMayFollow(s, lead, media, LastMark(ns, 0), b);
    HeadBegins(s, b);
  }
}
