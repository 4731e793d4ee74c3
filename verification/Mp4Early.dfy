/**
 * Building ahead: a segment that is due while a queued audio fragment still waits for its payload is the same
 * whether it is built at once or after the payload is in, and leaves the same reader.
 */
module Mp4Early {
  import opened Bytes
  import opened Mp4Types
  import opened Mp4Write
  import opened Mp4Select
  import opened Mp4Audio
  import opened Mp4Build
  import opened Mp4Reader
  import opened Mp4Runs
  import opened Mp4Keeps
  import opened Mp4Resolve
  import opened Mp4Steps

  // ----- what a byte does to the queues before its box is complete -----

  datatype Act = Nothing | Open | Byte(b: byte)

  function Acted(q: Queue, a: Act): Queue {
    match a
    case Nothing => q
    case Open => q.(payloadStart := |q.payload|, log := q.log.(open := []))
    case Byte(b) => q.(payload := q.payload + [b], log := q.log.(open := q.log.open + [b]))
  }

  /** Bytes behind the queued ranges are not looked at. */
  lemma {:induction false} CollectIgnoresMore(payload: bytes, more: bytes, fs: seq<Fragment>)
    requires InBounds(payload, fs)
    ensures CollectPayload(payload + more, fs) == CollectPayload(payload, fs)
  {
    if fs != [] {
      assert fs[0] in fs;
      var from, to := fs[0].payloadStart, fs[0].payloadStart + fs[0].payloadLen;
      assert (payload + more)[from..to] == payload[from..to];
      CollectIgnoresMore(payload, more, fs[1..]);
    }
  }

  lemma SegmentIgnoresMore(e: Envelope, video: seq<Fragment>, audio: seq<Fragment>, payload: bytes, more: bytes)
    requires video != [] && InBounds(payload, video) && InBounds(payload, audio)
    ensures SegmentOf(e, video, audio, payload + more) == SegmentOf(e, video, audio, payload)
  {
    hide MoofBytes, SegmentTimes, MoofSize, Mergeable, CollectPayload, MdatHeader, AssignOffsets, QueuePayloadLength;
    CollectIgnoresMore(payload, more, video + audio);
  }

  lemma DropActs(q: Queue, v: nat, a: nat, act: Act)
    requires 0 < v <= |q.video| && a <= |q.audio| && InBounds(q.payload, q.video) && InBounds(q.payload, q.audio)
    ensures Drop(Acted(q, act), v, a) == Acted(Drop(q, v, a), act)
  {
    hide CollectPayload, QueueSamples;
    SplitQueue(q.video, v);
    SplitQueue(q.audio, a);
    if act.Byte? {
      CollectIgnoresMore(q.payload, [act.b], q.video[..v]);
      CollectIgnoresMore(q.payload, [act.b], q.audio[..a]);
    }
  }

  /** The first byte still queued: as some video is, there is one, and nothing at or after `limit` is dropped. */
  lemma FirstQueued(q: Queue, limit: nat) returns (shift: nat)
    requires QueueOk(q.video) && QueueOk(q.audio) && Within(q.video, limit) && limit <= |q.payload| && q.video != []
    ensures MinStart(q.video + q.audio) == Some(shift) && shift < limit
  {
    hide MinStart, Attached;
    PayloadPositive(q.video);
    MinStartIsLeast(q.video + q.audio);
    var f := q.video[0];
    assert f in q.video && f in q.video + q.audio;
    shift := MinStart(q.video + q.audio).value;
  }

  lemma ReclaimActs(q: Queue, act: Act, limit: nat)
    requires QueueOk(q.video) && QueueOk(q.audio) && Within(q.video, limit) && limit <= |q.payload| && q.video != []
    ensures Reclaim(Acted(q, act)) == Acted(Reclaim(q), act)
  {
    hide MinStart, Rebase, Attached;
    var shift := FirstQueued(q, limit);
    if act.Byte? {
      assert (q.payload + [act.b])[shift..] == q.payload[shift..] + [act.b];
    }
  }

  /** Building and reading on within a box commute. */
  lemma BuildActs(q: Queue, c: Config, u: Setup, e: Envelope, act: Act, limit: nat)
    requires QueuesOk(q, u) && QueuesKeep(q, limit)
    ensures BuildNext(Acted(q, act), c, u, e)
         == match BuildNext(q, c, u, e)
            case Ok(Some(built)) => Ok(Some(built.(queue := Acted(built.queue, act))))
            case other => other
  {
    hide SegmentOf, TrackKeeps, Attached, Disjoint, Within, OfTrack, QueueOk, Reclaim, Drop, ChooseCut, CutQueue;
    CutActs(q, c, u, act);
    match ChooseCut(q, c, u)
    case Ok(Cut(audio, v, a)) =>
      var q1 := q.(audio := audio);
      CutIsBoundary(q, c, u);
      CutKeeps(q, c, u, limit);
      TakenInBounds(q1, limit, v, a);
      if act.Byte? { SegmentIgnoresMore(e, q.video[..v], audio[..a], q.payload, [act.b]); }
      DropActs(q1, v, a, act);
      DropKeeps(q1, u, limit, v, a);
      LeftOver(q1, u, limit, v, a);
      ReclaimActs(Drop(q1, v, a), act, limit);
    case _ =>
  }

  lemma CutActs(q: Queue, c: Config, u: Setup, act: Act)
    ensures ChooseCut(Acted(q, act), c, u) == ChooseCut(q, c, u)
  {
    hide CutQueue, SelectFrom;
  }

  lemma TakenInBounds(q: Queue, limit: nat, v: nat, a: nat)
    requires QueuesKeep(q, limit) && v <= |q.video| && a <= |q.audio|
    ensures InBounds(q.payload, q.video) && InBounds(q.payload, q.audio)
    ensures InBounds(q.payload, q.video[..v]) && InBounds(q.payload, q.audio[..a])
  {
    SplitQueue(q.video, v);
    SplitQueue(q.audio, a);
  }

  lemma LeftOver(q: Queue, u: Setup, limit: nat, v: nat, a: nat)
    requires 0 < v < |q.video| && a <= |q.audio| && QueuesOk(Drop(q, v, a), u) && QueuesKeep(Drop(q, v, a), limit)
    ensures var r := Drop(q, v, a);
            QueueOk(r.video) && QueueOk(r.audio) && Within(r.video, limit) && limit <= |r.payload| && r.video != []
            && Within(r.audio, limit) && r.payload == q.payload
  {
    hide Attached, TrackKeeps, Disjoint;
  }

  // ----- the payload is in -----

  /** The waiting fragment joins the audio queue behind everything queued. */
  function Joined(q: Queue, f: Fragment): Queue {
    q.(audio := q.audio + [f], payloadStart := 0,
       log := q.log.(audio := Accept(q.log.audio, f, q.log.open), open := []))
  }

  /** An audio cut already found does not change when more audio is queued. */
  lemma {:induction false} CutQueueJoins(fs: seq<Fragment>, f: Fragment, videoScale: u32, videoEnd: u64)
    ensures match CutQueue(fs, videoScale, videoEnd)
            case Err(e) => CutQueue(fs + [f], videoScale, videoEnd) == Err(e)
            case Ok((audio, a)) => a > 0 ==> a <= |audio| && CutQueue(fs + [f], videoScale, videoEnd) == Ok((audio + [f], a))
  {
    hide FindAudioSplit, SplitFragment, RunSamples;
    if fs != [] {
      assert (fs + [f])[1..] == fs[1..] + [f] && (fs + [f])[0] == fs[0];
      CutQueueJoins(fs[1..], f, videoScale, videoEnd);
      match CutQueue(fs, videoScale, videoEnd)
      case Err(_) =>
      case Ok((audio, a)) =>
        match FindAudioSplit(fs[0], videoScale, videoEnd).value
        case None =>
          var rest := CutQueue(fs[1..], videoScale, videoEnd).value.0;
          assert [fs[0]] + rest + [f] == [fs[0]] + (rest + [f]);
        case Some(count) =>
          if count < |RunSamples(fs[0].runs)| {
            var (l, r) := SplitFragment(fs[0], count).value;
            assert [l, r] + fs[1..] + [f] == [l, r] + (fs[1..] + [f]);
          }
    }
  }

  lemma CutJoins(q: Queue, c: Config, u: Setup, f: Fragment)
    requires u.audio.id != 0
    ensures match ChooseCut(q, c, u)
            case Err(e) => ChooseCut(Joined(q, f), c, u) == Err(e)
            case Ok(NoCut) => true
            case Ok(Cut(audio, v, a)) => a > 0 && ChooseCut(Joined(q, f), c, u) == Ok(Cut(audio + [f], v, a))
  {
    hide CutQueue, SelectFrom;
    match ChooseVideo(q, c, u.video.timescale)
    case Err(_) =>
    case Ok(v) =>
      if 0 < v <= |q.video| { CutQueueJoins(q.audio, f, u.video.timescale, EndTime(q.video[v - 1])); }
  }

  lemma DropJoins(q: Queue, v: nat, a: nat, f: Fragment)
    requires 0 < v <= |q.video| && a <= |q.audio|
    ensures Drop(Joined(q, f), v, a) == Joined(Drop(q, v, a), f)
  {
    hide CollectPayload, QueueSamples, RunSamples;
    assert (q.audio + [f])[..a] == q.audio[..a] && (q.audio + [f])[a..] == q.audio[a..] + [f];
  }

  lemma {:induction false} MinStartJoins(fs: seq<Fragment>, f: Fragment)
    requires MinStart(fs).Some? && MinStart(fs).value <= f.payloadStart
    ensures MinStart(fs + [f]) == MinStart(fs)
  {
    if fs != [] {
      assert (fs + [f])[1..] == fs[1..] + [f] && (fs + [f])[0] == fs[0];
      if MinStart(fs[1..]).Some? && MinStart(fs[1..]).value <= f.payloadStart {
        MinStartJoins(fs[1..], f);
      } else {
        MinStartJoinsFirst(fs[1..], f);
      }
    }
  }

  lemma {:induction false} MinStartJoinsFirst(fs: seq<Fragment>, f: Fragment)
    requires MinStart(fs).Some? ==> MinStart(fs).value > f.payloadStart
    ensures MinStart(fs + [f]) == if f.payloadLen == 0 then MinStart(fs) else Some(f.payloadStart)
  {
    if fs != [] {
      assert (fs + [f])[1..] == fs[1..] + [f] && (fs + [f])[0] == fs[0];
      MinStartJoinsFirst(fs[1..], f);
    } else {
      assert (fs + [f])[1..] == [];
    }
  }

  lemma {:induction false} RebaseJoins(fs: seq<Fragment>, f: Fragment, shift: nat)
    ensures Rebase(fs + [f], shift) == Rebase(fs, shift) + [MoveDown(f, shift)]
  {}

  lemma ReclaimJoins(q: Queue, limit: nat, f: Fragment)
    requires QueueOk(q.video) && QueueOk(q.audio) && Within(q.video, limit) && limit <= |q.payload| && q.video != []
    requires f.payloadStart >= limit
    ensures |Reclaim(q).payload| <= |q.payload|
    ensures Reclaim(Joined(q, f)) == Joined(Reclaim(q), MoveDown(f, |q.payload| - |Reclaim(q).payload|))
  {
    hide MinStart, Rebase, Attached, RunSamples;
    var shift := FirstQueued(q, limit);
    MinStartJoins(q.video + q.audio, f);
    assert q.video + (q.audio + [f]) == q.video + q.audio + [f];
    RebaseJoins(q.audio, f, shift);
  }

  /** Building before the waiting fragment joins gives the same segment or error, and the same queues in the end. */
  lemma BuildJoins(q: Queue, c: Config, u: Setup, e: Envelope, f: Fragment, limit: nat)
    requires QueuesOk(q, u) && QueuesKeep(q, limit) && u.audio.id != 0 && f.payloadStart >= limit
    ensures match BuildNext(q, c, u, e)
            case Ok(None) => true
            case Ok(Some(built)) =>
              |built.queue.payload| <= |q.payload|
              && BuildNext(Joined(q, f), c, u, e)
                 == Ok(Some(built.(queue := Joined(built.queue, MoveDown(f, |q.payload| - |built.queue.payload|)))))
            case Err(error) => BuildNext(Joined(q, f), c, u, e) == Err(error)
  {
    hide SegmentOf, TrackKeeps, Attached, Disjoint, Within, OfTrack, QueueOk, Reclaim, Drop, ChooseCut, CutQueue, Joined;
    CutJoins(q, c, u, f);
    JoinedParts(q, f);
    match ChooseCut(q, c, u)
    case Ok(Cut(audio, v, a)) =>
      var q1 := q.(audio := audio);
      CutIsBoundary(q, c, u);
      CutKeeps(q, c, u, limit);
      JoinedParts(q1, f);
      assert (audio + [f])[..a] == audio[..a];
      DropJoins(q1, v, a, f);
      DropKeeps(q1, u, limit, v, a);
      LeftOver(q1, u, limit, v, a);
      ReclaimJoins(Drop(q1, v, a), limit, f);
    case _ =>
  }

  lemma JoinedParts(q: Queue, f: Fragment)
    ensures Joined(q, f).video == q.video && Joined(q, f).payload == q.payload && Joined(q, f).audio == q.audio + [f]
    ensures Joined(q, f).sequence == q.sequence
    ensures forall audio :: Joined(q, f).(audio := audio + [f]) == Joined(q.(audio := audio), f)
  {}

  // ----- the boxes kept with the segment -----

  /** The boxes kept for the next segment. */
  function Kept(r: Source): bytes { if r.prefixActive then r.prefix else [] }

  lemma SegmentPrefix(e: Envelope, prefix: bytes, video: seq<Fragment>, audio: seq<Fragment>, payload: bytes)
    requires video != []
    ensures match SegmentOf(e, video, audio, payload)
            case Err(error) => SegmentOf(e.(prefix := prefix), video, audio, payload) == Err(error)
            case Ok(segment) =>
              && SegmentOf(e.(prefix := prefix), video, audio, payload).Ok?
              && |SegmentOf(e.(prefix := prefix), video, audio, payload).value.data| - |prefix| == |segment.data| - |e.prefix|
  {
    hide WriteTraf, SegmentTimes, MoofSize, Mergeable, CollectPayload, MdatHeader, AssignOffsets, QueuePayloadLength;
  }

  /** A segment built with other kept boxes is longer or shorter by those boxes, and nothing else changes. */
  lemma BuildPrefix(q: Queue, c: Config, u: Setup, e: Envelope, prefix: bytes)
    ensures match BuildNext(q, c, u, e)
            case Ok(Some(built)) =>
              && BuildNext(q, c, u, e.(prefix := prefix)).Ok?
              && BuildNext(q, c, u, e.(prefix := prefix)).value.Some?
              && var other := BuildNext(q, c, u, e.(prefix := prefix)).value.value;
                 other.queue == built.queue && |other.segment.data| - |prefix| == |built.segment.data| - |e.prefix|
            case other => BuildNext(q, c, u, e.(prefix := prefix)) == other
  {
    hide SegmentOf, Reclaim, Drop, ChooseCut;
    match ChooseCut(q, c, u)
    case Ok(Cut(audio, v, a)) => SegmentPrefix(e, prefix, q.video[..v], audio[..a], q.payload);
    case _ =>
  }

  // ----- readers -----

  /** `t` is `s` after `act`, and after what a byte may do besides. */
  ghost predicate ActsOn(s: Core, t: Core, act: Act) {
    t.config == s.config && t.setup == s.setup && t.source.firstStyp == s.source.firstStyp && t.queue == Acted(s.queue, act)
  }

  function Cleared(r: Source): Source { r.(prefix := [], prefixActive := false) }

  /** What building gives after one more byte, compared with building before it. */
  ghost predicate BuildsLater(s: Core, t: Core, act: Act) {
    match TryBuild(s)
    case Err(e) => TryBuild(t) == Err(e)
    case Ok(p) =>
      if p.segment.None? then TryBuild(t) == Ok(Progress(t, None)) else
      && TryBuild(t).Ok? && TryBuild(t).value.segment.Some?
      && TryBuild(t).value.core == t.(queue := Acted(p.core.queue, act), source := Cleared(t.source))
      && |TryBuild(t).value.segment.value.data| - |Kept(t.source)| == |p.segment.value.data| - |Kept(s.source)|
      && (Kept(t.source) == Kept(s.source) ==> TryBuild(t).value.segment == p.segment)
  }

  lemma TryBuildActs(s: Core, t: Core, act: Act)
    requires Keeps(s) && ActsOn(s, t, act)
    ensures BuildsLater(s, t, act)
  {
    hide BuildNext, QueuesOk, QueuesKeep, PendingOk;
    BuildActs(s.queue, s.config, s.setup, EnvelopeOf(s), act, Limit(s));
    BuildPrefix(t.queue, s.config, s.setup, EnvelopeOf(s), Kept(t.source));
    assert EnvelopeOf(t) == EnvelopeOf(s).(prefix := Kept(t.source));
  }

  // ----- one byte -----

  /** The reader after one more byte, before a box it completes is acted on. */
  function Advanced(s: Core, b: byte): Result<Core>
    requires ParserOk(s.box)
  {
    if |s.box.header| < s.box.required then
      var s1 := s.(box := s.box.(header := s.box.header + [b]));
      if |s1.box.header| < s1.box.required then Ok(s1)
      else if s1.box.required == 8 && ReadBe32(s1.box.header, 0) == 1 then
        Ok(s1.(box := s1.box.(required := 16, kind := ReadBe32(s1.box.header, 4))))
      else if s1.box.required == 8 && ReadBe32(s1.box.header, 0) == 0 then Err(ZeroBoxSize)
      else HeaderBegun(s1)
    else Ok(WriteBoxData(s, [b]).(box := s.box.(remaining := s.box.remaining - 1)))
  }

  predicate BoxComplete(b: BoxState) { |b.header| == b.required && b.remaining == 0 }

  lemma FeedAdvances(s: Core, b: byte)
    requires ParserOk(s.box)
    ensures FeedByte(s, b) == match Advanced(s, b)
                              case Err(e) => Err(e)
                              case Ok(t) => if BoxComplete(t.box) then FinishBox(t) else Ok(Progress(t, None))
  {
    hide BeginBox, FinishBox, ReadBe32, ReadBe64;
    if |s.box.header| < s.box.required {
      var s1 := s.(box := s.box.(header := s.box.header + [b]));
      if |s1.box.header| == s1.box.required {
        var s2 := if s1.box.required == 8 then s1.(box := s1.box.(kind := ReadBe32(s1.box.header, 4))) else s1;
        var size: u64 := if s1.box.required == 8 then ReadBe32(s1.box.header, 0) else ReadBe64(s1.box.header, 8);
        BeginBoxKeeps(s2, size, s1.box.required);
      }
    }
  }

  /** `u` is `s` with other queues and other boxes kept for the next segment. */
  ghost predicate Twin(s: Core, u: Core) {
    u == s.(queue := u.queue, source := s.source.(prefix := u.source.prefix, prefixActive := u.source.prefixActive))
  }

  /** Boxes are kept only while some of them are to go with the next segment. */
  predicate KeptOk(s: Core) {
    && (s.source.prefix != [] ==> s.source.prefixActive)
    && (|s.box.header| == s.box.required && s.box.target.PrefixTarget? ==> s.source.prefixActive)
  }

  ghost predicate SameKept(s: Source, t: Source) { t.prefix == s.prefix && t.prefixActive == s.prefixActive }

  /** Either nothing more is kept from `s` to `t` and from `u` to `v`, or more is kept in `t`. */
  ghost predicate KeepsAlike(s: Core, u: Core, t: Core, v: Core) {
    || (SameKept(s.source, t.source) && SameKept(u.source, v.source))
    || (|t.source.prefix| > |s.source.prefix| && (t.source.prefixActive || !KeptOk(s)))
  }

  /** What one byte does to a waiting reader and to its twin, in the middle of a box. */
  ghost predicate Parallel(s: Core, u: Core, t: Core, v: Core, act: Act) {
    && ActsOn(s, t, act) && Waiting(t) && Twin(t, v) && v.queue == Acted(u.queue, act)
    && KeepsAlike(s, u, t, v)
  }

  lemma BeginMediaWaits(r: Source, x: Source, kind: u32, size: u64, headerSize: nat)
    requires r.pending.Some? && x == r.(prefix := x.prefix, prefixActive := x.prefixActive)
    ensures match BeginMedia(r, kind, size, headerSize)
            case Err(e) => BeginMedia(x, kind, size, headerSize) == Err(e)
            case Ok((source, target)) =>
              && kind in {SIDX, EMSG, FREE, PRFT, MDAT}
              && source.pending == r.pending && source.firstStyp == r.firstStyp && source.prefix == r.prefix
              && source.prefixActive == (r.prefixActive || target.PrefixTarget?)
              && target in {NoTarget, PayloadTarget, PrefixTarget}
              && BeginMedia(x, kind, size, headerSize)
                 == Ok((source.(prefix := x.prefix, prefixActive := x.prefixActive || target.PrefixTarget?), target))
  {}

  lemma BeginBoxWaits(s: Core, u: Core, size: u64, headerSize: nat)
    requires Waiting(s.(box := NO_BOX)) && Twin(s, u) && s.box.header != []
    ensures match BeginBox(s, size, headerSize)
            case Err(e) => BeginBox(u, size, headerSize) == Err(e)
            case Ok(t) =>
              && BeginBox(u, size, headerSize).Ok?
              && Parallel(s, u, t, BeginBox(u, size, headerSize).value, if t.box.target.PayloadTarget? then Open else Nothing)
              && (t.source.prefix != s.source.prefix ==> t.source.prefixActive)
              && (t.box.target.PayloadTarget? ==>
                    SameKept(s.source, t.source) && SameKept(u.source, BeginBox(u, size, headerSize).value.source))
  {
    hide BeginMedia, CompleteInit;
    BeginMediaWaits(s.source, u.source, s.box.kind, size, headerSize);
  }

  lemma WriteWaits(s: Core, u: Core, b: byte, remaining: u64)
    requires Waiting(s) && Twin(s, u) && |s.box.header| == s.box.required
    ensures Parallel(s, u, WriteBoxData(s, [b]).(box := s.box.(remaining := remaining)),
                     WriteBoxData(u, [b]).(box := s.box.(remaining := remaining)),
                     if MdatOpen(s.box) then Byte(b) else Nothing)
    ensures MdatOpen(s.box) ==>
              SameKept(s.source, WriteBoxData(s, [b]).source) && SameKept(u.source, WriteBoxData(u, [b]).source)
    ensures WriteBoxData(s, [b]).box == s.box
  {}

  lemma AdvanceWaits(s: Core, u: Core, b: byte) returns (act: Act)
    requires ParserOk(s.box) && Waiting(s) && Twin(s, u)
    ensures match Advanced(s, b)
            case Err(e) => Advanced(u, b) == Err(e)
            case Ok(t) =>
              && Advanced(u, b).Ok? && Parallel(s, u, t, Advanced(u, b).value, act)
              && (MdatOpen(t.box) ==> SameKept(s.source, t.source) && SameKept(u.source, Advanced(u, b).value.source))
  {
    hide BeginBox, ReadBe32, ReadBe64, WriteBoxData;
    act := Nothing;
    if |s.box.header| < s.box.required {
      var s1 := s.(box := s.box.(header := s.box.header + [b]));
      var u1 := u.(box := s.box.(header := s.box.header + [b]));
      if |s1.box.header| == s1.box.required && (s1.box.required == 16 || ReadBe32(s1.box.header, 0) > 1) {
        var box := if s1.box.required == 8 then s1.box.(kind := ReadBe32(s1.box.header, 4)) else s1.box;
        var size: u64 := if s1.box.required == 8 then ReadBe32(s1.box.header, 0) else ReadBe64(s1.box.header, 8);
        BeginBoxWaits(s1.(box := box), u1.(box := box), size, s1.box.required);
        if Advanced(s, b).Ok? && Advanced(s, b).value.box.target.PayloadTarget? { act := Open; }
      }
    } else {
      WriteWaits(s, u, b, s.box.remaining - 1);
      if MdatOpen(s.box) { act := Byte(b); }
    }
  }

  // ----- the payload is complete -----

  lemma AttachMoves(f: Fragment, start: nat, length: nat, fromMoof: int, shift: nat)
    requires FragmentOk(f) && shift <= start && AttachPayload(f, start, length, fromMoof).Ok?
    ensures AttachPayload(f, start - shift, length, fromMoof) == Ok(MoveDown(AttachPayload(f, start, length, fromMoof).value, shift))
  {
    hide RunOk, CanonicalTfhd, Contiguous, LaidOut, RunsSize;
    AttachKeeps(f, start, length, fromMoof);
    var g := AttachPayload(f, start, length, fromMoof).value;
    PayloadPositive([g]);
    assert g in [g];
  }

  lemma EnqueueJoins(q: Queue, u: Setup, f: Fragment)
    requires f.trackId != u.video.id && u.audio.id != 0 && f.trackId == u.audio.id
    ensures Enqueue(q, u, f) == Ok(Joined(q, f))
  {
    hide Accept;
  }

  lemma PendingAudio(s: Core)
    requires Keeps(s) && Waiting(s)
    ensures s.setup.audio.id != 0 && s.source.pending.value.trackId == s.setup.audio.id && FragmentOk(s.source.pending.value)
  {
    hide QueuesOk, QueuesKeep, FragmentOk;
  }

  /** Where the buffer shrank, by how much, and where the open payload starts now. */
  lemma BuildShifts(q: Queue, c: Config, u: Setup, e: Envelope, limit: nat) returns (shift: nat)
    requires QueuesOk(q, u) && QueuesKeep(q, limit) && BuildNext(q, c, u, e).Ok? && BuildNext(q, c, u, e).value.Some?
    ensures var r := BuildNext(q, c, u, e).value.value.queue;
            shift <= limit && |r.payload| == |q.payload| - shift && r.payloadStart == Max(q.payloadStart - shift, 0)
            && r.log.open == q.log.open
  {
    hide BuildNext, QueuesOk, QueuesKeep;
    BuildNextKeeps(q, c, u, e, limit);
    var r := BuildNext(q, c, u, e).value.value.queue;
    shift :| shift <= limit && Rebased(q, r, shift) && QueuesKeep(r, limit - shift);
  }

  /** The last byte of the payload: the segment and the queues are those of building first. */
  lemma MdatJoins(s: Core)
    requires Keeps(s) && Waiting(s) && MdatOpen(s.box) && CompleteMdat(s).Ok?
    ensures match TryBuild(s)
            case Err(e) => TryBuild(CompleteMdat(s).value) == Err(e)
            case Ok(p) =>
              p.segment.Some? ==> CompleteMdat(p.core).Ok?
                                  && TryBuild(CompleteMdat(s).value) == Ok(Progress(CompleteMdat(p.core).value, p.segment))
  {
    hide BuildNext, QueuesOk, QueuesKeep, FragmentOk, AttachPayload, Enqueue, Joined, PendingOk, Attached;
    PendingAudio(s);
    var q, f := s.queue, s.source.pending.value;
    AttachKeeps(f, q.payloadStart, |q.payload| - q.payloadStart, s.source.fromMoof);
    var g := AttachPayload(f, q.payloadStart, |q.payload| - q.payloadStart, s.source.fromMoof).value;
    EnqueueJoins(q, s.setup, g);
    JoinedParts(q, g);
    BuildJoins(q, s.config, s.setup, EnvelopeOf(s), g, q.payloadStart);
    if TryBuild(s).Ok? && TryBuild(s).value.segment.Some? {
      var r := TryBuild(s).value.core.queue;
      var shift := BuildShifts(q, s.config, s.setup, EnvelopeOf(s), q.payloadStart);
      AttachMoves(f, q.payloadStart, |q.payload| - q.payloadStart, s.source.fromMoof, shift);
      EnqueueJoins(r, s.setup, MoveDown(g, shift));
    }
  }

  // ----- a byte before or after building -----

  lemma AdvanceKeeps(s: Core, b: byte)
    requires ParserOk(s.box) && Keeps(s)
    ensures Advanced(s, b).Ok? ==> Keeps(Advanced(s, b).value)
  {
    hide QueuesKeep, QueuesOk, PendingOk, BeginBox, ReadBe32, ReadBe64, WriteBoxData;
    if |s.box.header| < s.box.required {
      var s1 := s.(box := s.box.(header := s.box.header + [b]));
      if |s1.box.header| == s1.box.required && (s1.box.required == 16 || ReadBe32(s1.box.header, 0) > 1) {
        var box := if s1.box.required == 8 then s1.box.(kind := ReadBe32(s1.box.header, 4)) else s1.box;
        var size: u64 := if s1.box.required == 8 then ReadBe32(s1.box.header, 0) else ReadBe64(s1.box.header, 8);
        BeginBoxKeepsReader(s1.(box := box), size, s1.box.required);
      }
    } else {
      WriteKeeps(s, [b], s.box.remaining - 1);
    }
  }

  /** A waiting reader in which a segment is due. */
  ghost predicate Due(s: Core) {
    ParserOk(s.box) && Keeps(s) && Waiting(s) && TryBuild(s).Ok? && TryBuild(s).value.segment.Some?
  }

  /** The reader with the due segment built. */
  function AfterBuild(s: Core): Core
    requires TryBuild(s).Ok?
  {
    TryBuild(s).value.core
  }

  lemma BuiltWaits(s: Core)
    requires Due(s)
    ensures ParserOk(AfterBuild(s).box) && Keeps(AfterBuild(s)) && Waiting(AfterBuild(s)) && Twin(s, AfterBuild(s))
    ensures |AfterBuild(s).queue.video| < |s.queue.video|
    ensures AfterBuild(s).source == Cleared(s.source)
  {
    hide Keeps, ParserOk, BuildNext;
    TryBuildKeepsReader(s);
    TryBuildKeeps(s);
    TryBuildKeepsSetup(s);
  }

  /**
   * A byte that leaves the segment due in `t`: with the same kept boxes it is the same segment, and `next`, what the
   * byte gives after building, is what building gives after the byte.
   */
  ghost predicate StillDue(s: Core, t: Core, next: Result<Progress>) {
    && Due(s) && Due(t)
    && (SameKept(s.source, t.source) ==>
          TryBuild(t).value.segment == TryBuild(s).value.segment && next == Ok(Progress(AfterBuild(t), None)))
    && (!SameKept(s.source, t.source) && KeptOk(s) ==>
          |TryBuild(t).value.segment.value.data| > |TryBuild(s).value.segment.value.data|)
  }

  /** What else is due after the first segment comes out as well, or fails as it would. */
  ghost predicate BuildsAgain(u: Core, next: Result<Progress>) {
    match TryBuild(u)
    case Err(e) => next == Err(e)
    case Ok(p) => p.segment.Some? ==> next.Ok? && next.value.segment.Some?
  }

  /** A byte that completes the payload: the due segment comes out, and then whatever else is due. */
  ghost predicate ComesOut(s: Core, x: Progress, next: Result<Progress>) {
    && Due(s) && x.segment == TryBuild(s).value.segment && ParserOk(x.core.box) && Keeps(x.core)
    && next == TryBuild(x.core) && BuildsAgain(AfterBuild(s), next)
  }

  lemma StillDueInside(s: Core, t: Core, v: Core, act: Act)
    requires Due(s) && ParserOk(t.box) && Keeps(t) && Parallel(s, AfterBuild(s), t, v, act)
    ensures StillDue(s, t, Ok(Progress(v, None)))
  {
    hide Keeps, ParserOk, TryBuild, Waiting;
    BuiltWaits(s);
    TryBuildActs(s, t, act);
  }

  lemma OtherFinishes(s: Core)
    requires s.box.kind in {SIDX, EMSG, FREE, PRFT}
    ensures FinishBox(s) == Ok(Progress(s.(box := NO_BOX), None))
  {
    hide CompleteMoof, CompleteMdat, CompleteStyp;
  }

  lemma ForgetsBoth(s: Core, u: Core, t: Core, v: Core, act: Act)
    requires Parallel(s, u, t, v, act)
    ensures Parallel(s, u, t.(box := NO_BOX), v.(box := NO_BOX), act)
  {}

  lemma MdatComesOut(s: Core, t: Core, v: Core, act: Act)
    requires Due(s) && Keeps(t) && Keeps(v) && Parallel(s, AfterBuild(s), t, v, act)
    requires SameKept(s.source, t.source) && SameKept(AfterBuild(s).source, v.source)
    requires MdatOpen(t.box) && t.box.kind == MDAT && FinishBox(t).Ok?
    ensures var x := FinishBox(t).value;
            x.segment == TryBuild(s).value.segment && FinishBox(v) == TryBuild(x.core) && BuildsAgain(AfterBuild(s), FinishBox(v))
  {
    hide Keeps, ParserOk, TryBuild, CompleteMdat, CompleteMoof, CompleteStyp, BuildsAgain;
    TryBuildActs(s, t, act);
    BuiltWaits(s);
    MdatJoins(t);
    assert v == TryBuild(t).value.core;
    TryBuildIgnoresBox(CompleteMdat(v).value, NO_BOX);
    MdatAgain(AfterBuild(s), v, act);
  }

  lemma MdatAgain(u: Core, v: Core, act: Act)
    requires Keeps(u) && ActsOn(u, v, act) && Keeps(v) && Waiting(v) && MdatOpen(v.box) && v.box.kind == MDAT
    requires CompleteMdat(v).Ok?
    ensures BuildsAgain(u, FinishBox(v))
  {
    hide Keeps, TryBuild, CompleteMdat, CompleteMoof, CompleteStyp;
    TryBuildActs(u, v, act);
    MdatJoins(v);
  }

  /** Any byte the reader accepts while a segment is due gives the same before and after building. */
  lemma StepAhead(s: Core, b: byte, u: Core)
    requires Due(s) && u == AfterBuild(s) && ParserOk(u.box) && FeedByte(s, b).Ok?
    ensures var x := FeedByte(s, b).value;
            if x.segment.None? then StillDue(s, x.core, FeedByte(u, b)) else ComesOut(s, x, FeedByte(u, b))
  {
    hide Keeps, FeedByte, FinishBox, TryBuild, Advanced, KeepsAlike, StillDue;
    BuiltWaits(s);
    var act := AdvanceWaits(s, u, b);
    FeedAdvances(s, b);
    FeedAdvances(u, b);
    AdvanceKeeps(s, b);
    AdvanceKeeps(u, b);
    FeedKeepsParser(s, b);
    FeedKeepsReader(s, b);
    var t, v := Advanced(s, b).value, Advanced(u, b).value;
    if !BoxComplete(t.box) {
      StillDueInside(s, t, v, act);
    } else if t.box.kind != MDAT {
      OtherFinishes(t);
      OtherFinishes(v);
      ForgetsBoth(s, u, t, v, act);
      StillDueInside(s, t.(box := NO_BOX), v.(box := NO_BOX), act);
    } else {
      MdatTarget(t);
      MdatComesOut(s, t, v, act);
    }
  }

  lemma MdatTarget(s: Core)
    requires Keeps(s) && |s.box.header| == s.box.required && s.box.kind == MDAT
    ensures MdatOpen(s.box)
  {
    hide QueuesOk, QueuesKeep, PendingOk;
  }

  /** A byte accepted while building fails leaves it failing in the same way. */
  lemma StepFails(s: Core, b: byte)
    requires ParserOk(s.box) && Keeps(s) && Waiting(s) && TryBuild(s).Err? && FeedByte(s, b).Ok?
    ensures var x := FeedByte(s, b).value;
            x.segment.None? && Waiting(x.core) && TryBuild(x.core) == Err(TryBuild(s).error)
  {
    hide Keeps, FeedByte, FinishBox, TryBuild, Advanced, KeepsAlike;
    var act := AdvanceWaits(s, s, b);
    FeedAdvances(s, b);
    AdvanceKeeps(s, b);
    var t := Advanced(s, b).value;
    TryBuildActs(s, t, act);
    if BoxComplete(t.box) {
      if t.box.kind != MDAT {
        OtherFinishes(t);
        TryBuildIgnoresBox(t, NO_BOX);
      } else {
        MdatFails(t);
      }
    }
  }

  lemma MdatFails(s: Core)
    requires Keeps(s) && Waiting(s) && |s.box.header| == s.box.required && s.box.kind == MDAT && TryBuild(s).Err?
    ensures FinishBox(s).Err?
  {
    hide Keeps, TryBuild, CompleteMdat, CompleteMoof, CompleteStyp;
    MdatTarget(s);
    if CompleteMdat(s).Ok? { MdatJoins(s); }
  }

  /** Once its payload is in, a waiting reader without a segment has none due. */
  lemma WaitingStays(s: Core, b: byte)
    requires ParserOk(s.box) && Keeps(s) && Waiting(s) && FeedByte(s, b).Ok? && FeedByte(s, b).value.segment.None?
    ensures Waiting(FeedByte(s, b).value.core) || Settled(FeedByte(s, b).value.core)
  {
    hide Keeps, FeedByte, FinishBox, TryBuild, Advanced, KeepsAlike, Settled;
    var act := AdvanceWaits(s, s, b);
    FeedAdvances(s, b);
    var t := Advanced(s, b).value;
    if BoxComplete(t.box) {
      if t.box.kind != MDAT { OtherFinishes(t); } else { MdatSettles(t); }
    }
  }

  lemma MdatSettles(s: Core)
    requires s.setup.initDone && s.box.kind == MDAT && FinishBox(s).Ok? && FinishBox(s).value.segment.None?
    ensures Settled(FinishBox(s).value.core)
  {
    hide TryBuild, CompleteMdat, CompleteMoof, CompleteStyp, Settled;
    CompleteMdatKeepsSetup(s);
    TryBuildKeeps(CompleteMdat(s).value);
    NowSettled(CompleteMdat(s).value);
    SettledIgnoresBox(CompleteMdat(s).value, NO_BOX);
  }

  lemma SettledIgnoresBox(s: Core, b: BoxState)
    requires Settled(s)
    ensures Settled(s.(box := b))
  {
    hide ChooseCut;
  }
}
