/** Streams as boxes: what reading one whole box byte by byte comes to, whatever its size and however long its header. */
module Mp4Boxes {
  import opened Bytes
  import opened Mp4Types
  import opened Mp4Write
  import opened Mp4Reader
  import opened Mp4Runs
  import opened Mp4Class

  /** A box of a stream; a long one has its size in eight more bytes (section 4.2 of ISO/IEC 14496-12). */
  datatype TopBox = TopBox(kind: u32, long: bool, body: bytes)

  function HeadSize(b: TopBox): nat { if b.long then 16 else 8 }

  /** The size fits its field. */
  predicate Sized(b: TopBox) { HeadSize(b) + |b.body| <= if b.long then U64_MAX else U32_MAX }

  function BoxHead(b: TopBox): (r: bytes)
    ensures |r| == HeadSize(b)
  {
    if b.long then Header(1, b.kind) + Be64(Wrap64(16 + |b.body|)) else Header((8 + |b.body|) % 0x1_0000_0000, b.kind)
  }

  function BoxBytes(b: TopBox): (r: bytes)
    ensures |r| == HeadSize(b) + |b.body|
  {
    BoxHead(b) + b.body
  }

  function BoxesBytes(bs: seq<TopBox>): bytes {
    if bs == [] then [] else BoxBytes(bs[0]) + BoxesBytes(bs[1..])
  }

  // ----- reading one box -----

  lemma HeaderFields(size: u32, kind: u32)
    ensures |Header(size, kind)| == 8
    ensures ReadBe32(Header(size, kind), 0) == size && ReadBe32(Header(size, kind), 4) == kind
  {
    hide Be32, ReadBe32;
    var h := Header(size, kind);
    assert h[0..4] == Be32(size) && h[4..8] == Be32(kind);
    ReadBe32Inverts(h, 0, size);
    ReadBe32Inverts(h, 4, kind);
  }

  lemma LongFields(size: u64, kind: u32)
    ensures ReadBe64(Header(1, kind) + Be64(size), 8) == size
  {
    hide Header, Be64, ReadBe64;
    var h := Header(1, kind) + Be64(size);
    assert h[8..16] == Be64(size);
    ReadBe64Inverts(h, 8, size);
  }

  /** The reader with the header of `b` read, and nothing yet done about it. */
  function Opened(s: Core, b: TopBox): Core {
    s.(box := BoxState(BoxHead(b), HeadSize(b), b.kind, 0, NoTarget))
  }

  /** The reader at the end of the body of the box it began. */
  function Filled(s: Core, body: bytes): Core { WriteBoxData(s, body).(box := s.box.(remaining := 0)) }

  /** The run that goes on from a step. */
  function RunOn(step: Result<Progress>, rest: bytes): Outcome
    requires step.Ok? ==> ParserOk(step.value.core.box)
  {
    if step.Err? then Fail(step.error)
    else Before(Taken(step.value.segment), ByBytes(step.value.core, rest, step.value.segment.Some?))
  }

  /** A step that consumes `x` is the run over `x`. */
  lemma StepRuns(s: Core, x: bytes, step: Result<Progress>, rest: bytes)
    requires ParserOk(s.box) && (step.Ok? ==> ParserOk(step.value.core.box))
    requires ProcessedBytes(s, x + rest) == AfterStep(|x|, step, rest)
    ensures ByBytes(s, x + rest, false) == RunOn(step, rest)
  {
    hide ByBytes, ProcessedBytes, ParserOk;
    ProcessedIsByBytes(s, x + rest);
    if step.Ok? {
      if step.value.segment.Some? {
        assert (x + rest)[|x|..] == rest;
      } else {
        QuietStepRuns(s, x, step.value.core, rest);
      }
    }
  }

  lemma QuietStepRuns(s: Core, x: bytes, next: Core, rest: bytes)
    requires ParserOk(s.box) && ParserOk(next.box)
    requires ProcessedBytes(s, x + rest) == match ProcessedBytes(next, rest)
                                            case Err(e) => Err(e)
                                            case Ok(r) => Ok(r.(consumed := r.consumed + |x|))
    ensures ByBytes(s, x + rest, false) == Before([], ByBytes(next, rest, false))
  {
    hide ByBytes, ProcessedBytes, ParserOk;
    ProcessedIsByBytes(s, x + rest);
    ProcessedIsByBytes(next, rest);
    BeforeNothing(ByBytes(next, rest, false));
    if ProcessedBytes(next, rest).Ok? {
      DropFront(x, rest, ProcessedBytes(next, rest).value.consumed, ProcessedBytes(s, x + rest).value.consumed);
    }
  }

  lemma DropFront(x: bytes, rest: bytes, n: nat, m: nat)
    requires n <= |rest| && m == n + |x|
    ensures (x + rest)[m..] == rest[n..]
  {}

  function Begun(s: Core, b: TopBox): Result<Core>
    requires Sized(b)
  {
    BeginBox(Opened(s, b), HeadSize(b) + |b.body|, HeadSize(b))
  }

  /** What beginning a box leaves of its header, and how much of it is to come. */
  lemma BeginRemains(s: Core, b: TopBox)
    requires Sized(b) && Begun(s, b).Ok?
    ensures var begun := Begun(s, b).value;
            begun.box.remaining == |b.body| && begun.box.header == BoxHead(b) && begun.box.required == HeadSize(b)
  {
    hide CompleteInit, BeginMedia, BoxHead, WriteSetup, WriteSource;
  }

  lemma FilledWithNothing(s: Core)
    requires s.box.remaining == 0
    ensures Filled(s, []) == s
  {
    assert s.setup.init + [] == s.setup.init && s.source.moof + [] == s.source.moof && s.source.styp + [] == s.source.styp;
    assert s.source.prefix + [] == s.source.prefix && s.queue.payload + [] == s.queue.payload;
    assert s.queue.log.open + [] == s.queue.log.open;
  }

  /** The end of a header: the box begins, and ends if nothing follows. */
  function HeadStep(s: Core, b: TopBox): Result<Progress>
    requires Sized(b)
  {
    match Begun(s, b)
    case Err(e) => Err(e)
    case Ok(begun) => if b.body == [] then FinishBox(begun) else Ok(Progress(begun, None))
  }

  /** A whole box: it is begun, filled and finished. */
  function BoxStep(s: Core, b: TopBox): Result<Progress>
    requires Sized(b)
  {
    match Begun(s, b)
    case Err(e) => Err(e)
    case Ok(begun) => FinishBox(Filled(begun, b.body))
  }

  lemma StepsReadable(s: Core, b: TopBox)
    requires Sized(b)
    ensures HeadStep(s, b).Ok? ==> ParserOk(HeadStep(s, b).value.core.box)
    ensures BoxStep(s, b).Ok? ==> BoxStep(s, b).value.core.box == NO_BOX && ParserOk(NO_BOX)
  {
    hide BeginBox, FinishBox, BoxHead;
    if Begun(s, b).Ok? {
      var begun := Begun(s, b).value;
      BeginRemains(s, b);
      FinishBoxForgets(begun);
      FinishBoxForgets(Filled(begun, b.body));
    }
  }

  /** The last part of a header begins the box. */
  lemma HeadEnds(s: Core, b: TopBox, from: Core, last: bytes)
    requires ParserOk(s.box) && Sized(b) && |s.box.header| + |last| == s.box.required == HeadSize(b) && last != []
    requires s.box.header + last == BoxHead(b)
    requires var s1 := s.(box := s.box.(header := BoxHead(b)));
             (if b.long then s1 else s1.(box := s1.box.(kind := b.kind))) == Opened(from, b)
    ensures HeaderStep(s, last) == HeadStep(from, b)
  {
    hide BeginBox, FinishBox, ReadBe32, ReadBe64, Header, Be64;
    BeginRemainsIf(from, b);
    if b.long { LongFields(16 + |b.body|, b.kind); } else { HeaderFields(8 + |b.body|, b.kind); }
  }

  lemma BeginRemainsIf(s: Core, b: TopBox)
    requires Sized(b)
    ensures Begun(s, b).Ok? ==> Begun(s, b).value.box.remaining == |b.body|
  {
    hide Begun;
    if Begun(s, b).Ok? { BeginRemains(s, b); }
  }

  /** The header, read in its one or two parts. */
  lemma HeadReads(s: Core, b: TopBox, rest: bytes)
    requires s.box == NO_BOX && Sized(b)
    ensures HeadStep(s, b).Ok? ==> ParserOk(HeadStep(s, b).value.core.box)
    ensures ByBytes(s, BoxHead(b) + rest, false) == RunOn(HeadStep(s, b), rest)
  {
    hide BeginBox, FinishBox, Header, ReadBe32, ReadBe64, ProcessedBytes, ByBytes, HeadStep;
    StepsReadable(s, b);
    var size := HeadSize(b) + |b.body|;
    var first := if b.long then Header(1, b.kind) else Header(size, b.kind);
    HeaderFields(if b.long then 1 else size, b.kind);
    assert s.box.header + first == first;
    if b.long {
      var more := Be64(size);
      var s2 := s.(box := s.box.(header := first, required := 16, kind := b.kind));
      assert HeaderStep(s, first) == Ok(Progress(s2, None));
      BulkHeader(s, first, more + rest);
      StepRuns(s, first, HeaderStep(s, first), more + rest);
      assert first + (more + rest) == BoxHead(b) + rest;
      HeadEnds(s2, b, s, more);
      BulkHeader(s2, more, rest);
      StepRuns(s2, more, HeaderStep(s2, more), rest);
      BeforeNothing(ByBytes(s2, more + rest, false));
    } else {
      HeadEnds(s, b, s, first);
      BulkHeader(s, first, rest);
      StepRuns(s, first, HeaderStep(s, first), rest);
    }
  }

  /** A whole box read byte by byte is begun, filled and finished. */
  lemma BoxReads(s: Core, b: TopBox)
    requires s.box == NO_BOX && Sized(b)
    ensures BoxStep(s, b).Ok? ==> ParserOk(BoxStep(s, b).value.core.box)
    ensures ByBytes(s, BoxBytes(b), false) == RunOn(BoxStep(s, b), [])
  {
    hide BeginBox, FinishBox, BoxHead, ByBytes, WriteBoxData, ParserOk, Begun;
    HeadReads(s, b, b.body);
    StepsReadable(s, b);
    if Begun(s, b).Ok? {
      var begun := Begun(s, b).value;
      BeginRemains(s, b);
      if b.body == [] {
        FilledWithNothing(begun);
      } else {
        BulkBody(begun, b.body, []);
        assert b.body + [] == b.body;
        WholeBody(begun, b.body);
        StepRuns(begun, b.body, BodyStep(begun, b.body), []);
        BeforeNothing(ByBytes(begun, b.body, false));
      }
    }
  }

  lemma WholeBody(s: Core, body: bytes)
    requires ParserOk(s.box) && |s.box.header| == s.box.required && |body| == s.box.remaining
    ensures BodyStep(s, body) == FinishBox(Filled(s, body))
  {
    hide FinishBox, WriteBoxData;
    KeepsBox(s, body);
  }

  lemma KeepsBox(s: Core, body: bytes)
    ensures WriteBoxData(s, body).box == s.box
  {}
}
