/**
 * The incremental reader as a state machine fed one byte at a time, with a history of what each track
 * accepted and emitted. The class in Mp4Class.dfy, which copies whole slices, is proved against it.
 */
module Mp4Reader {
  import opened Bytes
  import opened Mp4Types
  import opened Mp4Parse
  import opened Mp4Select
  import opened Mp4Audio
  import opened Mp4Build

  datatype Target = NoTarget | InitTarget | MoofTarget | PayloadTarget | StypTarget | PrefixTarget

  /** The box being read: its header so far, how long the header is, and what is left of the body. */
  datatype BoxState = BoxState(header: bytes, required: nat, kind: u32, remaining: u64, target: Target)

  const NO_BOX: BoxState := BoxState([], 8, 0, 0, NoTarget)

  datatype Config = Config(seconds: u64, diff: u64, offsetSeconds: nat)

  datatype Hints = Hints(video: u32, videoScale: u32, audio: u32, audioScale: u32)

  /** The initialization read so far and the tracks it declared. */
  datatype Setup = Setup(
    init: bytes, moovCompleted: bool, initDone: bool, video: TrackIds, audio: TrackIds, newInit: Option<bytes>)

  /** Boxes between the fragments, and the fragment whose `mdat` has not come yet. */
  datatype Source = Source(
    moof: bytes, styp: bytes, firstStyp: bytes, prefix: bytes, prefixActive: bool,
    pending: Option<Fragment>, fromMoof: int, mfraDone: bool, finalMoovDone: bool)

  /** What one track accepted from the stream and put into segments. */
  datatype TrackLog = TrackLog(
    bytesIn: bytes, bytesOut: bytes, samplesIn: seq<Sample>, samplesOut: seq<Sample>, inferred: bool)

  /** History only; `open` is the part of the current `mdat` body read so far. */
  datatype Log = Log(video: TrackLog, audio: TrackLog, open: bytes)

  /** The queued fragments, the buffer their payloads share, and the counters of the segments built. */
  datatype Queue = Queue(
    video: seq<Fragment>, audio: seq<Fragment>, payload: bytes, payloadStart: nat,
    sequence: u32, lastVideoEnd: u64, completed: u64, log: Log)

  /** The reader without the bytes it deferred and the segment waiting to be taken. */
  datatype Core = Core(config: Config, box: BoxState, setup: Setup, source: Source, hints: Hints, queue: Queue)

  const NO_TRACK_LOG: TrackLog := TrackLog([], [], [], [], false)

  function NewCore(config: Config): Core {
    Core(config, NO_BOX, Setup([], false, false, NO_TRACK, NO_TRACK, None),
         Source([], [], [], [], false, None, 0, false, false), Hints(0, 0, 0, 0),
         Queue([], [], [], 0, 1, 0, 0, Log(NO_TRACK_LOG, NO_TRACK_LOG, [])))
  }

  // ----- boxes -----

  /** The header is never longer than required, and a complete one has body bytes left to read. */
  predicate ParserOk(b: BoxState) {
    && b.required in {8, 16}
    && |b.header| <= b.required
    && (|b.header| == b.required ==> b.remaining > 0)
  }

  function WriteSource(r: Source, target: Target, data: bytes): Source {
    match target
    case MoofTarget => r.(moof := r.moof + data)
    case StypTarget => r.(styp := r.styp + data)
    case PrefixTarget => r.(prefix := r.prefix + data)
    case _ => r
  }

  function WriteSetup(u: Setup, target: Target, data: bytes): Setup {
    if target.InitTarget? then u.(init := u.init + data) else u
  }

  function WritePayload(q: Queue, target: Target, data: bytes): Queue {
    if target.PayloadTarget? then q.(payload := q.payload + data, log := q.log.(open := q.log.open + data)) else q
  }

  function WriteBoxData(s: Core, data: bytes): Core {
    s.(setup := WriteSetup(s.setup, s.box.target, data), source := WriteSource(s.source, s.box.target, data),
       queue := WritePayload(s.queue, s.box.target, data))
  }

  function CompleteInit(u: Setup): Result<Setup> {
    if !u.moovCompleted || u.init == [] then Err(IncompleteInit) else
    match ParseInitTracks(u.init)
    case Err(e) => Err(e)
    case Ok((video, audio)) => Ok(u.(video := video, audio := audio, initDone := true, newInit := Some(u.init)))
  }

  /** Bytes between `moof` and `mdat` shift where the payload starts. */
  function CountBetween(r: Source, size: u64): Source {
    if r.pending.Some? then r.(fromMoof := r.fromMoof + size) else r
  }

  /** A box after the initialization, before any of its body is read: where its bytes go. */
  function BeginMedia(r: Source, kind: u32, size: u64, headerSize: nat): Result<(Source, Target)> {
    if r.finalMoovDone then Err(BoxAfterFinalMoov) else
    if r.mfraDone && kind != MOOV then Err(OnlyMoovAfterMfra) else
    if kind == MOOF then
      if r.pending.Some? then Err(MoofBeforeMdat) else Ok((r.(moof := [], fromMoof := 0), MoofTarget))
    else if kind == MDAT then
      if r.pending.None? then Err(MdatWithoutMoof) else Ok((r.(fromMoof := r.fromMoof + headerSize), PayloadTarget))
    else if kind == SIDX then Ok((CountBetween(r, size), NoTarget))
    else if kind == STYP then
      if r.pending.Some? then Err(StypInsideFragment) else Ok((r.(styp := []), StypTarget))
    else if kind == EMSG || kind == FREE || kind == PRFT then
      Ok((CountBetween(r, size).(prefixActive := true), PrefixTarget))
    else if kind == MFRA then
      if r.pending.Some? then Err(MfraInsideFragment) else
      if r.mfraDone then Err(DuplicateMfra) else Ok((r, NoTarget))
    else if kind == MOOV then
      if !r.mfraDone then Err(UnexpectedMoov) else
      if r.finalMoovDone then Err(DuplicateMoov) else
      if r.pending.Some? then Err(MoovInsideFragment) else Ok((r, NoTarget))
    else Err(UnsupportedBox)
  }

  /** The header bytes of `mdat` are not payload; those of every other kept box are kept with it. */
  function BeginTarget(s: Core, target: Target): Core {
    var s1 := s.(box := s.box.(target := target));
    if target.PayloadTarget? then
      s1.(queue := s.queue.(payloadStart := |s.queue.payload|, log := s.queue.log.(open := [])))
    else WriteBoxData(s1, s.box.header)
  }

  function BeginBox(s: Core, size: u64, headerSize: nat): Result<Core> {
    var kind := s.box.kind;
    if size < headerSize then Err(InvalidBoxSize) else
    if (kind == MOOF || kind == MDAT) && size > I32_MAX then Err(BoxTooLarge) else
    match (if !s.setup.initDone && (kind == STYP || kind == MOOF) then CompleteInit(s.setup) else Ok(s.setup))
    case Err(e) => Err(e)
    case Ok(setup) =>
      var s1 := s.(box := s.box.(remaining := size - headerSize, target := NoTarget), setup := setup);
      if setup.initDone then
        match BeginMedia(s.source, kind, size, headerSize)
        case Err(e) => Err(e)
        case Ok((source, target)) => Ok(BeginTarget(s1.(source := source), target))
      else if kind == MDAT then Err(MdatBeforeInit)
      else if kind == MFRA then Err(MfraBeforeInit)
      else Ok(BeginTarget(s1, InitTarget))
  }

  // ----- completing boxes -----

  function LastNonZeroDuration(samples: seq<Sample>): u32 {
    if samples == [] then 0 else
    var last := samples[|samples| - 1].duration;
    if last != 0 then last else LastNonZeroDuration(samples[..|samples| - 1])
  }

  /** The last run marked as having an inferred duration. */
  function LastInferred(runs: seq<Run>): Option<nat> {
    if runs == [] then None else
    if runs[|runs| - 1].inferred then Some(|runs| - 1) else LastInferred(runs[..|runs| - 1])
  }

  function ClearInferred(runs: seq<Run>): (r: seq<Run>)
    ensures |r| == |runs|
  {
    if runs == [] then [] else [runs[0].(inferred := false)] + ClearInferred(runs[1..])
  }

  /** A run whose last sample lasts `exact` instead. */
  function WithLastDuration(run: Run, exact: u32): Run {
    if run.samples == [] then run else
    var n := |run.samples| - 1;
    run.(samples := run.samples[n := run.samples[n].(duration := exact)],
         duration := Max(run.duration - run.samples[n].duration as int, 0) + exact as int)
  }

  function ResolveFragment(previous: Fragment, next: u64): Result<(Fragment, u32)> {
    var index := LastInferred(previous.runs);
    if index.None? || index.value >= |previous.runs| || previous.runs[index.value].samples == [] then
      Err(InferredMarkerMissing)
    else
      var run := previous.runs[index.value];
      var was: int := run.samples[|run.samples| - 1].duration;
      if previous.duration < was then Err(InvalidInferredDuration) else
      var start: int := Wrap64(previous.decodeTime as int + previous.duration as int - was);
      if next < start then Err(DecodeTimeBackwards) else
      var exact: int := next as int - start;
      if exact > U32_MAX then Err(InferredTooLong) else
      Ok((previous.(runs := ClearInferred(previous.runs[index.value := WithLastDuration(run, exact)]),
                    duration := Wrap64(previous.duration as int - was + exact), inferred := false), exact))
  }

  /** The next fragment of the track tells how long a sample without a known duration really lasted. */
  function ResolveInferred(queue: seq<Fragment>, current: Fragment): Result<(seq<Fragment>, u32)> {
    if queue == [] || !queue[|queue| - 1].inferred then Ok((queue, 0)) else
    match ResolveFragment(queue[|queue| - 1], current.decodeTime)
    case Err(e) => Err(e)
    case Ok((resolved, exact)) => Ok((queue[..|queue| - 1] + [resolved], exact))
  }

  function HintFor(hint: u32, hintScale: u32, track: TrackIds): u32 {
    if hintScale == track.timescale then hint else 0
  }

  function Remember(h: Hints, u: Setup, trackId: u32, duration: u32, timescale: u32): Hints {
    if duration == 0 then h
    else if trackId == u.video.id then h.(video := duration, videoScale := timescale)
    else if trackId == u.audio.id then h.(audio := duration, audioScale := timescale)
    else h
  }

  function ResolvePrevious(q: Queue, h: Hints, u: Setup, f: Fragment): Result<(Queue, Hints)> {
    if f.trackId == u.video.id then
      match ResolveInferred(q.video, f)
      case Err(e) => Err(e)
      case Ok((video, exact)) => Ok((q.(video := video), Remember(h, u, f.trackId, exact, f.timescale)))
    else if f.trackId == u.audio.id then
      match ResolveInferred(q.audio, f)
      case Err(e) => Err(e)
      case Ok((audio, exact)) => Ok((q.(audio := audio), Remember(h, u, f.trackId, exact, f.timescale)))
    else Ok((q, h))
  }

  /** The fragment a complete `moof` describes. */
  function MoofFragment(s: Core): Result<Fragment> {
    ParsedMoof(s.source.moof, s.setup.video, s.setup.audio,
               HintFor(s.hints.video, s.hints.videoScale, s.setup.video),
               HintFor(s.hints.audio, s.hints.audioScale, s.setup.audio))
  }

  function CompleteMoof(s: Core): Result<Core> {
    match MoofFragment(s)
    case Err(e) => Err(e)
    case Ok(f) =>
      match ResolvePrevious(s.queue, s.hints, s.setup, f)
      case Err(e) => Err(e)
      case Ok((queue, hints)) =>
        var last := if f.inferred then 0 else LastNonZeroDuration(RunSamples(f.runs));
        Ok(s.(queue := queue, hints := Remember(hints, s.setup, f.trackId, last, f.timescale),
              source := s.source.(pending := Some(f), fromMoof := |s.source.moof|)))
  }

  /** Source data offsets, where present, follow one another from the start of the payload. */
  predicate Contiguous(runs: seq<Run>, fromMoof: int) {
    forall i | 0 <= i < |runs| ::
      runs[i].sourceDataOffset.Some? ==> runs[i].sourceDataOffset.value - fromMoof == RunsSize(runs[..i])
  }

  function AttachPayload(f: Fragment, start: nat, length: nat, fromMoof: int): Result<Fragment> {
    if !Contiguous(f.runs, fromMoof) then Err(NonContiguousMdat) else
    if RunsSize(f.runs) != length then Err(MdatSizeMismatch) else
    Ok(f.(runs := LaidOut(f.runs), payloadStart := start, payloadLen := length))
  }

  function Accept(t: TrackLog, f: Fragment, open: bytes): TrackLog {
    t.(bytesIn := t.bytesIn + open, samplesIn := t.samplesIn + RunSamples(f.runs), inferred := t.inferred || f.inferred)
  }

  /** A fragment with its payload joins the queue of its track. */
  function Enqueue(q: Queue, u: Setup, f: Fragment): Result<Queue> {
    if f.trackId == u.video.id then
      Ok(q.(video := q.video + [f], payloadStart := 0,
            log := q.log.(video := Accept(q.log.video, f, q.log.open), open := [])))
    else if u.audio.id != 0 && f.trackId == u.audio.id then
      Ok(q.(audio := q.audio + [f], payloadStart := 0,
            log := q.log.(audio := Accept(q.log.audio, f, q.log.open), open := [])))
    else Err(UnsupportedTrack)
  }

  function CompleteMdat(s: Core): Result<Core> {
    if s.source.pending.None? then Err(MdatWithoutMoof) else
    if s.queue.payloadStart > |s.queue.payload| then Err(PayloadOutOfRange) else
    match AttachPayload(s.source.pending.value, s.queue.payloadStart, |s.queue.payload| - s.queue.payloadStart,
                        s.source.fromMoof)
    case Err(e) => Err(e)
    case Ok(f) =>
      match Enqueue(s.queue, s.setup, f)
      case Err(e) => Err(e)
      case Ok(queue) => Ok(s.(queue := queue, source := s.source.(pending := None, fromMoof := 0, moof := [])))
  }

  // ----- building -----

  /** The smallest payload start among the fragments that hold bytes. */
  function MinStart(fs: seq<Fragment>): Option<nat> {
    if fs == [] then None else
    var rest := MinStart(fs[1..]);
    if fs[0].payloadLen == 0 then rest else
    if rest.Some? && rest.value < fs[0].payloadStart then rest else Some(fs[0].payloadStart)
  }

  function Rebase(fs: seq<Fragment>, shift: nat): (r: seq<Fragment>)
    ensures |r| == |fs|
    ensures forall i | 0 <= i < |fs| :: r[i] == MoveDown(fs[i], shift)
  {
    if fs == [] then [] else [MoveDown(fs[0], shift)] + Rebase(fs[1..], shift)
  }

  function MoveDown(f: Fragment, shift: nat): Fragment {
    if f.payloadLen > 0 then f.(payloadStart := Max(f.payloadStart - shift, 0)) else f
  }

  /** `reclaim_payloads`: bytes before the first one still queued are dropped and ranges move down. */
  function Reclaim(q: Queue): Queue {
    if q.payload == [] then q else
    match MinStart(q.video + q.audio)
    case None => q.(payload := [], payloadStart := 0)
    case Some(shift) =>
      if shift == 0 then q else
      q.(payload := q.payload[Min(shift, |q.payload|)..], video := Rebase(q.video, shift),
         audio := Rebase(q.audio, shift), payloadStart := Max(q.payloadStart - shift, 0))
  }

  function PayloadOf(payload: bytes, fs: seq<Fragment>): bytes {
    match CollectPayload(payload, fs)
    case Err(_) => []
    case Ok(b) => b
  }

  function Emit(t: TrackLog, payload: bytes, fs: seq<Fragment>): TrackLog {
    t.(bytesOut := t.bytesOut + PayloadOf(payload, fs), samplesOut := t.samplesOut + QueueSamples(fs))
  }

  /** The queues after their first `v` video and `a` audio fragments went into a segment. */
  function Drop(q: Queue, v: nat, a: nat): Queue
    requires 0 < v <= |q.video| && a <= |q.audio|
  {
    q.(sequence := (q.sequence + 1) % 0x1_0000_0000, lastVideoEnd := EndTime(q.video[v - 1]),
       completed := Wrap64(q.completed as int + 1), video := q.video[v..], audio := q.audio[a..],
       log := q.log.(video := Emit(q.log.video, q.payload, q.video[..v]),
                     audio := Emit(q.log.audio, q.payload, q.audio[..a])))
  }

  datatype Built = Built(queue: Queue, segment: Segment)

  function Build(q: Queue, e: Envelope, v: nat, a: nat): Result<Built>
    requires 0 < v <= |q.video| && a <= |q.audio|
  {
    match SegmentOf(e, q.video[..v], q.audio[..a], q.payload)
    case Err(error) => Err(error)
    case Ok(segment) => Ok(Built(Reclaim(Drop(q, v, a)), segment))
  }

  function ChooseVideo(q: Queue, c: Config, videoScale: u32): Result<nat> {
    SelectVideoCount(q.video, c.seconds, c.diff, videoScale, q.completed, q.lastVideoEnd)
  }

  /** How the next segment is cut: the queue with its audio cut, and how many fragments it takes of each track. */
  datatype Cut = NoCut | Cut(audio: seq<Fragment>, v: nat, a: nat)

  function ChooseCut(q: Queue, c: Config, u: Setup): (r: Result<Cut>)
    ensures r.Ok? && r.value.Cut? ==> 0 < r.value.v <= |q.video| && r.value.a <= |r.value.audio|
  {
    match ChooseVideo(q, c, u.video.timescale)
    case Err(e) => Err(e)
    case Ok(v) =>
      if v == 0 then Ok(NoCut) else
      if v > |q.video| then Err(InvalidFragmentCount) else
      if u.audio.id == 0 then Ok(Cut(q.audio, v, 0)) else
      match CutQueue(q.audio, u.video.timescale, EndTime(q.video[v - 1]))
      case Err(e) => Err(e)
      case Ok((audio, a)) =>
        if a == 0 then Ok(NoCut) else
        if a > |audio| then Err(InvalidFragmentCount) else Ok(Cut(audio, v, a))
  }

  /** Queues and segment of one more segment, or `None` while none is due. */
  function BuildNext(q: Queue, c: Config, u: Setup, e: Envelope): Result<Option<Built>> {
    match ChooseCut(q, c, u)
    case Err(error) => Err(error)
    case Ok(NoCut) => Ok(None)
    case Ok(Cut(audio, v, a)) =>
      match Build(q.(audio := audio), e, v, a)
      case Err(error) => Err(error)
      case Ok(built) => Ok(Some(built))
  }

  function EnvelopeOf(s: Core): Envelope {
    Envelope(s.source.firstStyp, if s.source.prefixActive then s.source.prefix else [], s.queue.sequence,
             s.config.offsetSeconds)
  }

  /** A step result: the reader, and the segment the step completed. */
  datatype Progress = Progress(core: Core, segment: Option<Segment>)

  /** `try_build_segment`. */
  function TryBuild(s: Core): Result<Progress> {
    match BuildNext(s.queue, s.config, s.setup, EnvelopeOf(s))
    case Err(e) => Err(e)
    case Ok(None) => Ok(Progress(s, None))
    case Ok(Some(built)) =>
      Ok(Progress(s.(queue := built.queue, source := s.source.(prefix := [], prefixActive := false)), Some(built.segment)))
  }

  function CompleteStyp(r: Source): Source {
    r.(firstStyp := if r.firstStyp == [] && r.styp != [] then r.styp else r.firstStyp, styp := [])
  }

  function CompleteBox(s: Core): Result<Progress> {
    var kind := s.box.kind;
    if kind == STYP then Ok(Progress(s.(source := CompleteStyp(s.source)), None))
    else if kind == MFRA then Ok(Progress(s.(source := s.source.(mfraDone := true)), None))
    else if kind == MOOV then
      if !s.setup.initDone then Ok(Progress(s.(setup := s.setup.(moovCompleted := true)), None)) else
      if !s.source.mfraDone || s.source.finalMoovDone then Err(UnexpectedMoov) else
      Ok(Progress(s.(source := s.source.(finalMoovDone := true)), None))
    else if kind == MOOF then
      match CompleteMoof(s)
      case Err(e) => Err(e)
      case Ok(s1) => Ok(Progress(s1, None))
    else if kind == MDAT then
      match CompleteMdat(s)
      case Err(e) => Err(e)
      case Ok(s1) => TryBuild(s1)
    else Ok(Progress(s, None))
  }

  /** The box is complete: act on it and wait for the next header. */
  function FinishBox(s: Core): Result<Progress> {
    match CompleteBox(s)
    case Err(e) => Err(e)
    case Ok(p) => Ok(p.(core := p.core.(box := NO_BOX)))
  }

  /** All required header bytes are there: a longer header is needed, or a box begins. */
  function HeaderComplete(s: Core): Result<Progress>
    requires s.box.required in {8, 16} && |s.box.header| == s.box.required
  {
    if s.box.required == 8 && ReadBe32(s.box.header, 0) == 1 then
      Ok(Progress(s.(box := s.box.(required := 16, kind := ReadBe32(s.box.header, 4))), None))
    else if s.box.required == 8 && ReadBe32(s.box.header, 0) == 0 then Err(ZeroBoxSize)
    else
      var begun := if s.box.required == 8
        then BeginBox(s.(box := s.box.(kind := ReadBe32(s.box.header, 4))), ReadBe32(s.box.header, 0), 8)
        else BeginBox(s, ReadBe64(s.box.header, 8), 16);
      match begun
      case Err(e) => Err(e)
      case Ok(s1) => if s1.box.remaining == 0 then FinishBox(s1) else Ok(Progress(s1, None))
  }

  /** One byte of the stream. */
  function FeedByte(s: Core, b: byte): Result<Progress>
    requires ParserOk(s.box)
  {
    if |s.box.header| < s.box.required then
      var s1 := s.(box := s.box.(header := s.box.header + [b]));
      if |s1.box.header| < s1.box.required then Ok(Progress(s1, None)) else HeaderComplete(s1)
    else
      var s1 := WriteBoxData(s, [b]).(box := s.box.(remaining := s.box.remaining - 1));
      if s1.box.remaining == 0 then FinishBox(s1) else Ok(Progress(s1, None))
  }
}
