/** Where a segment ends: the video boundary, the audio that covers it, and the nanosecond timeline. */
module Mp4Select {
  import opened Bytes
  import opened Mp4Types

  // ----- timeline -----

  function TimelineNanoseconds(value: u64, timescale: u32): Result<u64> {
    if timescale == 0 then Err(ZeroTimescale) else
    var seconds: int := value / timescale;
    var rest: int := value % timescale;
    if seconds * NANOSECONDS > U64_MAX then Err(TimelineOverflow) else
    var fraction: int := rest * NANOSECONDS / timescale;
    if fraction < 0 || seconds * NANOSECONDS + fraction > U64_MAX then Err(TimelineOverflow) else
    Ok(seconds * NANOSECONDS + fraction)
  }

  lemma DivideShifted(a: int, b: int, t: int)
    requires t > 0
    ensures (a * t + b) / t == a + b / t
  {
    var q, r := b / t, b % t;
    assert a * t + b == (a + q) * t + r;
    DivideUnique(a * t + b, t, a + q, r);
  }

  lemma DivideUnique(x: int, t: int, q: int, r: int)
    requires t > 0 && 0 <= r < t && x == q * t + r
    ensures x / t == q
  {
    var d := q - x / t;
    assert x == x / t * t + x % t;
    assert d * t == x % t - r;
    if d > 0 {
      AtLeastOnce(d, t);
    } else if d < 0 {
      AtLeastOnce(-d, t);
    }
  }

  lemma AtLeastOnce(d: int, t: int)
    requires d >= 1 && t > 0
    ensures d * t >= t && (-d) * t <= -t
  {}

  /** Seconds and remainder are scaled apart, yet the result is the exact floor, refused only when it does not fit. */
  lemma TimelineIsExactFloor(value: u64, timescale: u32)
    requires timescale != 0
    ensures TimelineNanoseconds(value, timescale)
         == if value * NANOSECONDS / timescale > U64_MAX then Err(TimelineOverflow)
            else Ok(value * NANOSECONDS / timescale)
  {
    var seconds: int := value / timescale;
    var rest: int := value % timescale;
    assert value == seconds * timescale + rest;
    assert value * NANOSECONDS == (seconds * NANOSECONDS) * timescale + rest * NANOSECONDS;
    DivideShifted(seconds * NANOSECONDS, rest * NANOSECONDS, timescale);
    FloorNonNegative(rest * NANOSECONDS, timescale);
  }

  lemma FloorNonNegative(x: nat, t: int)
    requires t > 0
    ensures x / t >= 0
  {}

  /** `to_units` for a whole number of seconds: refused above 2^64, saturating at it. */
  function ToUnits(seconds: u64, timescale: u32): Result<u64> {
    if seconds * timescale > U64_MAX + 1 then Err(InvalidTimeline) else
    Ok(Min(seconds * timescale, U64_MAX))
  }

  // ----- video -----

  /** Whether the finished segments run so far ahead of the schedule that the next sync boundary is taken early. */
  predicate AheadOfSchedule(completed: u64, seconds: u64, diff: u64, timescale: u32, lastEnd: u64) {
    && completed > 0 && diff > 0
    && var expected := Wrap64(Wrap64(completed * seconds) * timescale);
       lastEnd > expected && lastEnd - expected >= Wrap64(Min(seconds as int + diff as int, U64_MAX) * timescale)
  }

  lemma Distributes(completed: nat, seconds: nat, diff: nat, timescale: nat)
    ensures (completed * seconds) * timescale + (seconds + diff) * timescale == ((completed + 1) * seconds + diff) * timescale
  {
    assert (completed + 1) * seconds == completed * seconds + seconds;
  }

  /**
   * Where the products fit in 64 bits: the last video ended at least a whole segment and the margin later than the finished
   * segments are long by schedule.
   */
  lemma AheadMeans(completed: u64, seconds: u64, diff: u64, timescale: u32, lastEnd: u64)
    requires timescale > 0 && (completed * seconds) * timescale <= U64_MAX && (seconds + diff) * timescale <= U64_MAX
    ensures AheadOfSchedule(completed, seconds, diff, timescale, lastEnd)
       <==> completed > 0 && diff > 0 && lastEnd as int >= ((completed + 1) * seconds + diff) * timescale
  {
    Distributes(completed, seconds, diff, timescale);
    Factors(completed * seconds, timescale);
    Factors(seconds + diff, timescale);
  }

  lemma Factors(a: nat, t: nat)
    requires t > 0
    ensures a <= a * t && (a > 0 ==> a * t > 0)
  {}

  function SelectFrom(
    video: seq<Fragment>, index: nat, duration: u64, selected: nat, early: bool, target: u64): nat
    decreases |video| - index
  {
    if index + 1 >= |video| then 0 else
    var total := Wrap64(duration as int + video[index].duration as int);
    var sync := video[index + 1].startsWithSync;
    if !early then
      if total >= target && sync then index + 1
      else SelectFrom(video, index + 1, total, selected, early, target)
    else if total <= target then
      if sync && total == target then index + 1
      else SelectFrom(video, index + 1, total, if sync then index + 1 else selected, early, target)
    else if selected > 0 then selected
    else if sync then index + 1
    else SelectFrom(video, index + 1, total, selected, early, target)
  }

  /** The duration of the first `n` fragments. */
  function PrefixDuration(fs: seq<Fragment>, n: nat): nat
    requires n <= |fs|
  {
    if n == 0 then 0 else PrefixDuration(fs, n - 1) + fs[n - 1].duration as int
  }

  lemma {:induction false} PrefixMonotone(fs: seq<Fragment>, m: nat, n: nat)
    requires m <= n <= |fs|
    ensures PrefixDuration(fs, m) <= PrefixDuration(fs, n)
  {
    if m < n {
      PrefixMonotone(fs, m, n - 1);
    }
  }

  /** A cut before fragment `k`: it starts with a sync sample and is not the first. */
  predicate SyncBoundary(fs: seq<Fragment>, k: nat) {
    1 <= k < |fs| && fs[k].startsWithSync
  }

  /** Every chosen cut is a sync boundary, so one video fragment stays queued and the next segment starts in sync. */
  lemma {:induction false} SelectedIsBoundary(
    video: seq<Fragment>, index: nat, duration: u64, selected: nat, early: bool, target: u64)
    requires selected > 0 ==> SyncBoundary(video, selected)
    ensures var k := SelectFrom(video, index, duration, selected, early, target); k > 0 ==> SyncBoundary(video, k)
    decreases |video| - index
  {
    if index + 1 < |video| {
      var total := Wrap64(duration as int + video[index].duration as int);
      var sync := video[index + 1].startsWithSync;
      SelectedIsBoundary(video, index + 1, total, selected, early, target);
      SelectedIsBoundary(video, index + 1, total, if sync then index + 1 else selected, early, target);
    }
  }

  /** On schedule, the cut is the first sync boundary at or after the target duration; none means there is none. */
  lemma {:induction false} RegularSelection(video: seq<Fragment>, index: nat, target: u64)
    requires index <= |video| && PrefixDuration(video, |video|) <= U64_MAX
    requires PrefixDuration(video, index) <= U64_MAX
    ensures var k := SelectFrom(video, index, PrefixDuration(video, index), 0, false, target);
            && (k > 0 ==> index < k && SyncBoundary(video, k) && PrefixDuration(video, k) >= target)
            && (forall j | index < j && SyncBoundary(video, j) && (k == 0 || j < k)
                  :: PrefixDuration(video, j) < target)
    decreases |video| - index
  {
    if index + 1 < |video| {
      PrefixMonotone(video, index + 1, |video|);
      assert PrefixDuration(video, index + 1) == PrefixDuration(video, index) + video[index].duration as int;
      RegularSelection(video, index + 1, target);
    }
  }

  /**
   * Ahead of schedule, the cut is the last sync boundary within the target if there is one, else the first
   * boundary beyond it; nothing is cut before the target while a later boundary within the target may still arrive.
   */
  lemma {:induction false} EarlySelection(video: seq<Fragment>, index: nat, selected: nat, target: u64)
    requires index <= |video| && PrefixDuration(video, |video|) <= U64_MAX
    requires PrefixDuration(video, index) <= U64_MAX
    requires selected > 0 ==> SyncBoundary(video, selected) && selected <= index && PrefixDuration(video, selected) < target
                              && PrefixDuration(video, index) <= target
    requires forall j | selected < j <= index && j < |video| :: !SyncBoundary(video, j)
    ensures var k := SelectFrom(video, index, PrefixDuration(video, index), selected, true, target);
            && (k > 0 ==> SyncBoundary(video, k))
            && (k > 0 && PrefixDuration(video, k) <= target
                ==> forall j | k < j < |video| && SyncBoundary(video, j) :: PrefixDuration(video, j) >= target)
            && (k > 0 && PrefixDuration(video, k) > target ==> forall j: nat | j < k :: !SyncBoundary(video, j))
            && (k > 0 && PrefixDuration(video, k) <= target
                ==> forall j | index < j < k && SyncBoundary(video, j) :: PrefixDuration(video, j) < target)
            && (k > 0 && PrefixDuration(video, k) < target ==> PrefixDuration(video, |video| - 1) > target)
            && (k == 0 ==> forall j | index < j && SyncBoundary(video, j) :: PrefixDuration(video, j) < target)
            && (k == 0 && index < |video| && PrefixDuration(video, |video| - 1) > target
                ==> selected == 0 && forall j | index < j :: !SyncBoundary(video, j))
    decreases |video| - index
  {
    if index + 1 < |video| {
      var next := index + 1;
      PrefixMonotone(video, next, |video|);
      assert PrefixDuration(video, next) == PrefixDuration(video, index) + video[index].duration as int;
      var sync := video[next].startsWithSync;
      forall j | next <= j < |video| ensures PrefixDuration(video, j) >= PrefixDuration(video, next) {
        PrefixMonotone(video, next, j);
      }
      if PrefixDuration(video, next) <= target {
        if !(sync && PrefixDuration(video, next) == target) {
          EarlySelection(video, next, if sync then next else selected, target);
        }
      } else if selected == 0 && !sync {
        EarlySelection(video, next, 0, target);
      }
    }
  }

  /** `select_video_count`: how many fragments the next segment takes, 0 while it is not decided. */
  function SelectVideoCount(
    video: seq<Fragment>, seconds: u64, diff: u64, timescale: u32, completed: u64, lastEnd: u64): Result<nat>
  {
    if video == [] then Ok(0) else
    if !video[0].startsWithSync then Err(NonSyncStart) else
    match ToUnits(seconds, timescale)
    case Err(e) => Err(e)
    case Ok(target) =>
      Ok(SelectFrom(video, 0, 0, 0, AheadOfSchedule(completed, seconds, diff, timescale, lastEnd), target))
  }

  method ChooseVideoCount(
    video: seq<Fragment>, seconds: u64, diff: u64, timescale: u32, completed: u64, lastEnd: u64)
    returns (r: Result<nat>)
    ensures r == SelectVideoCount(video, seconds, diff, timescale, completed, lastEnd)
  {
    if video == [] { return Ok(0); }
    if !video[0].startsWithSync { return Err(NonSyncStart); }
    var units := ToUnits(seconds, timescale);
    if units.Err? { return Err(units.error); }
    var target := units.value;
    var early := AheadOfSchedule(completed, seconds, diff, timescale, lastEnd);
    var duration: u64, selected: nat, index: nat := 0, 0, 0;
    while index + 1 < |video|
      invariant SelectFrom(video, 0, 0, 0, early, target) == SelectFrom(video, index, duration, selected, early, target)
      decreases |video| - index
    {
      duration := Wrap64(duration as int + video[index].duration as int);
      var sync := video[index + 1].startsWithSync;
      if !early {
        if duration >= target && sync { return Ok(index + 1); }
      } else if duration <= target {
        if sync {
          selected := index + 1;
          if duration == target { return Ok(selected); }
        }
      } else {
        if selected > 0 { return Ok(selected); }
        if sync { return Ok(index + 1); }
      }
      index := index + 1;
    }
    return Ok(0);
  }

  // ----- audio -----

  /** `left / leftScale >= right / rightScale`, cross-multiplied. */
  predicate Reaches(left: int, leftScale: u32, right: int, rightScale: u32) {
    left * leftScale >= right * rightScale
  }

  datatype Found = Reached(count: nat) | NotReached(end: u64) | Overflow

  /** The first of `samples` whose end reaches the video, `end` being where they start. */
  function Reach(samples: seq<Sample>, end: u64, count: nat, videoScale: u32, videoEnd: u64, audioScale: u32): Found {
    if samples == [] then NotReached(end) else
    var next: int := end as int + samples[0].duration as int;
    if next > U64_MAX then Overflow else
    if Reaches(next, videoScale, videoEnd, audioScale) then Reached(count + 1) else
    Reach(samples[1..], next, count + 1, videoScale, videoEnd, audioScale)
  }

  /** `find_audio_split_sample_count`: the number of samples to take from `f`, or `None` if it ends too early. */
  function FindAudioSplit(f: Fragment, videoScale: u32, videoEnd: u64): Result<Option<nat>> {
    if f.timescale == 0 || videoScale == 0 then Err(ZeroTimescale) else
    match Reach(RunSamples(f.runs), f.decodeTime, 0, videoScale, videoEnd, f.timescale)
    case Reached(count) => Ok(Some(count))
    case Overflow => Err(AudioOverflow)
    case NotReached(end) => if end != EndTime(f) then Err(AudioDurationMismatch) else Ok(None)
  }

  /** `next` is what the search still has to say after the samples of `runs`. */
  lemma {:induction false} ReachSplit(
    a: seq<Sample>, b: seq<Sample>, end: u64, count: nat, videoScale: u32, videoEnd: u64, audioScale: u32)
    ensures Reach(a + b, end, count, videoScale, videoEnd, audioScale)
         == match Reach(a, end, count, videoScale, videoEnd, audioScale)
            case NotReached(e) => Reach(b, e, count + |a|, videoScale, videoEnd, audioScale)
            case other => other
  {
    if a == [] {
      assert a + b == b;
    } else {
      assert (a + b)[1..] == a[1..] + b && (a + b)[0] == a[0];
      var next: int := end as int + a[0].duration as int;
      if next <= U64_MAX && !Reaches(next, videoScale, videoEnd, audioScale) {
        ReachSplit(a[1..], b, next, count + 1, videoScale, videoEnd, audioScale);
      }
    }
  }

  method SearchAudioSplit(f: Fragment, videoScale: u32, videoEnd: u64) returns (r: Result<Option<nat>>)
    ensures r == FindAudioSplit(f, videoScale, videoEnd)
  {
    hide Reach, Reaches, RunSamples;
    if f.timescale == 0 || videoScale == 0 { return Err(ZeroTimescale); }
    var end: u64, count: nat := f.decodeTime, 0;
    assert f.runs[0..] == f.runs;
    for k := 0 to |f.runs|
      invariant Reach(RunSamples(f.runs), f.decodeTime, 0, videoScale, videoEnd, f.timescale)
             == Reach(RunSamples(f.runs[k..]), end, count, videoScale, videoEnd, f.timescale)
    {
      FirstRunSamples(f.runs[k..]);
      assert f.runs[k..][1..] == f.runs[k + 1..];
      ReachSplit(f.runs[k].samples, RunSamples(f.runs[k + 1..]), end, count, videoScale, videoEnd, f.timescale);
      var found := SearchSamples(f.runs[k].samples, end, count, videoScale, videoEnd, f.timescale);
      match found {
        case Reached(n) => return Ok(Some(n));
        case Overflow => return Err(AudioOverflow);
        case NotReached(e) =>
          end := e;
          count := count + |f.runs[k].samples|;
      }
    }
    NothingLeft(f.runs[|f.runs|..], end, count, videoScale, videoEnd, f.timescale);
    if end != EndTime(f) { return Err(AudioDurationMismatch); }
    return Ok(None);
  }

  lemma FirstRunSamples(runs: seq<Run>)
    requires runs != []
    ensures RunSamples(runs) == runs[0].samples + RunSamples(runs[1..])
  {
    assert runs == [runs[0]] + runs[1..];
    RunSamplesConcat([runs[0]], runs[1..]);
    assert [runs[0]][..0] == [];
    assert RunSamples([runs[0]]) == RunSamples([]) + runs[0].samples == runs[0].samples;
  }

  lemma NothingLeft(runs: seq<Run>, end: u64, count: nat, videoScale: u32, videoEnd: u64, audioScale: u32)
    requires runs == []
    ensures Reach(RunSamples(runs), end, count, videoScale, videoEnd, audioScale) == NotReached(end)
  {}

  method SearchSamples(
    samples: seq<Sample>, start: u64, before: nat, videoScale: u32, videoEnd: u64, audioScale: u32)
    returns (r: Found)
    ensures r == Reach(samples, start, before, videoScale, videoEnd, audioScale)
  {
    var end: u64 := start;
    for i := 0 to |samples|
      invariant Reach(samples, start, before, videoScale, videoEnd, audioScale)
             == Reach(samples[i..], end, before + i, videoScale, videoEnd, audioScale)
    {
      assert samples[i..][1..] == samples[i + 1..];
      var next: int := end as int + samples[i].duration as int;
      if next > U64_MAX { return Overflow; }
      end := next;
      if Reaches(end, videoScale, videoEnd, audioScale) { return Reached(before + i + 1); }
    }
    return NotReached(end);
  }

  // ----- splitting a fragment at a sample -----

  function BuildExplicitRun(template: Run, samples: seq<Sample>): Result<Run>
    requires samples != []
  {
    if SumDurations(samples) == 0 || SumSizes(samples) == 0 then Err(SplitRunEmpty) else
    Ok(Run(None, samples, template.version, template.hasOffsets, SumDurations(samples), SumSizes(samples), 0, 0,
           IsSyncSample(samples[0].flags), false))
  }

  /** A run cut after `take` samples: at most one run on each side. */
  function CutRun(run: Run, take: nat): Result<(seq<Run>, seq<Run>)>
    requires take <= |run.samples|
  {
    var left := if take > 0 then BuildExplicitRun(run, run.samples[..take]) else Err(SplitRunEmpty);
    var right := if take < |run.samples| then BuildExplicitRun(run, run.samples[take..]) else Err(SplitRunEmpty);
    if (take > 0 && left.Err?) || (take < |run.samples| && right.Err?) then Err(SplitRunEmpty) else
    Ok((if take > 0 then [left.value] else [], if take < |run.samples| then [right.value] else []))
  }

  /** The runs before and after the sample `split`. */
  function SplitRuns(runs: seq<Run>, split: nat): Result<(seq<Run>, seq<Run>)> {
    if runs == [] then Ok(([], [])) else
    var take := Min(split, |runs[0].samples|);
    match CutRun(runs[0], take)
    case Err(e) => Err(e)
    case Ok(cut) =>
      match SplitRuns(runs[1..], split - take)
      case Err(e) => Err(e)
      case Ok(rest) => Ok((cut.0 + rest.0, cut.1 + rest.1))
  }

  /** Runs laid out one after the other. */
  function LaidOut(runs: seq<Run>): seq<Run> {
    if runs == [] then [] else
    LaidOut(runs[..|runs| - 1]) + [runs[|runs| - 1].(payloadOffset := RunsSize(runs[..|runs| - 1]))]
  }

  /** `split_fragment_at_sample`; the split lies inside the fragment. */
  function SplitFragment(f: Fragment, split: nat): Result<(Fragment, Fragment)> {
    match SplitRuns(f.runs, split)
    case Err(e) => Err(e)
    case Ok((l, r)) =>
      if l == [] || r == [] then Err(InvalidSplit) else
      var leftTime, leftBytes := RunsDuration(l), RunsSize(l);
      if leftBytes > f.payloadLen then Err(SplitPayloadMismatch) else
      if f.decodeTime as int + Wrap64(leftTime) as int > U64_MAX then Err(SplitDecodeOverflow) else
      var template := f.(inferred := false);
      Ok((template.(duration := Wrap64(leftTime), runs := LaidOut(l), startsWithSync := l[0].startsWithSync,
                    payloadLen := leftBytes),
          template.(decodeTime := f.decodeTime as int + Wrap64(leftTime) as int, duration := Wrap64(RunsDuration(r)),
                    runs := LaidOut(r), startsWithSync := r[0].startsWithSync,
                    payloadStart := f.payloadStart + leftBytes, payloadLen := f.payloadLen - leftBytes)))
  }
}
