/** How much queued audio a segment takes: the shortest nonempty run of samples that reaches the video's end. */
module Mp4Audio {
  import opened Bytes
  import opened Mp4Types
  import opened Mp4Select
  import opened Mp4Split

  /** `select_audio_count`: the queue, cut where needed, and how many of its fragments the segment takes. */
  function CutQueue(fs: seq<Fragment>, videoScale: u32, videoEnd: u64): Result<(seq<Fragment>, nat)> {
    if fs == [] then Ok(([], 0)) else
    match FindAudioSplit(fs[0], videoScale, videoEnd)
    case Err(e) => Err(e)
    case Ok(None) =>
      (match CutQueue(fs[1..], videoScale, videoEnd)
       case Err(e) => Err(e)
       case Ok(rest) => Ok(([fs[0]] + rest.0, if rest.1 == 0 then 0 else rest.1 + 1)))
    case Ok(Some(count)) =>
      if count == 0 || count > |RunSamples(fs[0].runs)| then Err(InvalidSplit) else
      if count == |RunSamples(fs[0].runs)| then Ok((fs, 1)) else
      match SplitFragment(fs[0], count)
      case Err(e) => Err(e)
      case Ok((l, r)) => Ok(([l, r] + fs[1..], 1))
  }

  method CutAudioQueue(audio: seq<Fragment>, videoScale: u32, videoEnd: u64)
    returns (r: Result<(seq<Fragment>, nat)>)
    requires QueueOk(audio)
    ensures r == CutQueue(audio, videoScale, videoEnd)
  {
    hide FindAudioSplit, SplitFragment, Attached, RunSamples;
    assert audio[0..] == audio;
    Shifted0(CutQueue(audio, videoScale, videoEnd));
    for index := 0 to |audio|
      invariant CutQueue(audio, videoScale, videoEnd) == Shifted(audio[..index], CutQueue(audio[index..], videoScale, videoEnd))
    {
      assert audio[index..][1..] == audio[index + 1..];
      var split := SearchAudioSplit(audio[index], videoScale, videoEnd);
      if split.Err? { return Err(split.error); }
      if split.value.Some? {
        var count := split.value.value;
        assert audio[index] in audio && Attached(audio[index]);
        var total := SampleCount(audio[index].runs);
        if count == 0 || count > total { return Err(InvalidSplit); }
        if count < total {
          var halves := SplitAtSample(audio[index], count);
          if halves.Err? { return Err(halves.error); }
          assert audio[..index] + ([halves.value.0, halves.value.1] + audio[index + 1..])
              == audio[..index] + [halves.value.0, halves.value.1] + audio[index + 1..];
          return Ok((audio[..index] + [halves.value.0, halves.value.1] + audio[index + 1..], index + 1));
        }
        assert audio[..index] + audio[index..] == audio;
        return Ok((audio, index + 1));
      }
      ShiftedMore(audio[..index], audio[index], CutQueue(audio[index + 1..], videoScale, videoEnd));
      assert audio[..index] + [audio[index]] == audio[..index + 1];
    }
    assert audio[..|audio|] + [] == audio;
    return Ok((audio, 0));
  }

  function Shifted(front: seq<Fragment>, r: Result<(seq<Fragment>, nat)>): Result<(seq<Fragment>, nat)> {
    match r
    case Err(e) => Err(e)
    case Ok(rest) => Ok((front + rest.0, if rest.1 == 0 then 0 else |front| + rest.1))
  }

  lemma Shifted0(r: Result<(seq<Fragment>, nat)>)
    ensures Shifted([], r) == r
  {
    if r.Ok? {
      assert [] + r.value.0 == r.value.0;
    }
  }

  lemma ShiftedMore(front: seq<Fragment>, f: Fragment, r: Result<(seq<Fragment>, nat)>)
    ensures Shifted(front, Shifted([f], r)) == Shifted(front + [f], r)
  {
    if r.Ok? {
      assert front + ([f] + r.value.0) == front + [f] + r.value.0;
    }
  }

  // ----- what the cut means -----

  /** When each sample ends, the first starting at `start`. */
  function SampleEnds(samples: seq<Sample>, start: nat): (r: seq<nat>)
    ensures |r| == |samples|
  {
    if samples == [] then [] else
    [start + samples[0].duration as int] + SampleEnds(samples[1..], start + samples[0].duration as int)
  }

  /** When each queued sample ends, in its own fragment's time. */
  function QueueEnds(fs: seq<Fragment>): (r: seq<nat>)
    ensures |r| == |QueueSamples(fs)|
  {
    if fs == [] then [] else SampleEnds(RunSamples(fs[0].runs), fs[0].decodeTime) + QueueEnds(fs[1..])
  }

  /** None of the first `n` ends reaches the video's end. */
  predicate NoneReaches(ends: seq<nat>, n: nat, videoScale: u32, videoEnd: u64, audioScale: u32) {
    n <= |ends| && forall j | 0 <= j < n :: !Reaches(ends[j], videoScale, videoEnd, audioScale)
  }

  /** `n` is the length of the shortest nonempty prefix whose last sample reaches the video's end. */
  predicate FirstReaches(ends: seq<nat>, n: nat, videoScale: u32, videoEnd: u64, audioScale: u32) {
    1 <= n <= |ends| && Reaches(ends[n - 1], videoScale, videoEnd, audioScale)
    && NoneReaches(ends, n - 1, videoScale, videoEnd, audioScale)
  }

  lemma {:induction false} ReachMeaning(
    samples: seq<Sample>, end: u64, count: nat, videoScale: u32, videoEnd: u64, audioScale: u32)
    ensures var ends := SampleEnds(samples, end);
            match Reach(samples, end, count, videoScale, videoEnd, audioScale)
            case Reached(n) => n > count && FirstReaches(ends, n - count, videoScale, videoEnd, audioScale)
                               && ends[n - count - 1] <= U64_MAX
            case NotReached(_) => NoneReaches(ends, |samples|, videoScale, videoEnd, audioScale)
            case Overflow => true
  {
    hide Reaches;
    if samples != [] {
      var next: int := end as int + samples[0].duration as int;
      var ends := SampleEnds(samples, end);
      if next <= U64_MAX && !Reaches(next, videoScale, videoEnd, audioScale) {
        ReachMeaning(samples[1..], next, count + 1, videoScale, videoEnd, audioScale);
        assert ends[0] == next && forall j | 1 <= j < |ends| :: ends[j] == ends[1..][j - 1];
      }
    }
  }

  lemma {:induction false} SampleEndsConcat(a: seq<Sample>, b: seq<Sample>, start: nat)
    ensures SampleEnds(a + b, start) == SampleEnds(a, start) + SampleEnds(b, start + SumDurations(a))
  {
    if a == [] {
      assert a + b == b;
    } else {
      assert (a + b)[1..] == a[1..] + b && (a + b)[0] == a[0];
      SampleEndsConcat(a[1..], b, start + a[0].duration as int);
      FirstDuration(a);
    }
  }

  lemma FirstDuration(a: seq<Sample>)
    requires a != []
    ensures SumDurations(a) == a[0].duration as int + SumDurations(a[1..])
  {
    SumDurationsConcat([a[0]], a[1..]);
    assert [a[0]] + a[1..] == a && [a[0]][..0] == [];
  }

  lemma {:induction false} LastSampleEnd(a: seq<Sample>, start: nat)
    requires a != []
    ensures SampleEnds(a, start)[|a| - 1] == start + SumDurations(a)
  {
    FirstDuration(a);
    if |a| > 1 {
      LastSampleEnd(a[1..], start + a[0].duration as int);
    }
  }

  /** Cutting a fragment where the first sample reaches the video does not move any sample end. */
  lemma SplitKeepsEnds(f: Fragment, n: nat, l: Fragment, r: Fragment)
    requires Halves(f, n, l, r)
    requires SampleEnds(RunSamples(f.runs), f.decodeTime)[n - 1] <= U64_MAX
    ensures SampleEnds(RunSamples(f.runs), f.decodeTime)
         == SampleEnds(RunSamples(l.runs), l.decodeTime) + SampleEnds(RunSamples(r.runs), r.decodeTime)
  {
    hide Attached, RunSamples, SumDurations, EndTime, SampleEnds;
    var samples := RunSamples(f.runs);
    assert samples == samples[..n] + samples[n..];
    SampleEndsConcat(samples[..n], samples[n..], f.decodeTime);
    LastSampleEnd(samples[..n], f.decodeTime);
    LeftEnd(l);
  }

  lemma LeftEnd(l: Fragment)
    requires Attached(l) && l.decodeTime as int + SumDurations(RunSamples(l.runs)) <= U64_MAX
    ensures EndTime(l) as int == l.decodeTime as int + SumDurations(RunSamples(l.runs))
  {
    hide RunOk, RunSamples, SumDurations, RunsDuration, RunsSize, CanonicalTfhd;
    RunTotals(l.runs);
  }

  ghost predicate SameScale(fs: seq<Fragment>, audioScale: u32) {
    forall f | f in fs :: f.timescale == audioScale
  }

  /** The cut keeps every sample, its end and its fragment's shape, and takes exactly the shortest prefix. */
  ghost predicate CutCorrect(fs: seq<Fragment>, cut: seq<Fragment>, count: nat, videoScale: u32, videoEnd: u64, audioScale: u32) {
    && QueueOk(cut) && SameScale(cut, audioScale) && count <= |cut|
    && QueueSamples(cut) == QueueSamples(fs) && QueueEnds(cut) == QueueEnds(fs)
    && (if count == 0 then cut == fs && NoneReaches(QueueEnds(fs), |QueueEnds(fs)|, videoScale, videoEnd, audioScale)
        else FirstReaches(QueueEnds(fs), |QueueSamples(cut[..count])|, videoScale, videoEnd, audioScale))
  }

  lemma CutHere(fs: seq<Fragment>, cut: seq<Fragment>, n: nat, videoScale: u32, videoEnd: u64, audioScale: u32)
    requires QueueOk(fs) && SameScale(fs, audioScale) && fs != []
    requires FirstReaches(SampleEnds(RunSamples(fs[0].runs), fs[0].decodeTime), n, videoScale, videoEnd, audioScale)
    requires SampleEnds(RunSamples(fs[0].runs), fs[0].decodeTime)[n - 1] <= U64_MAX
    requires (n == |RunSamples(fs[0].runs)| && cut == fs)
             || (|cut| == |fs| + 1 && cut[2..] == fs[1..] && Halves(fs[0], n, cut[0], cut[1]))
    ensures CutCorrect(fs, cut, 1, videoScale, videoEnd, audioScale)
  {
    hide RunSamples, Reaches, Attached, SampleEnds, RunOk;
    assert forall f | f in fs[1..] :: f in fs;
    OneFragment(cut[..1]);
    if cut != fs {
      HalvesAttached(fs[0], n, cut[0], cut[1]);
      SplitKeepsEnds(fs[0], n, cut[0], cut[1]);
      assert fs[0] in fs;
      TwoFragments(cut);
      assert RunSamples(fs[0].runs)[..n] + RunSamples(fs[0].runs)[n..] == RunSamples(fs[0].runs);
      assert cut == [cut[0], cut[1]] + cut[2..];
    }
    assert forall j | 0 <= j < n :: QueueEnds(fs)[j] == SampleEnds(RunSamples(fs[0].runs), fs[0].decodeTime)[j];
  }

  lemma HalvesAttached(f: Fragment, n: nat, l: Fragment, r: Fragment)
    requires Halves(f, n, l, r)
    ensures Attached(l) && Attached(r) && l.timescale == f.timescale && r.timescale == f.timescale
    ensures 0 < n < |RunSamples(f.runs)|
    ensures RunSamples(l.runs) == RunSamples(f.runs)[..n] && RunSamples(r.runs) == RunSamples(f.runs)[n..]
  {}

  lemma OneFragment(fs: seq<Fragment>)
    requires |fs| == 1
    ensures QueueSamples(fs) == RunSamples(fs[0].runs)
  {
    assert QueueSamples(fs) == RunSamples(fs[0].runs) + QueueSamples(fs[1..]);
  }

  lemma TwoFragments(fs: seq<Fragment>)
    requires |fs| >= 2
    ensures QueueSamples(fs) == RunSamples(fs[0].runs) + RunSamples(fs[1].runs) + QueueSamples(fs[2..])
    ensures QueueEnds(fs) == SampleEnds(RunSamples(fs[0].runs), fs[0].decodeTime)
                           + SampleEnds(RunSamples(fs[1].runs), fs[1].decodeTime) + QueueEnds(fs[2..])
  {
    hide QueueSamples, QueueEnds, SampleEnds, RunSamples;
    FirstOfQueue(fs);
    FirstOfQueue(fs[1..]);
    assert fs[1..][1..] == fs[2..];
    Regroup(RunSamples(fs[0].runs), RunSamples(fs[1].runs), QueueSamples(fs[2..]));
    Regroup(SampleEnds(RunSamples(fs[0].runs), fs[0].decodeTime), SampleEnds(RunSamples(fs[1].runs), fs[1].decodeTime),
            QueueEnds(fs[2..]));
  }

  lemma Regroup<T>(a: seq<T>, b: seq<T>, c: seq<T>)
    ensures a + (b + c) == a + b + c
  {}

  lemma FirstOfQueue(fs: seq<Fragment>)
    requires fs != []
    ensures QueueSamples(fs) == RunSamples(fs[0].runs) + QueueSamples(fs[1..])
    ensures QueueEnds(fs) == SampleEnds(RunSamples(fs[0].runs), fs[0].decodeTime) + QueueEnds(fs[1..])
  {}

  lemma CutLater(fs: seq<Fragment>, cut: seq<Fragment>, count: nat, videoScale: u32, videoEnd: u64, audioScale: u32)
    requires QueueOk(fs) && SameScale(fs, audioScale) && fs != []
    requires NoneReaches(SampleEnds(RunSamples(fs[0].runs), fs[0].decodeTime), |RunSamples(fs[0].runs)|,
                         videoScale, videoEnd, audioScale)
    requires CutCorrect(fs[1..], cut, count, videoScale, videoEnd, audioScale)
    ensures CutCorrect(fs, [fs[0]] + cut, if count == 0 then 0 else count + 1, videoScale, videoEnd, audioScale)
  {
    hide RunSamples, Reaches, Attached, SampleEnds, RunOk;
    var whole := [fs[0]] + cut;
    assert fs[0] in fs && whole[1..] == cut;
    assert fs == [fs[0]] + fs[1..];
    var first := SampleEnds(RunSamples(fs[0].runs), fs[0].decodeTime);
    assert forall j | 0 <= j < |QueueEnds(fs)| ::
        QueueEnds(fs)[j] == if j < |first| then first[j] else QueueEnds(fs[1..])[j - |first|];
    if count > 0 {
      assert whole[..count + 1][1..] == cut[..count] && whole[..count + 1][0] == fs[0];
    }
  }

  /** Whatever is queued, the audio taken is the shortest nonempty prefix of samples reaching the video's end. */
  lemma {:induction false} AudioCutIsShortest(fs: seq<Fragment>, videoScale: u32, videoEnd: u64, audioScale: u32)
    requires QueueOk(fs) && SameScale(fs, audioScale)
    ensures match CutQueue(fs, videoScale, videoEnd)
            case Ok((cut, count)) => CutCorrect(fs, cut, count, videoScale, videoEnd, audioScale)
            case Err(_) => true
  {
    hide Reach, Reaches, RunSamples, Attached, SampleEnds, SplitFragment, RunOk, CutCorrect, Halves;
    if fs == [] {
      EmptyCut(videoScale, videoEnd, audioScale);
    } else {
      var f := fs[0];
      assert f in fs && Attached(f);
      var rest := fs[1..];
      assert forall g | g in rest :: g in fs;
      ReachMeaning(RunSamples(f.runs), f.decodeTime, 0, videoScale, videoEnd, audioScale);
      AudioCutIsShortest(rest, videoScale, videoEnd, audioScale);
      match FindAudioSplit(f, videoScale, videoEnd)
      case Err(_) =>
      case Ok(None) =>
        if CutQueue(rest, videoScale, videoEnd).Ok? {
          var (cut, count) := CutQueue(rest, videoScale, videoEnd).value;
          CutLater(fs, cut, count, videoScale, videoEnd, audioScale);
        }
      case Ok(Some(n)) =>
        if n == |RunSamples(f.runs)| {
          CutHere(fs, fs, n, videoScale, videoEnd, audioScale);
        } else {
          SplitFragmentOk(f, n);
          if SplitFragment(f, n).Ok? {
            var (l, r) := SplitFragment(f, n).value;
            CutHere(fs, [l, r] + rest, n, videoScale, videoEnd, audioScale);
          }
        }
    }
  }

  lemma EmptyCut(videoScale: u32, videoEnd: u64, audioScale: u32)
    ensures CutCorrect([], [], 0, videoScale, videoEnd, audioScale)
  {}
}
