/** Cutting an audio fragment at a sample: both halves are sound and adjacent in payload and time. */
module Mp4Split {
  import opened Bytes
  import opened Mp4Types
  import opened Mp4Select

  // ----- laying runs out one after the other -----

  lemma {:induction false} LaidOutAt(runs: seq<Run>)
    ensures |LaidOut(runs)| == |runs|
    ensures forall i | 0 <= i < |runs| :: LaidOut(runs)[i] == runs[i].(payloadOffset := RunsSize(runs[..i]))
  {
    hide RunsSize;
    if runs != [] {
      var front := runs[..|runs| - 1];
      LaidOutAt(front);
      forall i | 0 <= i < |runs|
        ensures LaidOut(runs)[i] == runs[i].(payloadOffset := RunsSize(runs[..i]))
      {
        if i < |front| {
          assert front[..i] == runs[..i];
        }
      }
    }
  }

  lemma LaidOutFacts(runs: seq<Run>)
    ensures |LaidOut(runs)| == |runs|
    ensures forall i | 0 <= i < |runs| :: LaidOut(runs)[i] == runs[i].(payloadOffset := RunsSize(runs[..i]))
    ensures RunSamples(LaidOut(runs)) == RunSamples(runs)
    ensures RunsSize(LaidOut(runs)) == RunsSize(runs) && RunsDuration(LaidOut(runs)) == RunsDuration(runs)
  {
    hide LaidOut, RunSamples, RunsSize, RunsDuration;
    LaidOutAt(runs);
    AlikeTotals(LaidOut(runs), runs);
  }

  lemma {:induction false} LaidOutPrefix(runs: seq<Run>, i: nat)
    requires i <= |runs|
    ensures |LaidOut(runs)| == |runs| && LaidOut(runs)[..i] == LaidOut(runs[..i])
  {
    hide RunsSize;
    LaidOutAt(runs);
    if i == |runs| {
      assert runs[..i] == runs;
    } else {
      var front := runs[..|runs| - 1];
      LaidOutPrefix(front, i);
      assert front[..i] == runs[..i];
      assert LaidOut(runs)[..i] == LaidOut(front)[..i];
    }
  }

  /** Laying out keeps runs well formed and gives each the offset of the bytes before it. */
  lemma LaidOutAttached(runs: seq<Run>)
    requires forall r | r in runs :: RunOk(r)
    ensures forall r | r in LaidOut(runs) :: RunOk(r)
    ensures forall i | 0 <= i < |LaidOut(runs)| :: LaidOut(runs)[i].payloadOffset == RunsSize(LaidOut(runs)[..i])
  {
    hide LaidOut, RunsSize, RunsDuration, RunSamples, RunOk;
    LaidOutFacts(runs);
    forall r | r in LaidOut(runs) ensures RunOk(r) {
      var i :| 0 <= i < |LaidOut(runs)| && LaidOut(runs)[i] == r;
      assert runs[i] in runs;
      MovedRunOk(runs[i], RunsSize(runs[..i]));
    }
    forall i | 0 <= i < |runs| ensures LaidOut(runs)[i].payloadOffset == RunsSize(LaidOut(runs)[..i]) {
      LaidOutPrefix(runs, i);
      LaidOutFacts(runs[..i]);
    }
  }

  lemma MovedRunOk(run: Run, offset: nat)
    requires RunOk(run)
    ensures RunOk(run.(payloadOffset := offset))
  {}

  // ----- splitting runs -----

  lemma ExplicitRunOk(template: Run, samples: seq<Sample>)
    requires RunOk(template) && samples != [] && |samples| <= |template.samples|
    requires forall s | s in samples :: s in template.samples
    requires BuildExplicitRun(template, samples).Ok?
    ensures RunOk(BuildExplicitRun(template, samples).value)
    ensures BuildExplicitRun(template, samples).value.samples == samples
  {
    if !template.hasOffsets {
      forall i | 0 <= i < |samples| ensures samples[i].offset == 0 {
        assert samples[i] in samples;
      }
    }
  }

  ghost predicate AllOk(runs: seq<Run>) { forall r | r in runs :: RunOk(r) }

  lemma CutRunOk(run: Run, take: nat)
    requires RunOk(run) && take <= |run.samples| && CutRun(run, take).Ok?
    ensures var (a, b) := CutRun(run, take).value;
            AllOk(a) && AllOk(b) && RunSamples(a) == run.samples[..take] && RunSamples(b) == run.samples[take..]
  {
    hide RunOk, BuildExplicitRun;
    var (a, b) := CutRun(run, take).value;
    if take > 0 {
      assert forall s | s in run.samples[..take] :: s in run.samples;
      ExplicitRunOk(run, run.samples[..take]);
      FirstRunSamples(a);
    }
    if take < |run.samples| {
      assert forall s | s in run.samples[take..] :: s in run.samples;
      ExplicitRunOk(run, run.samples[take..]);
      FirstRunSamples(b);
    }
  }

  /** The split runs hold exactly the samples before and after the split. */
  lemma {:induction false} SplitRunsOk(runs: seq<Run>, split: nat)
    requires AllOk(runs) && split <= |RunSamples(runs)| && SplitRuns(runs, split).Ok?
    ensures var (l, r) := SplitRuns(runs, split).value;
            && AllOk(l) && AllOk(r)
            && RunSamples(l) == RunSamples(runs)[..split] && RunSamples(r) == RunSamples(runs)[split..]
  {
    hide RunOk, CutRun;
    if runs != [] {
      var samples := runs[0].samples;
      var take := Min(split, |samples|);
      assert runs[0] in runs && RunOk(runs[0]);
      assert AllOk(runs[1..]) by { assert forall r | r in runs[1..] :: r in runs; }
      FirstRunSamples(runs);
      SplitRunsOk(runs[1..], split - take);
      CutRunOk(runs[0], take);
      var (l, r) := SplitRuns(runs[1..], split - take).value;
      var (a, b) := CutRun(runs[0], take).value;
      RunSamplesConcat(a, l);
      RunSamplesConcat(b, r);
      SplitAcross(samples, RunSamples(runs[1..]), split);
    }
  }

  lemma SplitAcross<T>(a: seq<T>, b: seq<T>, split: nat)
    requires split <= |a| + |b|
    ensures var take := Min(split, |a|);
            (a + b)[..split] == a[..take] + b[..split - take] && (a + b)[split..] == a[take..] + b[split - take..]
  {
    if split <= |a| {
      assert b[..0] == [] && a[..split] + [] == a[..split];
      assert (a + b)[..split] == a[..split];
      assert (a + b)[split..] == a[split..] + b;
    } else {
      assert a[..|a|] == a && a[|a|..] == [];
      assert (a + b)[..split] == a + b[..split - |a|];
      assert (a + b)[split..] == b[split - |a|..];
    }
  }

  lemma {:induction false} NonEmptySamples(runs: seq<Run>)
    requires AllOk(runs)
    ensures RunSamples(runs) != [] <==> runs != []
  {
    if runs != [] {
      FirstRunSamples(runs);
      assert RunOk(runs[0]) by { assert runs[0] in runs; }
    }
  }

  /** Both halves of a split. */
  ghost predicate Halves(f: Fragment, split: nat, l: Fragment, r: Fragment) {
    && 0 < split < |RunSamples(f.runs)|
    && Attached(l) && Attached(r)
    && l.trackId == r.trackId == f.trackId && l.timescale == r.timescale == f.timescale
    && RunSamples(l.runs) == RunSamples(f.runs)[..split] && RunSamples(r.runs) == RunSamples(f.runs)[split..]
    && l.decodeTime == f.decodeTime && r.decodeTime == EndTime(l)
    && l.decodeTime as int + Wrap64(SumDurations(RunSamples(l.runs))) as int <= U64_MAX
    && EndTime(r) == EndTime(f)
    && l.payloadStart == f.payloadStart && r.payloadStart == l.payloadStart + l.payloadLen
    && l.payloadLen + r.payloadLen == f.payloadLen
    && !l.inferred && !r.inferred
  }

  lemma SplitTotals(f: Fragment, split: nat, l: seq<Run>, r: seq<Run>)
    requires Attached(f) && split <= |RunSamples(f.runs)| && SplitRuns(f.runs, split) == Ok((l, r))
    ensures AllOk(l) && AllOk(r)
    ensures RunSamples(l) == RunSamples(f.runs)[..split] && RunSamples(r) == RunSamples(f.runs)[split..]
    ensures RunsDuration(l) + RunsDuration(r) == RunsDuration(f.runs) && RunsSize(l) + RunsSize(r) == f.payloadLen
    ensures RunsDuration(l) == SumDurations(RunSamples(l))
  {
    hide RunOk;
    assert AllOk(f.runs);
    SplitRunsOk(f.runs, split);
    var samples := RunSamples(f.runs);
    assert samples == samples[..split] + samples[split..];
    RunTotals(f.runs);
    RunTotals(l);
    RunTotals(r);
    SumDurationsConcat(samples[..split], samples[split..]);
    SumSizesConcat(samples[..split], samples[split..]);
  }

  lemma HalfAttached(f: Fragment, h: Fragment, runs: seq<Run>)
    requires Attached(f) && AllOk(runs) && runs != [] && h.runs == LaidOut(runs)
    requires h.trackId == f.trackId && h.timescale == f.timescale
    requires h.descriptionIndex == f.descriptionIndex && h.tfhd == f.tfhd
    requires h.duration == Wrap64(RunsDuration(runs)) && h.payloadLen == RunsSize(runs)
    requires h.startsWithSync == runs[0].startsWithSync
    ensures Attached(h) && RunSamples(h.runs) == RunSamples(runs)
  {
    hide RunOk, CanonicalTfhd;
    LaidOutFacts(runs);
    LaidOutAttached(runs);
  }

  lemma SplitTimes(f: Fragment, l: Fragment, r: Fragment, left: nat, right: nat)
    requires f.duration == Wrap64(left + right) && l.duration == Wrap64(left) && r.duration == Wrap64(right)
    requires l.decodeTime == f.decodeTime && r.decodeTime as int == f.decodeTime as int + Wrap64(left) as int
    ensures r.decodeTime == EndTime(l) && EndTime(r) == EndTime(f)
  {
    WrapSum(f.decodeTime, left, right);
  }

  /** Splitting inside a fragment keeps both halves well formed, adjacent in payload and in time. */
  lemma SplitFragmentOk(f: Fragment, split: nat)
    requires Attached(f) && 0 < split < |RunSamples(f.runs)|
    ensures match SplitFragment(f, split)
            case Ok((l, r)) => Halves(f, split, l, r)
            case Err(e) => e == SplitRunEmpty || e == SplitDecodeOverflow
  {
    hide RunOk, SumDurations, Wrap64, EndTime, Attached, SplitRuns, RunSamples, RunsSize, RunsDuration, LaidOut, AllOk, Halves;
    match SplitRuns(f.runs, split)
    case Err(_) => SplitRunsError(f.runs, split);
    case Ok((l, r)) =>
      SplitTotals(f, split, l, r);
      NonEmptySamples(l);
      NonEmptySamples(r);
      AttachedDuration(f);
      match SplitFragment(f, split)
      case Err(_) =>
      case Ok((left, right)) =>
        HalfAttached(f, left, l);
        HalfAttached(f, right, r);
        SplitTimes(f, left, right, RunsDuration(l), RunsDuration(r));
        MakeHalves(f, split, left, right);
  }

  lemma MakeHalves(f: Fragment, split: nat, l: Fragment, r: Fragment)
    requires 0 < split < |RunSamples(f.runs)| && Attached(l) && Attached(r)
    requires l.trackId == r.trackId == f.trackId && l.timescale == r.timescale == f.timescale
    requires RunSamples(l.runs) == RunSamples(f.runs)[..split] && RunSamples(r.runs) == RunSamples(f.runs)[split..]
    requires l.decodeTime == f.decodeTime && r.decodeTime == EndTime(l)
    requires l.decodeTime as int + Wrap64(SumDurations(RunSamples(l.runs))) as int <= U64_MAX
    requires EndTime(r) == EndTime(f)
    requires l.payloadStart == f.payloadStart && r.payloadStart == l.payloadStart + l.payloadLen
    requires l.payloadLen + r.payloadLen == f.payloadLen && !l.inferred && !r.inferred
    ensures Halves(f, split, l, r)
  {
    hide Attached, RunSamples, EndTime, Wrap64, SumDurations;
  }

  lemma AttachedDuration(f: Fragment)
    requires Attached(f)
    ensures f.duration == Wrap64(RunsDuration(f.runs)) && f.payloadLen == RunsSize(f.runs)
  {}

  lemma {:induction false} SplitRunsError(runs: seq<Run>, split: nat)
    ensures SplitRuns(runs, split).Err? ==> SplitRuns(runs, split).error == SplitRunEmpty
  {
    if runs != [] {
      SplitRunsError(runs[1..], split - Min(split, |runs[0].samples|));
    }
  }

  lemma WrapAdd(x: int, a: int)
    ensures Wrap64(x + Wrap64(a) as int) == Wrap64(x + a)
  {
    var m := U64_MAX + 1;
    assert a == a / m * m + Wrap64(a) as int;
    WrapShift(x + Wrap64(a) as int, a / m);
  }

  lemma WrapShift(y: int, q: int)
    ensures Wrap64(y + q * (U64_MAX + 1)) == Wrap64(y)
  {}

  /** The two wrapped halves of a duration add up to the wrapped whole. */
  lemma WrapSum(start: int, a: int, b: int)
    ensures Wrap64(Wrap64(start + Wrap64(a) as int) as int + Wrap64(b) as int)
         == Wrap64(start + Wrap64(a + b) as int)
    ensures Wrap64(Wrap64(a) as int + Wrap64(b) as int) == Wrap64(a + b)
  {
    hide Wrap64;
    var mid := Wrap64(start + Wrap64(a) as int);
    WrapAdd(mid, b);
    WrapAdd(b, start + Wrap64(a) as int);
    WrapAdd(b + start, a);
    WrapAdd(start, a + b);
    WrapAdd(Wrap64(a), b);
    WrapAdd(b, a);
    assert mid as int + b == b + mid as int;
    assert b + (start + Wrap64(a) as int) == (b + start) + Wrap64(a) as int;
    assert b + start + a == start + (a + b);
    assert Wrap64(a) as int + b == b + Wrap64(a) as int;
  }

  lemma LaidOutShape(runs: seq<Run>)
    ensures |LaidOut(runs)| == |runs|
    ensures runs != [] ==> LaidOut(runs)[0].startsWithSync == runs[0].startsWithSync
  {
    LaidOutFacts(runs);
  }

  /** Where the source reports mismatching totals of the two halves: that branch is never taken. */
  method SplitAtSample(f: Fragment, split: nat) returns (r: Result<(Fragment, Fragment)>)
    requires Attached(f)
    ensures r == if 0 < split < |RunSamples(f.runs)| then SplitFragment(f, split) else Err(InvalidSplit)
  {
    hide RunOk, SumDurations, SumSizes, Attached, LaidOut, RunSamples, Wrap64, SplitRuns, RunsDuration, RunsSize;
    AttachedDuration(f);
    var total := SampleCount(f.runs);
    if split == 0 || split >= total { return Err(InvalidSplit); }
    var left, right, error := SplitLoop(f.runs, split);
    if error { return Err(SplitRunEmpty); }
    ghost var (l, rr) := SplitRuns(f.runs, split).value;
    SplitTotals(f, split, l, rr);
    LaidOutShape(l);
    LaidOutShape(rr);
    WrapSum(0, RunsDuration(l), RunsDuration(rr));
    if left.runs == [] || right.runs == [] { return Err(InvalidSplit); }
    if Wrap64(left.time as int + right.time as int) != f.duration { return Err(SplitDurationMismatch); }
    if left.bytes + right.bytes != f.payloadLen { return Err(SplitPayloadMismatch); }
    if f.decodeTime as int + left.time as int > U64_MAX { return Err(SplitDecodeOverflow); }
    var template := f.(inferred := false);
    return Ok((
      template.(duration := left.time, runs := left.runs, startsWithSync := left.runs[0].startsWithSync,
                payloadLen := left.bytes),
      template.(decodeTime := f.decodeTime as int + left.time as int, duration := right.time, runs := right.runs,
                startsWithSync := right.runs[0].startsWithSync, payloadStart := f.payloadStart + left.bytes,
                payloadLen := f.payloadLen - left.bytes)));
  }

  method SampleCount(runs: seq<Run>) returns (n: nat)
    ensures n == |RunSamples(runs)|
  {
    n := 0;
    for k := 0 to |runs|
      invariant n == |RunSamples(runs[..k])|
    {
      assert runs[..k + 1][..k] == runs[..k];
      n := n + |runs[k].samples|;
    }
    assert runs[..|runs|] == runs;
  }

  function Joined(l: seq<Run>, r: seq<Run>, rest: Result<(seq<Run>, seq<Run>)>): Result<(seq<Run>, seq<Run>)> {
    match rest
    case Err(e) => Err(e)
    case Ok((l', r')) => Ok((l + l', r + r'))
  }

  lemma JoinedNone(rest: Result<(seq<Run>, seq<Run>)>)
    ensures Joined([], [], rest) == rest
  {
    if rest.Ok? {
      assert [] + rest.value.0 == rest.value.0 && [] + rest.value.1 == rest.value.1;
    }
  }

  lemma JoinedMore(
    l: seq<Run>, r: seq<Run>, l1: seq<Run>, r1: seq<Run>, rest: Result<(seq<Run>, seq<Run>)>)
    ensures Joined(l, r, Joined(l1, r1, rest)) == Joined(l + l1, r + r1, rest)
  {
    if rest.Ok? {
      assert l + (l1 + rest.value.0) == l + l1 + rest.value.0;
      assert r + (r1 + rest.value.1) == r + r1 + rest.value.1;
    }
  }

  /** One side of a split while it is built: its runs laid out, their bytes and their duration. */
  datatype Half = Half(runs: seq<Run>, bytes: nat, time: u64)

  function HalfOf(runs: seq<Run>): Half {
    Half(LaidOut(runs), RunsSize(runs), Wrap64(RunsDuration(runs)))
  }

  method AddRuns(h: Half, ghost runs: seq<Run>, cut: seq<Run>) returns (r: Half)
    requires h == HalfOf(runs) && |cut| <= 1
    ensures r == HalfOf(runs + cut)
  {
    if cut == [] {
      assert runs + cut == runs;
      return h;
    }
    var run := cut[0];
    assert (runs + cut)[..|runs + cut| - 1] == runs;
    WrapAdd(run.duration, RunsDuration(runs));
    return Half(h.runs + [run.(payloadOffset := h.bytes)], h.bytes + run.dataSize, Wrap64(h.time as int + run.duration));
  }

  lemma CutRunShape(run: Run, take: nat)
    requires take <= |run.samples|
    ensures match CutRun(run, take)
            case Err(e) => e == SplitRunEmpty
            case Ok((a, b)) => |a| <= 1 && |b| <= 1
  {}

  lemma EmptyHalf()
    ensures HalfOf([]) == Half([], 0, 0)
  {}

  lemma SplitStep(runs: seq<Run>, k: nat, split: nat)
    requires k < |runs|
    ensures var take := Min(split, |runs[k].samples|);
            match CutRun(runs[k], take)
            case Err(_) => SplitRuns(runs[k..], split).Err?
            case Ok(c) => SplitRuns(runs[k..], split) == Joined(c.0, c.1, SplitRuns(runs[k + 1..], split - take))
  {
    hide CutRun;
    assert runs[k..][1..] == runs[k + 1..] && runs[k..][0] == runs[k];
  }

  lemma SplitNone(split: nat)
    ensures SplitRuns([], split) == Ok(([], []))
  {}

  method SplitLoop(runs: seq<Run>, split: nat) returns (left: Half, right: Half, error: bool)
    ensures error ==> SplitRuns(runs, split) == Err(SplitRunEmpty)
    ensures !error ==> SplitRuns(runs, split).Ok? && left == HalfOf(SplitRuns(runs, split).value.0)
                       && right == HalfOf(SplitRuns(runs, split).value.1)
  {
    hide CutRun, HalfOf, SplitRuns;
    EmptyHalf();
    SplitRunsError(runs, split);
    left, right, error := Half([], 0, 0), Half([], 0, 0), false;
    var remaining: nat := split;
    ghost var l: seq<Run>, r: seq<Run> := [], [];
    assert runs[0..] == runs;
    JoinedNone(SplitRuns(runs, split));
    for k := 0 to |runs|
      invariant SplitRuns(runs, split) == Joined(l, r, SplitRuns(runs[k..], remaining))
      invariant left == HalfOf(l) && right == HalfOf(r)
    {
      var take: nat := Min(remaining, |runs[k].samples|);
      CutRunShape(runs[k], take);
      SplitStep(runs, k, remaining);
      var cut := CutRun(runs[k], take);
      if cut.Err? { error := true; return; }
      left := AddRuns(left, l, cut.value.0);
      right := AddRuns(right, r, cut.value.1);
      JoinedMore(l, r, cut.value.0, cut.value.1, SplitRuns(runs[k + 1..], remaining - take));
      l, r := l + cut.value.0, r + cut.value.1;
      remaining := remaining - take;
    }
    assert runs[|runs|..] == [];
    SplitNone(remaining);
    assert l + [] == l && r + [] == r;
  }
}
