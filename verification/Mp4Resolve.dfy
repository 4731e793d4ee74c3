/** Resolving an inferred duration touches nothing but durations: payload, sizes, flags and order stay. */
module Mp4Resolve {
  import opened Bytes
  import opened Mp4Types
  import opened Mp4Select
  import opened Mp4Split
  import opened Mp4Build
  import opened Mp4Reader
  import opened Mp4Keeps

  /** `b` is `a` up to durations and inference marks. */
  ghost predicate SameButDurations(a: seq<Run>, b: seq<Run>) {
    |a| == |b| && forall i | 0 <= i < |a| :: SameRunButDurations(a[i], b[i])
  }

  ghost predicate SameRunButDurations(r: Run, s: Run) {
    && Erase(r.samples) == Erase(s.samples) && r.dataSize == s.dataSize && r.payloadOffset == s.payloadOffset
    && r.version == s.version && r.hasOffsets == s.hasOffsets && r.startsWithSync == s.startsWithSync
    && (RunOk(r) ==> RunOk(s))
  }

  lemma {:induction false} SameSizes(a: seq<Run>, b: seq<Run>)
    requires SameButDurations(a, b)
    ensures RunsSize(a) == RunsSize(b)
    ensures Erase(RunSamples(a)) == Erase(RunSamples(b))
  {
    hide RunOk;
    if a != [] {
      var n := |a| - 1;
      SameSizes(a[..n], b[..n]);
      EraseConcat(RunSamples(a[..n]), a[n].samples);
      EraseConcat(RunSamples(b[..n]), b[n].samples);
    }
  }

  lemma {:induction false} SizesFromErased(a: seq<Sample>, b: seq<Sample>)
    requires Erase(a) == Erase(b)
    ensures SumSizes(a) == SumSizes(b) && |a| == |b|
  {
    assert |a| == |Erase(a)| == |Erase(b)| == |b|;
    if a != [] {
      var n := |a| - 1;
      assert Erase(a)[n] == Erase(b)[n];
      assert Erase(a[..n]) == Erase(a)[..n] == Erase(b)[..n] == Erase(b[..n]);
      SizesFromErased(a[..n], b[..n]);
    }
  }

  lemma LastDurationKeeps(run: Run, exact: u32)
    requires run.samples != []
    ensures SameRunButDurations(run, WithLastDuration(run, exact))
    ensures RunOk(run) ==> WithLastDuration(run, exact).duration
                           == run.duration - run.samples[|run.samples| - 1].duration as int + exact as int
    ensures RunOk(run) ==> run.duration >= run.samples[|run.samples| - 1].duration as int
  {
    hide IsSyncSample;
    var n := |run.samples| - 1;
    var s := WithLastDuration(run, exact);
    assert s.samples[..n] == run.samples[..n];
    assert Erase(run.samples) == Erase(s.samples);
    SizesFromErased(run.samples, s.samples);
  }

  lemma {:induction false} ClearedSame(a: seq<Run>)
    ensures SameButDurations(a, ClearInferred(a))
    ensures RunsDuration(ClearInferred(a)) == RunsDuration(a)
  {
    hide RunOk;
    if a != [] {
      ClearedSame(a[1..]);
      var b := ClearInferred(a);
      assert b[1..] == ClearInferred(a[1..]);
      assert SameRunButDurations(a[0], b[0]) by { ClearedRun(a[0]); }
      assert forall i | 1 <= i < |a| :: a[i] == a[1..][i - 1] && b[i] == b[1..][i - 1];
      assert a == [a[0]] + a[1..] && b == [b[0]] + b[1..];
      RunsDurationConcat([a[0]], a[1..]);
      RunsDurationConcat([b[0]], b[1..]);
      assert [a[0]][..0] == [] && [b[0]][..0] == [];
      assert RunsDuration([a[0]]) == a[0].duration == RunsDuration([b[0]]);
    }
  }

  lemma ClearedRun(r: Run)
    ensures SameRunButDurations(r, r.(inferred := false))
  {}

  lemma {:induction false} LastInferredInRange(runs: seq<Run>)
    ensures LastInferred(runs).Some? ==> LastInferred(runs).value < |runs| && runs[LastInferred(runs).value].inferred
  {
    if runs != [] {
      LastInferredInRange(runs[..|runs| - 1]);
    }
  }

  lemma {:induction false} ReplacedDuration(runs: seq<Run>, i: nat, r: Run)
    requires i < |runs|
    ensures RunsDuration(runs[i := r]) == RunsDuration(runs) - runs[i].duration + r.duration
  {
    var n := |runs| - 1;
    if i == n {
      assert runs[i := r][..n] == runs[..n];
    } else {
      assert runs[i := r][..n] == runs[..n][i := r];
      ReplacedDuration(runs[..n], i, r);
    }
  }

  lemma SameTrans(a: seq<Run>, b: seq<Run>, c: seq<Run>)
    requires SameButDurations(a, b) && SameButDurations(b, c)
    ensures SameButDurations(a, c)
  {
    hide RunOk;
    forall i | 0 <= i < |a| ensures SameRunButDurations(a[i], c[i]) {
      assert SameRunButDurations(a[i], b[i]) && SameRunButDurations(b[i], c[i]);
    }
  }

  lemma SameRefl(r: Run)
    ensures SameRunButDurations(r, r)
  {}

  lemma ResolvedRuns(runs: seq<Run>, i: nat, exact: u32)
    requires i < |runs| && AllOk(runs)
    ensures var after := ClearInferred(runs[i := WithLastDuration(runs[i], exact)]);
            && runs[i].samples != []
            && SameButDurations(runs, after)
            && RunsDuration(after)
               == RunsDuration(runs) - runs[i].samples[|runs[i].samples| - 1].duration as int + exact as int
  {
    hide WithLastDuration, SameRunButDurations;
    var run := runs[i];
    RunHasSamples(runs, i);
    var changed := runs[i := WithLastDuration(run, exact)];
    LastDurationKeeps(run, exact);
    forall j | 0 <= j < |runs| ensures SameRunButDurations(runs[j], changed[j]) {
      SameRefl(runs[j]);
    }
    ReplacedDuration(runs, i, WithLastDuration(run, exact));
    ClearedSame(changed);
    SameTrans(runs, changed, ClearInferred(changed));
  }

  lemma RunHasSamples(runs: seq<Run>, i: nat)
    requires i < |runs| && AllOk(runs)
    ensures RunOk(runs[i]) && runs[i].samples != []
  {
    assert runs[i] in runs;
  }

  /** A fragment whose runs changed in durations only stays attached where it was. */
  lemma ResolvedAttached(f: Fragment, runs: seq<Run>, duration: u64)
    requires Attached(f) && SameButDurations(f.runs, runs) && duration == Wrap64(RunsDuration(runs))
    ensures Attached(f.(runs := runs, duration := duration, inferred := false))
    ensures Erase(RunSamples(runs)) == Erase(RunSamples(f.runs))
  {
    hide RunOk, Erase, CanonicalTfhd;
    SameSizes(f.runs, runs);
    forall r | r in runs ensures RunOk(r) {
      var i :| 0 <= i < |runs| && runs[i] == r;
      assert SameRunButDurations(f.runs[i], runs[i]);
      assert f.runs[i] in f.runs;
    }
    forall i | 0 <= i < |runs| ensures runs[i].payloadOffset == RunsSize(runs[..i]) {
      assert SameRunButDurations(f.runs[i], runs[i]);
      SameSizes(f.runs[..i], runs[..i]);
    }
    assert SameRunButDurations(f.runs[0], runs[0]);
  }

  /** The resolved fragment, with everything but its durations. */
  ghost predicate Resolved(f: Fragment, g: Fragment) {
    && Attached(g) && !g.inferred && Erase(RunSamples(g.runs)) == Erase(RunSamples(f.runs))
    && g.trackId == f.trackId && g.timescale == f.timescale && g.startsWithSync == f.startsWithSync
    && g.payloadStart == f.payloadStart && g.payloadLen == f.payloadLen && g.decodeTime == f.decodeTime
  }

  lemma ResolveFragmentKeeps(f: Fragment, next: u64)
    requires Attached(f) && ResolveFragment(f, next).Ok?
    ensures Resolved(f, ResolveFragment(f, next).value.0) && EndTime(ResolveFragment(f, next).value.0) == next
  {
    hide RunOk, WithLastDuration, ClearInferred, CanonicalTfhd, Erase, SameRunButDurations, RunsDuration, RunSamples,
      RunsSize, Wrap64, LastInferred, Attached;
    AttachedFacts(f);
    LastInferredInRange(f.runs);
    var i := LastInferred(f.runs).value;
    var (g, exact) := ResolveFragment(f, next).value;
    ResolvedRuns(f.runs, i, exact);
    LastWas(f.runs, i);
    var was: int := f.runs[i].samples[|f.runs[i].samples| - 1].duration;
    WrapReplace(RunsDuration(f.runs), was, exact);
    ResolvedAttached(f, g.runs, g.duration);
    ResolvedEnd(f.decodeTime, f.duration, was, next);
  }

  lemma AttachedFacts(f: Fragment)
    requires Attached(f)
    ensures AllOk(f.runs) && f.duration == Wrap64(RunsDuration(f.runs))
  {}

  lemma ResolveInferredKeeps(queue: seq<Fragment>, current: Fragment)
    requires QueueOk(queue)
    ensures match ResolveInferred(queue, current)
            case Err(_) => true
            case Ok((after, _)) =>
              if queue == [] || !queue[|queue| - 1].inferred then after == queue
              else |after| == |queue| && after[..|queue| - 1] == queue[..|queue| - 1]
                   && Resolved(queue[|queue| - 1], after[|queue| - 1])
                   && EndTime(after[|queue| - 1]) == current.decodeTime
  {
    hide Attached, ResolveFragment, Resolved, EndTime;
    if queue != [] && queue[|queue| - 1].inferred && ResolveInferred(queue, current).Ok? {
      assert queue[|queue| - 1] in queue;
      ResolveFragmentKeeps(queue[|queue| - 1], current.decodeTime);
    }
  }

  lemma {:induction false} LastWas(runs: seq<Run>, i: nat)
    requires i < |runs| && AllOk(runs)
    ensures runs[i].samples != [] && runs[i].samples[|runs[i].samples| - 1].duration as int <= RunsDuration(runs)
  {
    RunHasSamples(runs, i);
    LastDurationKeeps(runs[i], 0);
    if i < |runs| - 1 {
      assert forall r | r in runs[..|runs| - 1] :: r in runs;
      LastWas(runs[..|runs| - 1], i);
    }
  }

  lemma WrapReplace(total: nat, was: nat, exact: nat)
    requires was <= total
    ensures Wrap64(Wrap64(total) as int - was + exact) == Wrap64(total - was + exact)
  {
    WrapAdd(exact - was, total);
  }

  /** The resolved fragment ends exactly where the next one starts. */
  lemma ResolvedEnd(start: int, duration: int, was: int, next: u64)
    requires 0 <= start && 0 <= duration && 0 <= was <= duration
    requires next as int >= Wrap64(start + duration - was) as int
    ensures Wrap64(start + Wrap64(duration - was + (next as int - Wrap64(start + duration - was) as int)) as int) == next
  {
    var exact := next as int - Wrap64(start + duration - was) as int;
    WrapAdd(start, duration - was + exact);
    WrapAdd(next as int - Wrap64(start + duration - was) as int, start + duration - was);
    assert start + (duration - was + exact) == exact + (start + duration - was);
  }

  // ----- the queue of a track -----

  lemma LastReplaced(queue: seq<Fragment>, after: seq<Fragment>)
    requires queue != [] && |after| == |queue| && after[..|queue| - 1] == queue[..|queue| - 1]
    ensures queue == queue[..|queue| - 1] + [queue[|queue| - 1]]
    ensures after == queue[..|queue| - 1] + [after[|queue| - 1]]
    ensures forall f | f in after :: f in queue || f == after[|queue| - 1]
  {
    var n := |queue| - 1;
    forall f | f in after ensures f in queue || f == after[n] {
      var i :| 0 <= i < |after| && after[i] == f;
      if i < n {
        assert after[i] == after[..n][i] == queue[i];
      }
    }
  }

  lemma ResolveKeepsTrack(t: TrackLog, payload: bytes, queue: seq<Fragment>, after: seq<Fragment>)
    requires TrackKeeps(t, payload, queue) && queue != [] && queue[|queue| - 1].inferred
    requires |after| == |queue| && after[..|queue| - 1] == queue[..|queue| - 1]
    requires Resolved(queue[|queue| - 1], after[|queue| - 1])
    ensures TrackKeeps(t, payload, after)
  {
    hide QueueBytes, QueueSamples, Attached, RunSamples, Erase;
    var n := |queue| - 1;
    LastReplaced(queue, after);
    var front, f, g := queue[..n], queue[n], after[n];
    assert f in queue;
    assert InBounds(payload, front) by { assert forall h | h in front :: h in queue; }
    QueueBytesConcat(payload, front, [f]);
    QueueBytesConcat(payload, front, [g]);
    OneBytes(payload, f);
    OneBytes(payload, g);
    QueueSamplesConcat(front, [f]);
    QueueSamplesConcat(front, [g]);
    OneSamples(f);
    OneSamples(g);
    EraseConcat(QueueSamples(front), RunSamples(f.runs));
    EraseConcat(QueueSamples(front), RunSamples(g.runs));
    EraseConcat(t.samplesOut, QueueSamples(queue));
    EraseConcat(t.samplesOut, QueueSamples(after));
    assert !NoneInferred(queue);
  }

  lemma OneSamples(f: Fragment)
    ensures QueueSamples([f]) == RunSamples(f.runs)
  {
    assert [f][1..] == [];
    assert QueueSamples([f]) == RunSamples(f.runs) + QueueSamples([f][1..]);
  }

  /** Same ranges, fragment by fragment. */
  ghost predicate SameRanges(a: seq<Fragment>, b: seq<Fragment>) {
    |a| == |b| && forall i | 0 <= i < |a| :: b[i].payloadStart == a[i].payloadStart && b[i].payloadLen == a[i].payloadLen
  }

  lemma SameRangesDisjoint(v: seq<Fragment>, a: seq<Fragment>, v': seq<Fragment>, a': seq<Fragment>)
    requires Disjoint(v + a) && SameRanges(v, v') && SameRanges(a, a')
    ensures Disjoint(v' + a')
  {
    var before, after := v + a, v' + a';
    forall i, j | 0 <= i < j < |after| ensures Apart(after[i], after[j]) {
      assert Apart(before[i], before[j]);
    }
  }

  lemma ResolveKeepsShape(queue: seq<Fragment>, after: seq<Fragment>, ids: TrackIds, limit: nat)
    requires QueueOk(queue) && OfTrack(queue, ids) && Within(queue, limit) && queue != []
    requires |after| == |queue| && after[..|queue| - 1] == queue[..|queue| - 1]
    requires Resolved(queue[|queue| - 1], after[|queue| - 1])
    ensures QueueOk(after) && OfTrack(after, ids) && Within(after, limit) && SameRanges(queue, after)
  {
    hide Attached, Erase;
    LastReplaced(queue, after);
    assert queue[|queue| - 1] in queue;
    forall i | 0 <= i < |queue|
      ensures after[i].payloadStart == queue[i].payloadStart && after[i].payloadLen == queue[i].payloadLen
    {
      if i < |queue| - 1 {
        assert after[i] == after[..|queue| - 1][i] == queue[i];
      }
    }
  }

  /** Completing a `moof` may lengthen or shorten the last queued sample of its track; nothing else changes. */
  lemma ResolvePreviousKeeps(q: Queue, h: Hints, u: Setup, f: Fragment, limit: nat)
    requires QueuesOk(q, u) && QueuesKeep(q, limit) && u.initDone
    ensures match ResolvePrevious(q, h, u, f)
            case Err(_) => true
            case Ok((r, _)) => QueuesOk(r, u) && QueuesKeep(r, limit) && r == q.(video := r.video, audio := r.audio)
  {
    hide TrackKeeps, QueueOk, OfTrack, Within, Disjoint, ResolveInferred, Remember, Resolved;
    if ResolvePrevious(q, h, u, f).Ok? {
      var r := ResolvePrevious(q, h, u, f).value.0;
      if f.trackId == u.video.id {
        ResolveInferredKeeps(q.video, f);
        if q.video != r.video {
          ResolveKeepsShape(q.video, r.video, u.video, limit);
          ResolveKeepsTrack(q.log.video, q.payload, q.video, r.video);
          SameRangesDisjoint(q.video, q.audio, r.video, q.audio);
        }
      } else if f.trackId == u.audio.id {
        ResolveInferredKeeps(q.audio, f);
        if q.audio != r.audio {
          ResolveKeepsShape(q.audio, r.audio, u.audio, limit);
          ResolveKeepsTrack(q.log.audio, q.payload, q.audio, r.audio);
          SameRangesDisjoint(q.video, q.audio, q.video, r.audio);
        }
      }
    }
  }
}
