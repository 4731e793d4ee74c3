/** Durations the stream leaves out: which sample a later fragment completes, and which duration a missing one falls back to. */
module Mp4Hints {
  import opened Bytes
  import opened Mp4Types
  import opened Mp4Select
  import opened Mp4Build
  import opened Mp4Reader

  // ----- the completed sample -----

  /** `i` is the last run whose durations were inferred. */
  predicate LastMarked(runs: seq<Run>, i: nat) { i < |runs| && runs[i].inferred && forall j :: i < j < |runs| ==> !runs[j].inferred }

  /** Only the last sample of run `i` lasts otherwise, namely `exact`, and no run is marked any more. */
  predicate OnlyLastSample(was: seq<Run>, now: seq<Run>, i: nat, exact: u32) {
    && |now| == |was| && i < |was| && was[i].samples != []
    && (forall j :: 0 <= j < |was| ==> !now[j].inferred && (j != i ==> now[j] == was[j].(inferred := false)))
    && var n := |was[i].samples| - 1;
       now[i].samples == was[i].samples[..n] + [was[i].samples[n].(duration := exact)]
  }

  predicate Completed(was: seq<Run>, now: seq<Run>, i: nat, exact: u32) { LastMarked(was, i) && OnlyLastSample(was, now, i, exact) }

  ghost predicate SampleCompleted(was: seq<Run>, now: seq<Run>, exact: u32) { exists i: nat :: Completed(was, now, i, exact) }

  lemma {:induction false} MarkFound(runs: seq<Run>)
    ensures match LastInferred(runs)
            case None => forall j :: 0 <= j < |runs| ==> !runs[j].inferred
            case Some(i) => LastMarked(runs, i)
  {
    if runs != [] && !runs[|runs| - 1].inferred {
      var front := runs[..|runs| - 1];
      MarkFound(front);
      assert forall j | 0 <= j < |front| :: runs[j] == front[j];
    }
  }

  lemma {:induction false} Cleared(runs: seq<Run>, j: nat)
    requires j < |runs|
    ensures ClearInferred(runs)[j] == runs[j].(inferred := false)
  {
    if j > 0 { Cleared(runs[1..], j - 1); }
  }

  lemma FragmentCompleted(f: Fragment, next: u64)
    ensures match ResolveFragment(f, next)
            case Err(_) => true
            case Ok((g, exact)) =>
              SampleCompleted(f.runs, g.runs, exact)
  {
    hide ClearInferred, LastInferred;
    MarkFound(f.runs);
    if ResolveFragment(f, next).Ok? {
      var (g, exact) := ResolveFragment(f, next).value;
      var i := LastInferred(f.runs).value;
      var changed := f.runs[i := WithLastDuration(f.runs[i], exact)];
      forall j | 0 <= j < |f.runs| ensures g.runs[j] == changed[j].(inferred := false) { Cleared(changed, j); }
      var n := |f.runs[i].samples| - 1;
      assert f.runs[i].samples[n := f.runs[i].samples[n].(duration := exact)]
          == f.runs[i].samples[..n] + [f.runs[i].samples[n].(duration := exact)];
      assert Completed(f.runs, g.runs, i, exact);
    }
  }

  // ----- the hint -----

  predicate AllZero(known: seq<u32>) { forall k :: 0 <= k < |known| ==> known[k] == 0 }

  /** The newest of the durations known by now that is not zero; without one, what was there before. */
  predicate Newest(known: seq<u32>, was: u32, now: u32) {
    || (now == was && AllZero(known))
    || (now != 0 && exists k :: 0 <= k < |known| && known[k] == now && forall j :: k < j < |known| ==> known[j] == 0)
  }

  function Durations(samples: seq<Sample>): (r: seq<u32>)
    ensures |r| == |samples| && forall i :: 0 <= i < |r| ==> r[i] == samples[i].duration
  {
    if samples == [] then [] else Durations(samples[..|samples| - 1]) + [samples[|samples| - 1].duration]
  }

  lemma {:induction false} NewestOfSamples(samples: seq<Sample>)
    ensures Newest(Durations(samples), 0, LastNonZeroDuration(samples))
  {
    if samples != [] {
      var n := |samples| - 1;
      var known, front := Durations(samples), Durations(samples[..n]);
      assert forall i | 0 <= i < n :: known[i] == front[i];
      NewestOfSamples(samples[..n]);
      var now := LastNonZeroDuration(samples);
      if known[n] == 0 && !(forall k :: 0 <= k < n ==> front[k] == 0) {
        var k :| 0 <= k < n && front[k] == now && forall j :: k < j < n ==> front[j] == 0;
        assert known[k] == now;
      } else if known[n] != 0 {
        assert known[n] == now;
      }
    }
  }

  /** The exact duration comes first, then those of the new fragment. */
  lemma NewestJoin(exact: u32, known: seq<u32>, was: u32, mid: u32, now: u32)
    requires mid == (if exact != 0 then exact else was) && Newest(known, 0, now)
    ensures Newest([exact] + known, was, if now != 0 then now else mid)
  {
    var all := [exact] + known;
    assert all[0] == exact && forall k | 0 <= k < |known| :: all[k + 1] == known[k];
    if now != 0 {
      if k :| 0 <= k < |known| && known[k] == now && forall j :: k < j < |known| ==> known[j] == 0 {
        forall j | k + 1 < j < |all| ensures all[j] == 0 { assert all[j] == known[j - 1]; }
        assert all[k + 1] == now;
      }
    } else {
      forall j | 0 < j < |all| ensures all[j] == 0 { assert all[j] == known[j - 1]; }
    }
  }

  /** The exact duration that a fragment brings for the last one of its track, zero if nothing was left open. */
  ghost predicate Completes(was: seq<Fragment>, now: seq<Fragment>, exact: u32) {
    if was == [] || !was[|was| - 1].inferred then now == was && exact == 0
    else
      && |now| == |was| && now[..|was| - 1] == was[..|was| - 1]
      && SampleCompleted(was[|was| - 1].runs, now[|was| - 1].runs, exact)
  }

  lemma QueueCompleted(queue: seq<Fragment>, f: Fragment)
    ensures match ResolveInferred(queue, f)
            case Err(_) => true
            case Ok((now, exact)) => Completes(queue, now, exact)
  {
    hide ResolveFragment, SampleCompleted;
    if queue != [] && queue[|queue| - 1].inferred { FragmentCompleted(queue[|queue| - 1], f.decodeTime); }
  }

  function Known(f: Fragment): seq<u32> { if f.inferred then [] else Durations(RunSamples(f.runs)) }

  /**
   * A complete `moof` changes, of all that is queued, at most the last sample of the last run of its track that was left
   * open, and the hint of that track becomes the newest duration known: that exact one, or one of the new fragment unless its
   * own were inferred. The other track keeps its queue and its hint.
   */
  lemma HintIsNewest(s: Core)
    requires CompleteMoof(s).Ok? && MoofFragment(s).Ok?
    ensures var t := CompleteMoof(s).value;
            var f, u := MoofFragment(s).value, s.setup;
            && t.source.pending == Some(f)
            && (f.trackId == u.video.id ==>
                  && t.queue.audio == s.queue.audio && t.hints.audio == s.hints.audio && t.hints.audioScale == s.hints.audioScale
                  && exists exact ::
                       && Completes(s.queue.video, t.queue.video, exact)
                       && Newest([exact] + Known(f), s.hints.video, t.hints.video)
                       && t.hints.videoScale
                          == if exact == 0 && AllZero(Known(f)) then s.hints.videoScale else f.timescale)
            && (f.trackId == u.audio.id && f.trackId != u.video.id ==>
                  && t.queue.video == s.queue.video && t.hints.video == s.hints.video && t.hints.videoScale == s.hints.videoScale
                  && exists exact ::
                       && Completes(s.queue.audio, t.queue.audio, exact)
                       && Newest([exact] + Known(f), s.hints.audio, t.hints.audio)
                       && t.hints.audioScale
                          == if exact == 0 && AllZero(Known(f)) then s.hints.audioScale else f.timescale)
  {
    hide MoofFragment, ResolveInferred, RunSamples, LastNonZeroDuration, Completes, Newest, Durations;
    var f, u := MoofFragment(s).value, s.setup;
    var last := if f.inferred then 0 else LastNonZeroDuration(RunSamples(f.runs));
    LastIsNewest(f, last);
    if f.trackId == u.video.id {
      QueueCompleted(s.queue.video, f);
      var exact := ResolveInferred(s.queue.video, f).value.1;
      NewestJoin(exact, Known(f), s.hints.video, if exact != 0 then exact else s.hints.video, last);
    } else if f.trackId == u.audio.id {
      QueueCompleted(s.queue.audio, f);
      var exact := ResolveInferred(s.queue.audio, f).value.1;
      NewestJoin(exact, Known(f), s.hints.audio, if exact != 0 then exact else s.hints.audio, last);
    }
  }

  lemma LastIsNewest(f: Fragment, last: u32)
    requires last == if f.inferred then 0 else LastNonZeroDuration(RunSamples(f.runs))
    ensures Newest(Known(f), 0, last) && (last == 0 <==> AllZero(Known(f)))
  {
    hide LastNonZeroDuration, RunSamples, Durations;
    if !f.inferred { NewestOfSamples(RunSamples(f.runs)); }
  }
}
