/**
 * What every step of the reader keeps: nothing accepted is lost or reordered, queued ranges stay in bounds and
 * apart while the shared buffer is drained and rebased, and a half-read `mdat` survives.
 */
module Mp4Keeps {
  import opened Bytes
  import opened Mp4Types
  import opened Mp4Parse
  import opened Mp4Select
  import opened Mp4Split
  import opened Mp4Audio
  import opened Mp4Build
  import opened Mp4Reader

  // ----- one track -----

  /** Samples without their durations, which inference may still change. */
  function Erase(s: seq<Sample>): (r: seq<Sample>)
    ensures |r| == |s|
    ensures forall i | 0 <= i < |s| :: r[i] == s[i].(duration := 0)
  {
    seq(|s|, i requires 0 <= i < |s| => s[i].(duration := 0))
  }

  lemma EraseConcat(a: seq<Sample>, b: seq<Sample>)
    ensures Erase(a + b) == Erase(a) + Erase(b)
  {}

  ghost predicate NoneInferred(fs: seq<Fragment>) { forall f | f in fs :: !f.inferred }

  /** All that one track accepted is what it emitted followed by what it still queues. */
  ghost predicate TrackKeeps(t: TrackLog, payload: bytes, fs: seq<Fragment>) {
    && InBounds(payload, fs)
    && t.bytesIn == t.bytesOut + QueueBytes(payload, fs)
    && Erase(t.samplesIn) == Erase(t.samplesOut + QueueSamples(fs))
    && (!t.inferred ==> t.samplesIn == t.samplesOut + QueueSamples(fs) && NoneInferred(fs))
  }

  ghost predicate OfTrack(fs: seq<Fragment>, ids: TrackIds) {
    forall f | f in fs :: f.trackId == ids.id && f.timescale == ids.timescale
  }

  ghost predicate Within(fs: seq<Fragment>, limit: nat) {
    forall f | f in fs :: f.payloadStart + f.payloadLen <= limit
  }

  predicate Apart(f: Fragment, g: Fragment) {
    f.payloadStart + f.payloadLen <= g.payloadStart || g.payloadStart + g.payloadLen <= f.payloadStart
  }

  /** The payload ranges of a queue do not overlap. */
  ghost predicate Disjoint(fs: seq<Fragment>) {
    forall i, j | 0 <= i < j < |fs| :: Apart(fs[i], fs[j])
  }

  // ----- the reader -----

  /** A body is being read into the payload buffer. */
  predicate MdatOpen(b: BoxState) { |b.header| == b.required && b.target.PayloadTarget? }

  /** Up to where the buffer belongs to queued fragments. */
  function Limit(s: Core): nat {
    if MdatOpen(s.box) then s.queue.payloadStart else |s.queue.payload|
  }

  /** The queues are well formed and belong to their tracks. */
  ghost predicate QueuesOk(q: Queue, u: Setup) {
    && QueueOk(q.video) && QueueOk(q.audio) && OfTrack(q.video, u.video) && OfTrack(q.audio, u.audio)
    && (!u.initDone ==> q.video == [] && q.audio == [])
  }

  /** Ranges lie below `limit`, apart from one another; nothing accepted is lost. */
  ghost predicate QueuesKeep(q: Queue, limit: nat) {
    && limit <= |q.payload|
    && Within(q.video, limit) && Within(q.audio, limit) && Disjoint(q.video + q.audio)
    && TrackKeeps(q.log.video, q.payload, q.video) && TrackKeeps(q.log.audio, q.payload, q.audio)
  }

  ghost predicate Keeps(s: Core) {
    && QueuesOk(s.queue, s.setup)
    && QueuesKeep(s.queue, Limit(s))
    && (s.source.pending.Some? ==> s.setup.initDone && PendingOk(s.source.pending.value, s.setup))
    && (MdatOpen(s.box) ==> s.queue.log.open == s.queue.payload[s.queue.payloadStart..])
    && (|s.box.header| == s.box.required ==> (s.box.target.PayloadTarget? <==> s.box.kind == MDAT))
    && (|s.box.header| == s.box.required && s.box.kind in {MOOF, MDAT} ==> s.setup.initDone)
    && (|s.box.header| == s.box.required && s.box.target.InitTarget? ==> !s.setup.initDone)
  }

  ghost predicate PendingOk(f: Fragment, u: Setup) {
    && TrackFragment(f, u.video, u.audio)
    && f.timescale == (if f.trackId == u.video.id then u.video.timescale else u.audio.timescale)
  }

  lemma NewReaderKeeps(config: Config)
    ensures Keeps(NewCore(config))
  {}

  // ----- payload survives rebasing -----

  lemma {:induction false} MinStartIsLeast(fs: seq<Fragment>)
    ensures match MinStart(fs)
            case None => forall f | f in fs :: f.payloadLen == 0
            case Some(m) => (forall f | f in fs && f.payloadLen > 0 :: m <= f.payloadStart)
                            && (exists f | f in fs :: f.payloadLen > 0 && f.payloadStart == m)
  {
    if fs != [] {
      MinStartIsLeast(fs[1..]);
      assert fs[0] in fs;
      assert forall f | f in fs[1..] :: f in fs;
      assert forall f | f in fs :: f == fs[0] || f in fs[1..];
    }
  }

  lemma MovedBytes(payload: bytes, f: Fragment, shift: nat)
    requires f.payloadStart + f.payloadLen <= |payload| && f.payloadLen > 0 && shift <= f.payloadStart
    ensures var g := MoveDown(f, shift);
            g.payloadStart + g.payloadLen <= |payload[shift..]| && FragmentBytes(payload[shift..], g) == FragmentBytes(payload, f)
  {
    var g := MoveDown(f, shift);
    SliceOfSlice(payload, shift, |payload|, g.payloadStart, g.payloadStart + g.payloadLen);
    assert payload[shift..|payload|] == payload[shift..];
  }

  lemma {:induction false} RebaseKeepsBytes(payload: bytes, fs: seq<Fragment>, shift: nat)
    requires InBounds(payload, fs) && shift <= |payload|
    requires forall f | f in fs :: f.payloadLen > 0 && shift <= f.payloadStart
    ensures InBounds(payload[shift..], Rebase(fs, shift))
    ensures QueueBytes(payload[shift..], Rebase(fs, shift)) == QueueBytes(payload, fs)
  {
    hide MoveDown, FragmentBytes;
    if fs != [] {
      assert fs[0] in fs;
      assert forall f | f in fs[1..] :: f in fs;
      RebaseKeepsBytes(payload, fs[1..], shift);
      MovedBytes(payload, fs[0], shift);
      var g := MoveDown(fs[0], shift);
      assert Rebase(fs, shift) == [g] + Rebase(fs[1..], shift);
      assert Rebase(fs, shift)[1..] == Rebase(fs[1..], shift);
      assert forall h | h in Rebase(fs, shift) :: h == g || h in Rebase(fs[1..], shift);
    }
  }

  lemma {:induction false} RebaseKeepsSamples(fs: seq<Fragment>, shift: nat)
    ensures QueueSamples(Rebase(fs, shift)) == QueueSamples(fs)
  {
    if fs != [] {
      RebaseKeepsSamples(fs[1..], shift);
      assert Rebase(fs, shift)[1..] == Rebase(fs[1..], shift);
    }
  }

  lemma RebaseKeepsTrack(t: TrackLog, payload: bytes, fs: seq<Fragment>, shift: nat)
    requires TrackKeeps(t, payload, fs) && shift <= |payload|
    requires forall f | f in fs :: f.payloadLen > 0 && shift <= f.payloadStart
    ensures TrackKeeps(t, payload[shift..], Rebase(fs, shift))
  {
    hide Rebase, QueueBytes, QueueSamples, Erase;
    RebaseKeepsBytes(payload, fs, shift);
    RebaseKeepsSamples(fs, shift);
    forall g | g in Rebase(fs, shift) ensures NoneInferred(fs) ==> !g.inferred {
      var i :| 0 <= i < |fs| && Rebase(fs, shift)[i] == g;
      assert fs[i] in fs;
    }
  }

  lemma MovedAttached(f: Fragment, shift: nat)
    requires Attached(f)
    ensures Attached(MoveDown(f, shift))
  {
    hide RunOk, CanonicalTfhd, RunsSize, RunsDuration;
  }

  lemma RebaseKeepsShape(fs: seq<Fragment>, shift: nat, limit: nat, ids: TrackIds)
    requires QueueOk(fs) && OfTrack(fs, ids) && Within(fs, limit) && shift <= limit
    requires forall f | f in fs :: f.payloadLen > 0 && shift <= f.payloadStart
    ensures QueueOk(Rebase(fs, shift)) && OfTrack(Rebase(fs, shift), ids) && Within(Rebase(fs, shift), limit - shift)
  {
    hide Attached, Rebase;
    forall g | g in Rebase(fs, shift)
      ensures Attached(g) && g.trackId == ids.id && g.timescale == ids.timescale
              && g.payloadStart + g.payloadLen <= limit - shift
    {
      var i :| 0 <= i < |fs| && Rebase(fs, shift)[i] == g;
      assert fs[i] in fs && g == MoveDown(fs[i], shift);
      MovedAttached(fs[i], shift);
    }
  }

  lemma PayloadPositive(fs: seq<Fragment>)
    requires QueueOk(fs)
    ensures forall f | f in fs :: f.payloadLen > 0
  {
    forall f | f in fs ensures f.payloadLen > 0 {
      assert Attached(f);
      RunTotals(f.runs);
    }
  }

  lemma RebaseKeepsDisjoint(v: seq<Fragment>, a: seq<Fragment>, shift: nat)
    requires Disjoint(v + a)
    requires forall f | f in v + a :: f.payloadLen > 0 && shift <= f.payloadStart
    ensures Disjoint(Rebase(v, shift) + Rebase(a, shift))
  {
    hide Rebase;
    var fs, gs := v + a, Rebase(v, shift) + Rebase(a, shift);
    forall i, j | 0 <= i < j < |gs| ensures Apart(gs[i], gs[j]) {
      assert fs[i] in fs && fs[j] in fs;
      assert gs[i] == MoveDown(fs[i], shift) && gs[j] == MoveDown(fs[j], shift);
      assert Apart(fs[i], fs[j]);
    }
  }

  /** What rebasing moves: everything from the first byte still queued. */
  ghost predicate Moved(q: Queue, r: Queue, shift: nat) {
    && shift <= |q.payload| && r.payload == q.payload[shift..]
    && r.payloadStart == Max(q.payloadStart - shift, 0) && r.log == q.log
  }

  /**
   * Reclaiming keeps both tracks whole. As a video fragment is still queued, it never drops a byte at or after
   * `limit`, so a half-read `mdat` above it stays.
   */
  lemma ReclaimKeeps(q: Queue, u: Setup, limit: nat)
    requires QueuesOk(q, u) && QueuesKeep(q, limit) && q.video != []
    ensures QueuesOk(Reclaim(q), u)
    ensures exists shift: nat :: shift <= limit && Moved(q, Reclaim(q), shift) && QueuesKeep(Reclaim(q), limit - shift)
  {
    hide TrackKeeps, QueueOk, Attached, Disjoint, OfTrack, MinStart, Rebase;
    PayloadPositive(q.video);
    PayloadPositive(q.audio);
    var all := q.video + q.audio;
    MinStartIsLeast(all);
    assert q.video[0] in q.video && q.video[0] in all;
    assert forall f | f in q.video :: f in all;
    assert forall f | f in q.audio :: f in all;
    var shift := MinStart(all).value;
    assert q.video[0].payloadStart + q.video[0].payloadLen <= limit;
    if shift == 0 {
      assert Moved(q, Reclaim(q), 0);
    } else {
      RebaseKeepsTrack(q.log.video, q.payload, q.video, shift);
      RebaseKeepsTrack(q.log.audio, q.payload, q.audio, shift);
      RebaseKeepsShape(q.video, shift, limit, u.video);
      RebaseKeepsShape(q.audio, shift, limit, u.audio);
      RebaseKeepsDisjoint(q.video, q.audio, shift);
      assert Moved(q, Reclaim(q), shift);
    }
  }

  // ----- cutting the audio queue -----

  /** The cut queue is the queue itself, or the queue with one fragment replaced by its two halves. */
  ghost predicate CutShape(fs: seq<Fragment>, cut: seq<Fragment>) {
    cut == fs || exists i: nat, n: nat :: CutAt(fs, cut, i, n)
  }

  ghost predicate CutAt(fs: seq<Fragment>, cut: seq<Fragment>, i: nat, n: nat) {
    && i < |fs| && |cut| == |fs| + 1
    && cut[..i] == fs[..i] && cut[i + 2..] == fs[i + 1..] && Halves(fs[i], n, cut[i], cut[i + 1])
  }

  lemma {:induction false} CutHasShape(fs: seq<Fragment>, videoScale: u32, videoEnd: u64)
    requires QueueOk(fs)
    ensures CutQueue(fs, videoScale, videoEnd).Ok? ==> CutShape(fs, CutQueue(fs, videoScale, videoEnd).value.0)
  {
    hide FindAudioSplit, SplitFragment, Attached, Halves;
    if fs != [] && CutQueue(fs, videoScale, videoEnd).Ok? {
      assert fs[0] in fs && Attached(fs[0]);
      assert forall f | f in fs[1..] :: f in fs;
      var cut := CutQueue(fs, videoScale, videoEnd).value.0;
      var found := FindAudioSplit(fs[0], videoScale, videoEnd).value;
      if found.None? {
        CutHasShape(fs[1..], videoScale, videoEnd);
        var rest := CutQueue(fs[1..], videoScale, videoEnd).value.0;
        if rest != fs[1..] {
          var i: nat, n: nat :| CutAt(fs[1..], rest, i, n);
          CutLaterShape(fs, rest, i, n);
        } else {
          assert [fs[0]] + fs[1..] == fs;
        }
      } else if found.value < |RunSamples(fs[0].runs)| {
        SplitFragmentOk(fs[0], found.value);
        assert CutAt(fs, cut, 0, found.value);
      }
    }
  }

  lemma CutLaterShape(fs: seq<Fragment>, rest: seq<Fragment>, i: nat, n: nat)
    requires fs != [] && CutAt(fs[1..], rest, i, n)
    ensures CutAt(fs, [fs[0]] + rest, i + 1, n)
  {
    hide Halves;
    var cut := [fs[0]] + rest;
    assert cut[..i + 1] == [fs[0]] + rest[..i] == [fs[0]] + fs[1..][..i] == fs[..i + 1];
    assert cut[i + 3..] == rest[i + 2..] == fs[1..][i + 1..] == fs[i + 2..];
  }

  lemma HalvesFacts(f: Fragment, n: nat, l: Fragment, r: Fragment)
    requires Halves(f, n, l, r)
    ensures l.trackId == f.trackId && r.trackId == f.trackId && l.timescale == f.timescale && r.timescale == f.timescale
    ensures l.payloadStart == f.payloadStart && r.payloadStart == l.payloadStart + l.payloadLen
    ensures l.payloadLen + r.payloadLen == f.payloadLen && !l.inferred && !r.inferred
  {}

  lemma CutAtKeepsBytes(payload: bytes, fs: seq<Fragment>, cut: seq<Fragment>, i: nat, n: nat)
    requires CutAt(fs, cut, i, n) && InBounds(payload, fs)
    ensures InBounds(payload, cut) && QueueBytes(payload, cut) == QueueBytes(payload, fs)
  {
    hide Halves, QueueBytes;
    HalvesFacts(fs[i], n, cut[i], cut[i + 1]);
    assert fs[i] in fs;
    var front, back, halves := fs[..i], fs[i + 1..], [cut[i], cut[i + 1]];
    assert fs == front + [fs[i]] + back;
    assert cut == front + halves + back;
    assert InBounds(payload, front) && InBounds(payload, back) by {
      assert forall f | f in front :: f in fs;
      assert forall f | f in back :: f in fs;
    }
    TwoBytes(payload, cut[i], cut[i + 1]);
    OneBytes(payload, fs[i]);
    SwapMiddle(payload, front, [fs[i]], halves, back);
  }

  lemma SwapMiddle(payload: bytes, front: seq<Fragment>, a: seq<Fragment>, b: seq<Fragment>, back: seq<Fragment>)
    requires InBounds(payload, front) && InBounds(payload, a) && InBounds(payload, b) && InBounds(payload, back)
    requires QueueBytes(payload, a) == QueueBytes(payload, b)
    ensures InBounds(payload, front + a + back) && InBounds(payload, front + b + back)
    ensures QueueBytes(payload, front + a + back) == QueueBytes(payload, front + b + back)
  {
    hide QueueBytes;
    QueueBytesConcat(payload, front, a);
    QueueBytesConcat(payload, front + a, back);
    QueueBytesConcat(payload, front, b);
    QueueBytesConcat(payload, front + b, back);
  }

  lemma OneBytes(payload: bytes, f: Fragment)
    requires f.payloadStart + f.payloadLen <= |payload|
    ensures QueueBytes(payload, [f]) == FragmentBytes(payload, f)
  {
    assert [f][1..] == [];
  }

  lemma TwoBytes(payload: bytes, l: Fragment, r: Fragment)
    requires r.payloadStart == l.payloadStart + l.payloadLen && r.payloadStart + r.payloadLen <= |payload|
    ensures QueueBytes(payload, [l, r]) == payload[l.payloadStart..r.payloadStart + r.payloadLen]
  {
    hide QueueBytes;
    assert [l, r] == [l] + [r];
    OneBytes(payload, l);
    OneBytes(payload, r);
    QueueBytesConcat(payload, [l], [r]);
    SliceJoin(payload, l.payloadStart, r.payloadStart, r.payloadStart + r.payloadLen);
  }

  lemma CutKeepsTrack(t: TrackLog, payload: bytes, fs: seq<Fragment>, cut: seq<Fragment>)
    requires TrackKeeps(t, payload, fs) && CutShape(fs, cut) && QueueSamples(cut) == QueueSamples(fs)
    ensures TrackKeeps(t, payload, cut)
  {
    hide Halves, QueueBytes, QueueSamples, Erase;
    if cut != fs {
      var i: nat, n: nat :| CutAt(fs, cut, i, n);
      CutAtKeepsBytes(payload, fs, cut, i, n);
      HalvesFacts(fs[i], n, cut[i], cut[i + 1]);
      forall f | f in cut ensures NoneInferred(fs) ==> !f.inferred {
        CutOrigin(fs, cut, i, n, f);
      }
    }
  }

  /** Every fragment of the cut queue lies within one fragment of the queue. */
  lemma CutOrigin(fs: seq<Fragment>, cut: seq<Fragment>, i: nat, n: nat, f: Fragment)
    requires CutAt(fs, cut, i, n) && f in cut
    ensures f in fs || (f == cut[i] || f == cut[i + 1])
  {
    hide Halves;
    var k :| 0 <= k < |cut| && cut[k] == f;
    if k < i {
      assert f == cut[..i][k] == fs[k];
    } else if k >= i + 2 {
      assert f == cut[i + 2..][k - i - 2] == fs[k - 1];
    }
  }

  lemma CutKeepsRanges(v: seq<Fragment>, fs: seq<Fragment>, cut: seq<Fragment>, ids: TrackIds, limit: nat)
    requires CutShape(fs, cut) && OfTrack(fs, ids) && Within(fs, limit) && Disjoint(v + fs)
    ensures OfTrack(cut, ids) && Within(cut, limit) && Disjoint(v + cut)
  {
    hide Halves;
    if cut != fs {
      var i: nat, n: nat :| CutAt(fs, cut, i, n);
      HalvesFacts(fs[i], n, cut[i], cut[i + 1]);
      assert fs[i] in fs;
      forall f | f in cut ensures f.trackId == ids.id && f.timescale == ids.timescale && f.payloadStart + f.payloadLen <= limit {
        CutOrigin(fs, cut, i, n, f);
      }
      CutKeepsDisjoint(v, fs, cut, i, n);
    }
  }

  /** The fragment of `v + fs` that the `k`-th of `v + cut` comes from. */
  function OriginIndex(v: nat, i: nat, k: nat): nat { if k <= v + i then k else k - 1 }

  lemma CutKeepsDisjoint(v: seq<Fragment>, fs: seq<Fragment>, cut: seq<Fragment>, i: nat, n: nat)
    requires CutAt(fs, cut, i, n) && Disjoint(v + fs)
    ensures Disjoint(v + cut)
  {
    hide Halves;
    HalvesFacts(fs[i], n, cut[i], cut[i + 1]);
    var before, after := v + fs, v + cut;
    forall j, k | 0 <= j < k < |after| ensures Apart(after[j], after[k]) {
      var a, b := OriginIndex(|v|, i, j), OriginIndex(|v|, i, k);
      CutInside(v, fs, cut, i, n, j);
      CutInside(v, fs, cut, i, n, k);
      if a != b {
        assert Apart(before[a], before[b]);
      } else {
        assert after[j] == cut[i] && after[k] == cut[i + 1];
      }
    }
  }

  lemma CutInside(v: seq<Fragment>, fs: seq<Fragment>, cut: seq<Fragment>, i: nat, n: nat, k: nat)
    requires CutAt(fs, cut, i, n) && k < |v| + |cut|
    ensures var f, g := (v + cut)[k], (v + fs)[OriginIndex(|v|, i, k)];
            g.payloadStart <= f.payloadStart && f.payloadStart + f.payloadLen <= g.payloadStart + g.payloadLen
  {
    hide Halves;
    HalvesFacts(fs[i], n, cut[i], cut[i + 1]);
    var j := k - |v|;
    if 0 <= j < i {
      assert cut[j] == cut[..i][j] == fs[j];
    } else if j >= i + 2 {
      assert cut[j] == cut[i + 2..][j - i - 2] == fs[j - 1];
    }
  }

  // ----- building a segment -----

  lemma SplitQueue(fs: seq<Fragment>, n: nat)
    requires n <= |fs|
    ensures fs == fs[..n] + fs[n..]
    ensures forall f | f in fs[..n] :: f in fs
    ensures forall f | f in fs[n..] :: f in fs
  {}

  lemma EmitKeepsTrack(t: TrackLog, payload: bytes, fs: seq<Fragment>, n: nat)
    requires TrackKeeps(t, payload, fs) && n <= |fs|
    ensures TrackKeeps(Emit(t, payload, fs[..n]), payload, fs[n..])
    ensures InBounds(payload, fs[..n]) && PayloadOf(payload, fs[..n]) == QueueBytes(payload, fs[..n])
  {
    hide QueueBytes, QueueSamples, Erase;
    SplitQueue(fs, n);
    QueueBytesConcat(payload, fs[..n], fs[n..]);
    QueueSamplesConcat(fs[..n], fs[n..]);
    CollectInBounds(payload, fs[..n]);
    assert t.bytesOut + QueueBytes(payload, fs[..n]) + QueueBytes(payload, fs[n..])
        == t.bytesOut + (QueueBytes(payload, fs[..n]) + QueueBytes(payload, fs[n..]));
    assert t.samplesOut + QueueSamples(fs[..n]) + QueueSamples(fs[n..])
        == t.samplesOut + (QueueSamples(fs[..n]) + QueueSamples(fs[n..]));
  }

  lemma SuffixDisjoint(v: seq<Fragment>, a: seq<Fragment>, i: nat, j: nat)
    requires Disjoint(v + a) && i <= |v| && j <= |a|
    ensures Disjoint(v[i..] + a[j..])
  {
    var before, after := v + a, v[i..] + a[j..];
    forall x, y | 0 <= x < y < |after| ensures Apart(after[x], after[y]) {
      var x' := if x < |v| - i then x + i else x + i + j;
      var y' := if y < |v| - i then y + i else y + i + j;
      assert after[x] == before[x'] && after[y] == before[y'];
    }
  }

  lemma DropKeeps(q: Queue, u: Setup, limit: nat, v: nat, a: nat)
    requires QueuesOk(q, u) && QueuesKeep(q, limit) && 0 < v < |q.video| && a <= |q.audio|
    ensures QueuesOk(Drop(q, v, a), u) && QueuesKeep(Drop(q, v, a), limit)
  {
    hide TrackKeeps, Attached, Disjoint, Emit;
    EmitKeepsTrack(q.log.video, q.payload, q.video, v);
    EmitKeepsTrack(q.log.audio, q.payload, q.audio, a);
    SplitQueue(q.video, v);
    SplitQueue(q.audio, a);
    SuffixDisjoint(q.video, q.audio, v, a);
  }
}
