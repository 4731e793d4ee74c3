/** Cues as a muxer writes them, and the timeline they mean (section 5.1.5 of RFC 9559). */
module CueWritten {
  import opened Bytes
  import opened Ebml
  import opened CueTimeline

  // ----- elements inside an element -----

  datatype Child = Child(id: nat, payload: bytes)

  predicate ChildOk(c: Child) { ValidId(c.id) && |c.payload| < Pow128(8) - 1 }

  predicate ChildrenOk(cs: seq<Child>) { forall i :: 0 <= i < |cs| ==> ChildOk(cs[i]) }

  function ChildrenBytes(cs: seq<Child>): bytes
    requires ChildrenOk(cs)
  {
    if cs == [] then [] else Written(cs[0].id, cs[0].payload) + ChildrenBytes(cs[1..])
  }

  /** The first child of a written list is found, and the others behind it. */
  lemma FirstFound(d: bytes, offset: nat, end: nat, cs: seq<Child>)
    requires ChildrenOk(cs) && cs != [] && offset <= end <= |d| && d[offset..end] == ChildrenBytes(cs)
    ensures offset < end
    ensures var r := ChildAt(d, offset, end);
            && r.Some? && r.value.id == cs[0].id && r.value.size == |cs[0].payload| && End(r.value) <= end
            && d[r.value.dataOffset..End(r.value)] == cs[0].payload
            && d[End(r.value)..end] == ChildrenBytes(cs[1..])
  {
    hide Written, ElementAt, ValidId, Pow128;
    var first, tail := Written(cs[0].id, cs[0].payload), ChildrenBytes(cs[1..]);
    var front, rest := d[..offset], d[end..];
    assert d == front + (first + tail) + rest == front + first + (tail + rest) by {
      assert d == d[..offset] + d[offset..end] + d[end..];
    }
    ElementReadsBack(front, cs[0].id, cs[0].payload, tail + rest);
    var e := ElementAt(d, offset).value;
    Behind(d, offset, end, first, tail, End(e));
  }

  lemma Behind(d: bytes, offset: nat, end: nat, first: bytes, tail: bytes, mid: nat)
    requires offset <= end <= |d| && d[offset..end] == first + tail && mid == offset + |first|
    ensures mid <= end && d[mid..end] == tail
  {
    assert |d[offset..end]| == |first| + |tail|;
    assert d[mid..end] == d[offset..end][|first|..];
  }

  // ----- numbers -----

  /** A number in so many bytes. */
  datatype Number = Number(value: nat, width: nat)

  predicate NumberOk(n: Number) { 1 <= n.width <= 8 && n.value < Pow256(n.width) }

  function NumberBytes(n: Number): bytes { BigEndian(n.value, n.width) }

  lemma NumberReads(d: bytes, e: Element, n: Number)
    requires NumberOk(n) && End(e) <= |d| && e.size == n.width && d[e.dataOffset..End(e)] == NumberBytes(n)
    ensures Unsigned(d, e) == Some(n.value)
  {
    ValueInverts(n.value, n.width);
  }

  lemma NumberIsShort(n: Number)
    requires NumberOk(n)
    ensures |NumberBytes(n)| == n.width < Pow128(8) - 1
  {
    assert Pow128(2) == 0x4000;
    assert Pow128(4) == 128 * (128 * Pow128(2)) && Pow128(6) == 128 * (128 * Pow128(4)) && Pow128(8) == 128 * (128 * Pow128(6));
  }

  // ----- positions -----

  datatype PositionField = TrackField(track: Number) | ClusterField(cluster: Number) | OtherField(other: Child)

  predicate PositionFieldOk(f: PositionField) {
    match f
    case TrackField(n) => NumberOk(n)
    case ClusterField(n) => NumberOk(n)
    case OtherField(c) => ChildOk(c) && c.id !in {CUE_TRACK, CUE_CLUSTER_POSITION}
  }

  function PositionChild(f: PositionField): Child {
    match f
    case TrackField(n) => Child(CUE_TRACK, NumberBytes(n))
    case ClusterField(n) => Child(CUE_CLUSTER_POSITION, NumberBytes(n))
    case OtherField(c) => c
  }

  predicate PositionFieldsOk(fs: seq<PositionField>) { forall i :: 0 <= i < |fs| ==> PositionFieldOk(fs[i]) }

  function PositionChildren(fs: seq<PositionField>): (r: seq<Child>)
    requires PositionFieldsOk(fs)
    ensures ChildrenOk(r)
  {
    if fs == [] then [] else
    PositionChildOk(fs[0]);
    [PositionChild(fs[0])] + PositionChildren(fs[1..])
  }

  lemma PositionChildOk(f: PositionField)
    requires PositionFieldOk(f)
    ensures ChildOk(PositionChild(f))
  {
    if f.TrackField? { NumberIsShort(f.track); } else if f.ClusterField? { NumberIsShort(f.cluster); }
  }

  /** The track named last; none is track zero. */
  function LastTrack(fs: seq<PositionField>): nat {
    if fs == [] then 0 else
    var last := fs[|fs| - 1];
    if last.TrackField? then last.track.value else LastTrack(fs[..|fs| - 1])
  }

  predicate NamesTrack(fs: seq<PositionField>) { exists i :: 0 <= i < |fs| && fs[i].TrackField? }

  predicate GivesCluster(fs: seq<PositionField>) { exists i :: 0 <= i < |fs| && fs[i].ClusterField? }

  predicate InTrack(fs: seq<PositionField>, track: nat) { GivesCluster(fs) && LastTrack(fs) == track }

  lemma {:induction false} TrackBehind(f: PositionField, rest: seq<PositionField>)
    ensures LastTrack([f] + rest) == if NamesTrack(rest) then LastTrack(rest) else if f.TrackField? then f.track.value else 0
  {
    var all := [f] + rest;
    if rest == [] {
      assert all[..0] == [];
    } else {
      var n := |rest| - 1;
      assert all[..|all| - 1] == [f] + rest[..n] && all[|all| - 1] == rest[n];
      if !rest[n].TrackField? {
        TrackBehind(f, rest[..n]);
        if NamesTrack(rest) {
          var i :| 0 <= i < |rest| && rest[i].TrackField?;
          assert rest[..n][i].TrackField?;
        }
      }
    }
  }

  lemma FirstOfFields(f: PositionField, rest: seq<PositionField>)
    ensures NamesTrack([f] + rest) == (f.TrackField? || NamesTrack(rest))
    ensures GivesCluster([f] + rest) == (f.ClusterField? || GivesCluster(rest))
  {
    var all := [f] + rest;
    assert all[0] == f;
    if NamesTrack(rest) {
      var i :| 0 <= i < |rest| && rest[i].TrackField?;
      assert all[i + 1].TrackField?;
    }
    if GivesCluster(rest) {
      var i :| 0 <= i < |rest| && rest[i].ClusterField?;
      assert all[i + 1].ClusterField?;
    }
  }

  lemma {:induction false} PositionsRead(d: bytes, offset: nat, end: nat, fs: seq<PositionField>, track: nat, cluster: bool)
    requires PositionFieldsOk(fs) && offset <= end <= |d| && d[offset..end] == ChildrenBytes(PositionChildren(fs))
    ensures Positions(d, offset, end, track, cluster)
         == Some((if NamesTrack(fs) then LastTrack(fs) else track, cluster || GivesCluster(fs)))
    decreases |fs|
  {
    hide ChildAt, ChildrenBytes, Unsigned, NumberOk, ChildOk, LastTrack, NamesTrack, GivesCluster;
    if fs == [] {
      assert offset == end by { NoChildren(d, offset, end); }
      NoFields();
    } else {
      var f, rest := fs[0], fs[1..];
      assert PositionChildren(fs)[1..] == PositionChildren(rest) && fs == [f] + rest;
      FirstFound(d, offset, end, PositionChildren(fs));
      var e := ChildAt(d, offset, end).value;
      FirstOfFields(f, rest);
      TrackBehind(f, rest);
      match f
      case TrackField(n) =>
        NumberIsShort(n);
        NumberReads(d, e, n);
        PositionsRead(d, End(e), end, rest, n.value, cluster);
      case ClusterField(n) =>
        NumberIsShort(n);
        NumberReads(d, e, n);
        PositionsRead(d, End(e), end, rest, track, true);
      case OtherField(_) =>
        PositionsRead(d, End(e), end, rest, track, cluster);
    }
  }

  lemma NoChildren(d: bytes, offset: nat, end: nat)
    requires offset <= end <= |d| && d[offset..end] == ChildrenBytes([])
    ensures offset == end
  {}

  lemma NoFields()
    ensures !NamesTrack([]) && !GivesCluster([]) && LastTrack([]) == 0
  {}

  lemma {:induction false} UnnamedTrack(fs: seq<PositionField>)
    requires !NamesTrack(fs)
    ensures LastTrack(fs) == 0
  {
    if fs != [] {
      var front := fs[..|fs| - 1];
      assert forall i | 0 <= i < |front| :: front[i] == fs[i];
      UnnamedTrack(front);
    }
  }

  /** Written positions belong to the video track exactly when they name it and give a cluster position. */
  lemma VideoPositionReads(d: bytes, e: Element, fs: seq<PositionField>, track: nat)
    requires PositionFieldsOk(fs) && End(e) <= |d| && d[e.dataOffset..End(e)] == ChildrenBytes(PositionChildren(fs))
    ensures HasVideoPosition(d, e, track) == InTrack(fs, track)
  {
    hide Positions, ChildrenBytes, LastTrack, NamesTrack;
    PositionsRead(d, e.dataOffset, End(e), fs, 0, false);
    if !NamesTrack(fs) { UnnamedTrack(fs); }
  }

  // ----- cue points -----

  datatype PointField = TimeField(time: Number) | PositionsField(fields: seq<PositionField>) | OtherPointField(other: Child)

  predicate PointFieldOk(f: PointField) {
    match f
    case TimeField(n) => NumberOk(n)
    case PositionsField(fs) => PositionFieldsOk(fs) && |ChildrenBytes(PositionChildren(fs))| < Pow128(8) - 1
    case OtherPointField(c) => ChildOk(c) && c.id !in {CUE_TIME, CUE_TRACK_POSITIONS}
  }

  function PointChild(f: PointField): Child
    requires PointFieldOk(f)
  {
    match f
    case TimeField(n) => Child(CUE_TIME, NumberBytes(n))
    case PositionsField(fs) => Child(CUE_TRACK_POSITIONS, ChildrenBytes(PositionChildren(fs)))
    case OtherPointField(c) => c
  }

  predicate PointFieldsOk(fs: seq<PointField>) { forall i :: 0 <= i < |fs| ==> PointFieldOk(fs[i]) }

  function PointChildren(fs: seq<PointField>): (r: seq<Child>)
    requires PointFieldsOk(fs)
    ensures ChildrenOk(r)
  {
    if fs == [] then [] else
    PointChildOk(fs[0]);
    [PointChild(fs[0])] + PointChildren(fs[1..])
  }

  lemma PointChildOk(f: PointField)
    requires PointFieldOk(f)
    ensures ChildOk(PointChild(f))
  {
    if f.TimeField? { NumberIsShort(f.time); }
  }

  /** The time given last. */
  function LastTime(fs: seq<PointField>): Option<nat> {
    if fs == [] then None else
    var last := fs[|fs| - 1];
    if last.TimeField? then Some(last.time.value) else LastTime(fs[..|fs| - 1])
  }

  predicate Positioned(fs: seq<PointField>, track: nat) {
    exists i :: 0 <= i < |fs| && fs[i].PositionsField? && InTrack(fs[i].fields, track)
  }

  lemma {:induction false} TimeBehind(f: PointField, rest: seq<PointField>)
    ensures LastTime([f] + rest)
         == if LastTime(rest).Some? then LastTime(rest) else if f.TimeField? then Some(f.time.value) else None
  {
    var all := [f] + rest;
    if rest == [] {
      assert all[..0] == [];
    } else {
      var n := |rest| - 1;
      assert all[..|all| - 1] == [f] + rest[..n] && all[|all| - 1] == rest[n];
      TimeBehind(f, rest[..n]);
    }
  }

  lemma PositionedFirst(f: PointField, rest: seq<PointField>, track: nat)
    ensures Positioned([f] + rest, track) == ((f.PositionsField? && InTrack(f.fields, track)) || Positioned(rest, track))
  {
    var all := [f] + rest;
    assert all[0] == f;
    if Positioned(rest, track) {
      var i :| 0 <= i < |rest| && rest[i].PositionsField? && InTrack(rest[i].fields, track);
      assert all[i + 1] == rest[i];
    }
  }

  lemma {:induction false} PointReads(
    d: bytes, offset: nat, end: nat, fs: seq<PointField>, track: nat, time: Option<nat>, positioned: bool)
    requires PointFieldsOk(fs) && offset <= end <= |d| && d[offset..end] == ChildrenBytes(PointChildren(fs))
    ensures CueTimeFrom(d, offset, end, track, time, positioned)
         == if positioned || Positioned(fs, track) then if LastTime(fs).Some? then LastTime(fs) else time else None
    decreases |fs|
  {
    hide ChildAt, ChildrenBytes, Unsigned, NumberOk, ChildOk, LastTime, Positioned, HasVideoPosition, InTrack, PositionFieldsOk;
    if fs == [] {
      NoChildren(d, offset, end);
      NoPointFields(track);
    } else {
      var f, rest := fs[0], fs[1..];
      assert PointChildren(fs)[1..] == PointChildren(rest) && fs == [f] + rest;
      FirstFound(d, offset, end, PointChildren(fs));
      var e := ChildAt(d, offset, end).value;
      PositionedFirst(f, rest, track);
      TimeBehind(f, rest);
      match f
      case TimeField(n) =>
        NumberIsShort(n);
        NumberReads(d, e, n);
        PointReads(d, End(e), end, rest, track, Some(n.value), positioned);
      case PositionsField(ps) =>
        VideoPositionReads(d, e, ps, track);
        PointReads(d, End(e), end, rest, track, time, positioned || InTrack(ps, track));
      case OtherPointField(_) =>
        PointReads(d, End(e), end, rest, track, time, positioned);
    }
  }

  lemma NoPointFields(track: nat)
    ensures !Positioned([], track) && LastTime([]) == None
  {}

  // ----- cues -----

  datatype CueItem = Point(fields: seq<PointField>) | OtherItem(other: Child)

  predicate ItemOk(p: CueItem) {
    match p
    case Point(fs) => PointFieldsOk(fs) && |ChildrenBytes(PointChildren(fs))| < Pow128(8) - 1
    case OtherItem(c) => ChildOk(c) && c.id != CUE_POINT
  }

  predicate ItemsOk(ps: seq<CueItem>) { forall i :: 0 <= i < |ps| ==> ItemOk(ps[i]) }

  function ItemChild(p: CueItem): (r: Child)
    requires ItemOk(p)
    ensures ChildOk(r)
  {
    match p
    case Point(fs) => Child(CUE_POINT, ChildrenBytes(PointChildren(fs)))
    case OtherItem(c) => c
  }

  function ItemChildren(ps: seq<CueItem>): (r: seq<Child>)
    requires ItemsOk(ps)
    ensures ChildrenOk(r)
  {
    if ps == [] then [] else [ItemChild(ps[0])] + ItemChildren(ps[1..])
  }

  /** The times of the points with a cluster position in the track, those before the end. */
  function MeantTimes(ps: seq<CueItem>, track: nat, scale: nat, duration: nat): seq<nat> {
    if ps == [] then [] else
    MeantTime(ps[0], track, scale, duration) + MeantTimes(ps[1..], track, scale, duration)
  }

  function MeantTime(p: CueItem, track: nat, scale: nat, duration: nat): seq<nat> {
    if p.Point? && Positioned(p.fields, track) && LastTime(p.fields).Some? && LastTime(p.fields).value * scale < duration
    then [LastTime(p.fields).value * scale] else []
  }

  lemma Product(time: nat, scale: nat, duration: u64)
    requires scale > 0
    ensures time * scale < duration ==> time <= U64_MAX / scale
  {
    if time > U64_MAX / scale {
      var q := U64_MAX / scale;
      assert U64_MAX == q * scale + U64_MAX % scale;
      Grows(q + 1, time, scale);
      assert (q + 1) * scale == q * scale + scale;
    }
  }

  lemma Grows(a: nat, b: nat, scale: nat)
    requires a <= b
    ensures a * scale <= b * scale
  {}

  lemma TimeReads(d: bytes, e: Element, p: CueItem, track: nat, scale: nat, duration: u64)
    requires scale > 0 && ItemOk(p) && End(e) <= |d| && e.id == ItemChild(p).id
    requires d[e.dataOffset..End(e)] == ItemChild(p).payload
    ensures TimeOf(d, e, track, scale, duration) == MeantTime(p, track, scale, duration)
  {
    hide CueTimeFrom, ChildrenBytes, Positioned, LastTime, PointFieldsOk, ChildOk;
    if p.Point? {
      PointReads(d, e.dataOffset, End(e), p.fields, track, None, false);
      if LastTime(p.fields).Some? { Product(LastTime(p.fields).value, scale, duration); }
    }
  }

  lemma {:induction false} TimesRead(
    d: bytes, offset: nat, end: nat, ps: seq<CueItem>, track: nat, scale: nat, duration: u64, found: seq<nat>)
    requires scale > 0 && ItemsOk(ps) && offset <= end <= |d| && d[offset..end] == ChildrenBytes(ItemChildren(ps))
    requires |found| <= MAX_CUE_POINTS
    ensures var all := found + MeantTimes(ps, track, scale, duration);
            CueTimes(d, offset, end, track, scale, duration, found) == if |all| <= MAX_CUE_POINTS then Some(all) else None
    decreases |ps|
  {
    hide ChildAt, ChildrenBytes, TimeOf, MeantTime, ItemOk, ItemChild;
    if ps == [] {
      NoChildren(d, offset, end);
      assert found + [] == found;
    } else {
      var p, rest := ps[0], ps[1..];
      assert ItemChildren(ps)[1..] == ItemChildren(rest);
      FirstFound(d, offset, end, ItemChildren(ps));
      var e := ChildAt(d, offset, end).value;
      TimeReads(d, e, p, track, scale, duration);
      var more := found + MeantTime(p, track, scale, duration);
      assert found + MeantTimes(ps, track, scale, duration) == more + MeantTimes(rest, track, scale, duration);
      if |more| <= MAX_CUE_POINTS {
        TimesRead(d, End(e), end, rest, track, scale, duration, more);
      }
    }
  }

  /**
   * The timeline of written cues: there is one exactly when between two and a million points count, and its segments begin
   * at exactly the times of those points.
   */
  lemma WrittenTimeline(front: bytes, id: nat, ps: seq<CueItem>, rest: bytes, track: nat, scale: nat, duration: u64)
    requires scale > 0 && ValidId(id) && ItemsOk(ps) && |ChildrenBytes(ItemChildren(ps))| < Pow128(8) - 1
    ensures var d := front + Written(id, ChildrenBytes(ItemChildren(ps))) + rest;
            var times := MeantTimes(ps, track, scale, duration);
            && ElementAt(d, |front|).Some?
            && var t := ParseTimeline(d, ElementAt(d, |front|).value, track, scale, duration);
               && (t.Some? <==> 2 <= |times| <= MAX_CUE_POINTS)
               && (t.Some? ==>
                     && (exists first :: First(first, times) && Tiles(t.value.segments, first, duration))
                     && forall x :: Starts(t.value.segments, x) <==> x in times)
  {
    hide CueTimes, ChildrenBytes, Written, ElementAt, Tiles, Starts, Sorted, SegmentsFrom, Longest, Pow128, ValidId;
    var d := front + Written(id, ChildrenBytes(ItemChildren(ps))) + rest;
    var times := MeantTimes(ps, track, scale, duration);
    ElementReadsBack(front, id, ChildrenBytes(ItemChildren(ps)), rest);
    var e := ElementAt(d, |front|).value;
    assert [] + times == times;
    TimesRead(d, e.dataOffset, End(e), ps, track, scale, duration, []);
    if 2 <= |times| <= MAX_CUE_POINTS {
      HasTimeline(d, e, track, scale, duration, times);
      TimelineTiles(d, e, track, scale, duration);
      SortedFacts(times);
      SortedStart(times);
    }
  }

  predicate First(first: nat, times: seq<nat>) { first in times && forall t | t in times :: first <= t }

  lemma SortedStart(times: seq<nat>)
    requires times != [] && |Sorted(times)| == |times|
    ensures First(Sorted(times)[0], times)
  {
    hide Sorted;
    SortedFacts(times);
    var sorted := Sorted(times);
    assert sorted[0] in sorted && sorted == [sorted[0]] + sorted[1..];
    AscendingRest(sorted);
  }

  lemma HasTimeline(d: bytes, e: Element, track: nat, scale: nat, duration: u64, times: seq<nat>)
    requires scale > 0 && CueTimes(d, e.dataOffset, End(e), track, scale, duration, []) == Some(times) && |times| >= 2
    ensures ParseTimeline(d, e, track, scale, duration).Some?
  {
    hide CueTimes, Sorted, SegmentsFrom, Longest, Tiles;
    TimesBeforeEnd(d, e.dataOffset, End(e), track, scale, duration, []);
    SortedFacts(times);
    var sorted := Sorted(times);
    assert sorted[0] in sorted && forall t | t in sorted[1..] :: t in sorted;
    AscendingRest(sorted);
    SegmentsTile(sorted[0], sorted[1..], duration);
    TilesHave(SegmentsFrom(sorted[0], sorted[1..], duration), sorted[0], duration);
  }

  lemma TilesHave(segments: seq<CueSegment>, start: nat, end: nat)
    requires Tiles(segments, start, end)
    ensures segments != []
  {}
}
