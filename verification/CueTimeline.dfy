/** Segment boundaries taken from a Matroska file's cues (section 5.1.5 of RFC 9559). */
module CueTimeline {
  import opened Bytes
  import opened Ebml

  const CUE_POINT: nat := 0xBB
  const CUE_TIME: nat := 0xB3
  const CUE_TRACK_POSITIONS: nat := 0xB7
  const CUE_TRACK: nat := 0xF7
  const CUE_CLUSTER_POSITION: nat := 0xF1
  const MAX_CUE_POINTS: nat := 1_000_000

  datatype CueSegment = CueSegment(start: nat, end: nat)

  datatype Timeline = Timeline(segments: seq<CueSegment>, scale: nat, longest: nat)

  // ----- reading cue points -----

  /** The next child of an element that ends at `end`; none that is unknown-sized or reaches beyond it. */
  function ChildAt(d: bytes, offset: nat, end: nat): (r: Option<Element>)
    ensures r.Some? ==> offset < End(r.value) <= end
  {
    match ElementAt(d, offset)
    case None => None
    case Some(e) => if e.unknownSize || End(e) > end then None else Some(e)
  }

  function OrZero(v: Option<nat>): nat { if v.Some? then v.value else 0 }

  /** The track and whether a cluster position was given; `None` for a malformed child. */
  function Positions(d: bytes, offset: nat, end: nat, track: nat, cluster: bool): Option<(nat, bool)>
    decreases end - offset
  {
    if offset >= end then Some((track, cluster)) else
    match ChildAt(d, offset, end)
    case None => None
    case Some(c) =>
      if c.id == CUE_TRACK then Positions(d, End(c), end, OrZero(Unsigned(d, c)), cluster)
      else if c.id == CUE_CLUSTER_POSITION then Positions(d, End(c), end, track, Unsigned(d, c).Some?)
      else Positions(d, End(c), end, track, cluster)
  }

  predicate HasVideoPosition(d: bytes, positions: Element, videoTrack: nat) {
    match Positions(d, positions.dataOffset, End(positions), 0, false)
    case None => false
    case Some((track, cluster)) => track == videoTrack && cluster
  }

  function CueTimeFrom(d: bytes, offset: nat, end: nat, videoTrack: nat, time: Option<nat>, positioned: bool): Option<nat>
    decreases end - offset
  {
    if offset >= end then if positioned then time else None else
    match ChildAt(d, offset, end)
    case None => None
    case Some(c) =>
      CueTimeFrom(d, End(c), end, videoTrack, if c.id == CUE_TIME then Unsigned(d, c) else time,
                  positioned || (c.id == CUE_TRACK_POSITIONS && HasVideoPosition(d, c, videoTrack)))
  }

  /** `video_cue_time`. */
  function VideoCueTime(d: bytes, point: Element, videoTrack: nat): Option<nat> {
    CueTimeFrom(d, point.dataOffset, End(point), videoTrack, None, false)
  }

  method FindVideoPosition(d: bytes, positions: Element, videoTrack: nat) returns (found: bool)
    ensures found == HasVideoPosition(d, positions, videoTrack)
  {
    var track, cluster := 0, false;
    var end, offset := End(positions), positions.dataOffset;
    while offset < end
      invariant Positions(d, positions.dataOffset, end, 0, false) == Positions(d, offset, end, track, cluster)
      decreases if offset < end then end - offset else 0
    {
      hide ChildAt, Unsigned;
      ChildAdvances(d, offset, end);
      var child := ChildAt(d, offset, end);
      if child.None? { return false; }
      if child.value.id == CUE_TRACK {
        track := OrZero(Unsigned(d, child.value));
      } else if child.value.id == CUE_CLUSTER_POSITION {
        cluster := Unsigned(d, child.value).Some?;
      }
      offset := End(child.value);
    }
    return track == videoTrack && cluster;
  }

  method FindVideoCueTime(d: bytes, point: Element, videoTrack: nat) returns (r: Option<nat>)
    ensures r == VideoCueTime(d, point, videoTrack)
  {
    var time: Option<nat>, positioned := None, false;
    var end, offset := End(point), point.dataOffset;
    while offset < end
      invariant VideoCueTime(d, point, videoTrack) == CueTimeFrom(d, offset, end, videoTrack, time, positioned)
      decreases if offset < end then end - offset else 0
    {
      hide ChildAt, HasVideoPosition, Unsigned;
      var child := ChildAt(d, offset, end);
      if child.None? { return None; }
      ChildAdvances(d, offset, end);
      if child.value.id == CUE_TIME {
        time := Unsigned(d, child.value);
      } else if child.value.id == CUE_TRACK_POSITIONS {
        var found := FindVideoPosition(d, child.value, videoTrack);
        if found { positioned := true; }
      }
      offset := End(child.value);
    }
    return if positioned then time else None;
  }

  lemma ChildAdvances(d: bytes, offset: nat, end: nat)
    ensures ChildAt(d, offset, end).Some? ==> offset < End(ChildAt(d, offset, end).value) <= end
  {}

  // ----- from cue times to segments -----

  predicate Ascending(times: seq<nat>) { forall i, j | 0 <= i < j < |times| :: times[i] <= times[j] }

  function Insert(times: seq<nat>, t: nat): (r: seq<nat>)
    ensures multiset(r) == multiset(times) + multiset{t}
  {
    if times == [] || t <= times[0] then [t] + times else
    assert times == [times[0]] + times[1..];
    [times[0]] + Insert(times[1..], t)
  }

  /** The times in ascending order. */
  function Sorted(times: seq<nat>): (r: seq<nat>)
    ensures multiset(r) == multiset(times)
  {
    if times == [] then [] else
    assert times == times[..|times| - 1] + [times[|times| - 1]];
    Insert(Sorted(times[..|times| - 1]), times[|times| - 1])
  }

  lemma ConsAscends(a: nat, rest: seq<nat>)
    requires Ascending(rest) && forall x | x in rest :: a <= x
    ensures Ascending([a] + rest)
  {
    var all := [a] + rest;
    forall i, j | 0 <= i < j < |all| ensures all[i] <= all[j] {
      assert all[j] == rest[j - 1] && rest[j - 1] in rest;
      if i > 0 { assert all[i] == rest[i - 1]; }
    }
  }

  lemma AscendingRest(times: seq<nat>)
    requires Ascending(times) && times != []
    ensures Ascending(times[1..]) && forall x | x in times[1..] :: times[0] <= x
  {
    forall x | x in times[1..] ensures times[0] <= x {
      var i :| 0 <= i < |times[1..]| && times[1..][i] == x;
      assert times[i + 1] == x;
    }
  }

  lemma {:induction false} InsertAscends(times: seq<nat>, t: nat)
    requires Ascending(times)
    ensures Ascending(Insert(times, t))
  {
    hide Ascending;
    if times == [] {
      OneAscends(t);
    } else {
      AscendingRest(times);
      if t <= times[0] {
        assert times == [times[0]] + times[1..];
        forall x | x in times ensures t <= x {
          assert x == times[0] || x in times[1..];
        }
        ConsAscends(t, times);
      } else {
        InsertAscends(times[1..], t);
        var rest := Insert(times[1..], t);
        forall x | x in rest ensures times[0] <= x {
          Inserted(times[1..], t, x);
        }
        ConsAscends(times[0], rest);
      }
    }
  }

  lemma Inserted(times: seq<nat>, t: nat, x: nat)
    requires x in Insert(times, t)
    ensures x == t || x in times
  {
    assert x in multiset(Insert(times, t));
    assert x == t || x in multiset(times);
  }

  lemma OneAscends(t: nat)
    ensures Ascending([t] + []) && Ascending([])
  {}

  lemma {:induction false} SortedAscends(times: seq<nat>)
    ensures Ascending(Sorted(times))
  {
    if times != [] {
      SortedAscends(times[..|times| - 1]);
      InsertAscends(Sorted(times[..|times| - 1]), times[|times| - 1]);
    }
  }

  /** Segments from `previous` on: one to every later time, and the last one to the end. */
  function SegmentsFrom(previous: nat, times: seq<nat>, duration: nat): seq<CueSegment>
    decreases |times|
  {
    if times == [] then (if duration > previous then [CueSegment(previous, duration)] else [])
    else if times[0] <= previous then SegmentsFrom(previous, times[1..], duration)
    else [CueSegment(previous, times[0])] + SegmentsFrom(times[0], times[1..], duration)
  }

  method BuildSegments(times: seq<nat>, duration: nat) returns (segments: seq<CueSegment>)
    requires times != []
    ensures segments == SegmentsFrom(times[0], times[1..], duration)
  {
    segments := [];
    var previous := times[0];
    assert [] + SegmentsFrom(previous, times[1..], duration) == SegmentsFrom(previous, times[1..], duration);
    for i := 1 to |times|
      invariant SegmentsFrom(times[0], times[1..], duration) == segments + SegmentsFrom(previous, times[i..], duration)
    {
      assert times[i..][1..] == times[i + 1..];
      if times[i] <= previous {
        continue;
      }
      assert segments + ([CueSegment(previous, times[i])] + SegmentsFrom(times[i], times[i + 1..], duration))
          == segments + [CueSegment(previous, times[i])] + SegmentsFrom(times[i], times[i + 1..], duration);
      segments := segments + [CueSegment(previous, times[i])];
      previous := times[i];
    }
    assert times[|times|..] == [];
    if duration > previous {
      segments := segments + [CueSegment(previous, duration)];
    } else {
      assert segments + [] == segments;
    }
  }

  /** Nonempty segments, each beginning where the one before ends, from `start` to `end`. */
  predicate Tiles(segments: seq<CueSegment>, start: nat, end: nat) {
    && segments != [] && segments[0].start == start && segments[|segments| - 1].end == end
    && (forall i | 0 <= i < |segments| :: segments[i].start < segments[i].end)
    && (forall i | 0 < i < |segments| :: segments[i].start == segments[i - 1].end)
  }

  ghost predicate Starts(segments: seq<CueSegment>, t: nat) { exists i :: 0 <= i < |segments| && segments[i].start == t }

  /** From ascending times before the end: the segments tile the rest, and begin at exactly those times. */
  lemma {:induction false} SegmentsTile(previous: nat, times: seq<nat>, duration: nat)
    requires Ascending(times) && previous < duration && forall t | t in times :: previous <= t < duration
    ensures Tiles(SegmentsFrom(previous, times, duration), previous, duration)
    ensures forall t :: Starts(SegmentsFrom(previous, times, duration), t) <==> t == previous || t in times
    decreases |times|
  {
    var r := SegmentsFrom(previous, times, duration);
    if times == [] {
      assert r[0].start == previous;
    } else {
      AscendingRest(times);
      hide Ascending;
      assert times[0] in times && forall t | t in times[1..] :: t in times;
      if times[0] <= previous {
        SegmentsTile(previous, times[1..], duration);
        assert times == [times[0]] + times[1..];
      } else {
        SegmentsTile(times[0], times[1..], duration);
        TilesFirst(previous, times[0], SegmentsFrom(times[0], times[1..], duration), duration);
        FirstStarts(previous, times, SegmentsFrom(times[0], times[1..], duration));
      }
    }
  }

  lemma TilesFirst(previous: nat, next: nat, rest: seq<CueSegment>, duration: nat)
    requires previous < next && Tiles(rest, next, duration)
    ensures Tiles([CueSegment(previous, next)] + rest, previous, duration)
  {
    var all := [CueSegment(previous, next)] + rest;
    forall i | 0 < i < |all| ensures all[i].start == all[i - 1].end && all[i].start < all[i].end {
      assert all[i] == rest[i - 1];
      if i > 1 { assert all[i - 1] == rest[i - 2]; }
    }
  }

  lemma FirstStarts(previous: nat, times: seq<nat>, rest: seq<CueSegment>)
    requires times != [] && forall t :: Starts(rest, t) <==> t == times[0] || t in times[1..]
    ensures var all := [CueSegment(previous, times[0])] + rest;
            forall t :: Starts(all, t) <==> t == previous || t in times
  {
    var all := [CueSegment(previous, times[0])] + rest;
    forall t ensures Starts(all, t) <==> t == previous || t in times {
      assert times == [times[0]] + times[1..];
      if Starts(rest, t) {
        var i :| 0 <= i < |rest| && rest[i].start == t;
        assert all[i + 1].start == t;
      }
      if i :| 0 <= i < |all| && all[i].start == t {
        if i > 0 { assert rest[i - 1].start == t; }
      }
      if t == previous { assert all[0].start == t; }
    }
  }

  function Longest(segments: seq<CueSegment>): nat {
    if segments == [] then 0 else
    var last := segments[|segments| - 1];
    Max(Longest(segments[..|segments| - 1]), Max(0, last.end - last.start))
  }

  lemma {:induction false} LongestBounds(segments: seq<CueSegment>, i: nat)
    requires i < |segments|
    ensures segments[i].end - segments[i].start <= Longest(segments)
  {
    var n := |segments| - 1;
    if i < n { LongestBounds(segments[..n], i); }
  }

  // ----- the whole timeline -----

  /** The video cue times before the end, in file order; `None` when the cues are malformed or too many. */
  function CueTimes(d: bytes, offset: nat, end: nat, track: nat, scale: nat, duration: nat, found: seq<nat>): Option<seq<nat>>
    requires scale > 0
    decreases end - offset
  {
    if offset >= end then Some(found) else
    match ChildAt(d, offset, end)
    case None => None
    case Some(p) =>
      var more := found + TimeOf(d, p, track, scale, duration);
      if |more| > |found| && |more| > MAX_CUE_POINTS then None else
      CueTimes(d, End(p), end, track, scale, duration, more)
  }

  /** The time of one cue point, if it counts. */
  function TimeOf(d: bytes, p: Element, track: nat, scale: nat, duration: nat): (r: seq<nat>)
    requires scale > 0
    ensures |r| <= 1 && forall t | t in r :: t < duration
  {
    if p.id != CUE_POINT then [] else
    match VideoCueTime(d, p, track)
    case None => []
    case Some(time) => if time <= U64_MAX / scale && time * scale < duration then [time * scale] else []
  }

  function TimelineOf(times: seq<nat>, scale: nat, duration: nat): Option<Timeline> {
    if |times| < 2 then None else
    var sorted := Sorted(times);
    assert |multiset(sorted)| == |multiset(times)|;
    var segments := SegmentsFrom(sorted[0], sorted[1..], duration);
    if segments == [] then None else Some(Timeline(segments, scale, Longest(segments)))
  }

  function ParseTimeline(d: bytes, cues: Element, track: nat, scale: nat, duration: nat): Option<Timeline>
    requires scale > 0
  {
    match CueTimes(d, cues.dataOffset, End(cues), track, scale, duration, [])
    case None => None
    case Some(times) => TimelineOf(times, scale, duration)
  }

  method CollectTimeline(d: bytes, cues: Element, track: nat, scale: nat, duration: nat) returns (r: Option<Timeline>)
    requires scale > 0
    ensures r == ParseTimeline(d, cues, track, scale, duration)
  {
    var times: seq<nat> := [];
    var end, offset := End(cues), cues.dataOffset;
    while offset < end
      invariant CueTimes(d, cues.dataOffset, end, track, scale, duration, [])
             == CueTimes(d, offset, end, track, scale, duration, times)
      decreases if offset < end then end - offset else 0
    {
      hide ChildAt, VideoCueTime;
      ChildAdvances(d, offset, end);
      var point := ChildAt(d, offset, end);
      if point.None? { return None; }
      assert times + [] == times;
      if point.value.id == CUE_POINT {
        var time := FindVideoCueTime(d, point.value, track);
        if time.Some? && time.value <= U64_MAX / scale {
          var ns := time.value * scale;
          if ns < duration {
            times := times + [ns];
            if |times| > MAX_CUE_POINTS { return None; }
          }
        }
      }
      offset := End(point.value);
    }
    if |times| < 2 { return None; }
    var sorted := Sorted(times);
    assert |multiset(sorted)| == |multiset(times)|;
    var segments := BuildSegments(sorted, duration);
    if segments == [] { return None; }
    return Some(Timeline(segments, scale, Longest(segments)));
  }

  lemma {:induction false} TimesBeforeEnd(
    d: bytes, offset: nat, end: nat, track: nat, scale: nat, duration: nat, found: seq<nat>)
    requires scale > 0 && forall t | t in found :: t < duration
    ensures var r := CueTimes(d, offset, end, track, scale, duration, found);
            r.Some? ==> forall t | t in r.value :: t < duration
    decreases end - offset
  {
    hide ChildAt, TimeOf;
    if offset < end && ChildAt(d, offset, end).Some? {
      ChildAdvances(d, offset, end);
      var p := ChildAt(d, offset, end).value;
      TimeBefore(d, p, track, scale, duration);
      TimesBeforeEnd(d, End(p), end, track, scale, duration, found + TimeOf(d, p, track, scale, duration));
    }
  }

  lemma TimeBefore(d: bytes, p: Element, track: nat, scale: nat, duration: nat)
    requires scale > 0
    ensures forall t | t in TimeOf(d, p, track, scale, duration) :: t < duration
  {}

  /**
   * A timeline, whatever bytes it came from: nonempty adjacent segments from the first cue time to the duration, one
   * beginning at every cue time and nowhere else, none longer than the longest recorded.
   */
  lemma TimelineTiles(d: bytes, cues: Element, track: nat, scale: nat, duration: nat)
    requires scale > 0 && ParseTimeline(d, cues, track, scale, duration).Some?
    ensures var times := CueTimes(d, cues.dataOffset, End(cues), track, scale, duration, []);
            var t := ParseTimeline(d, cues, track, scale, duration).value;
            && times.Some? && |times.value| >= 2 && |Sorted(times.value)| >= 2
            && Tiles(t.segments, Sorted(times.value)[0], duration)
            && (forall x :: Starts(t.segments, x) <==> x in times.value)
            && (forall i | 0 <= i < |t.segments| :: t.segments[i].end - t.segments[i].start <= t.longest)
  {
    hide CueTimes, Sorted, SegmentsFrom, Longest, Starts, Tiles;
    var times := CueTimes(d, cues.dataOffset, End(cues), track, scale, duration, []).value;
    TimesBeforeEnd(d, cues.dataOffset, End(cues), track, scale, duration, []);
    SortedFacts(times);
    var sorted := Sorted(times);
    assert sorted == [sorted[0]] + sorted[1..];
    assert sorted[0] in sorted && forall t | t in sorted[1..] :: t in sorted;
    AscendingRest(sorted);
    SegmentsTile(sorted[0], sorted[1..], duration);
    var segments := SegmentsFrom(sorted[0], sorted[1..], duration);
    forall i | 0 <= i < |segments| ensures segments[i].end - segments[i].start <= Longest(segments) {
      LongestBounds(segments, i);
    }
  }

  lemma SortedFacts(times: seq<nat>)
    ensures Ascending(Sorted(times)) && |Sorted(times)| == |times|
    ensures forall t :: t in Sorted(times) <==> t in times
  {
    SortedAscends(times);
    assert |multiset(Sorted(times))| == |multiset(times)|;
    forall t ensures t in Sorted(times) <==> t in times {
      assert t in multiset(Sorted(times)) <==> t in multiset(times);
    }
  }
}
