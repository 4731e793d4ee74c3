/**
 * The media playlist's segments (sections 4.3.2.1 and 4.3.3.1 of RFC 8216) against the ranges the server answers
 * for.
 */
module HlsPlaylist {
  import opened Bytes
  import opened CueTimeline

  const SECOND: int := 1_000_000_000
  const I64_MAX: int := 0x7FFF_FFFF_FFFF_FFFF

  /** What playlists and requests are answered from: the segment length, the duration (not positive: unknown), and cues. */
  datatype Task = Task(segmentSeconds: int, durationNs: int, cue: Option<Timeline>)

  /** Machine-sized settings, a segment length as normalisation leaves it, and a timeline as the cue reader builds it. */
  predicate TaskOk(t: Task) {
    && 1 <= t.segmentSeconds <= I64_MAX && -I64_MAX - 1 <= t.durationNs <= I64_MAX
    && (t.cue.Some? ==>
          var s := t.cue.value.segments;
          s != [] && Tiles(s, s[0].start, s[|s| - 1].end) && s[|s| - 1].end <= U64_MAX
          && forall i | 0 <= i < |s| :: s[i].end - s[i].start <= t.cue.value.longest)
  }

  /** The segment length fits in nanoseconds, or cues make it irrelevant. */
  predicate Moderate(t: Task) { t.cue.Some? || t.segmentSeconds <= I64_MAX / SECOND }

  // ----- the code, with the machine's arithmetic -----

  function WrapI64(x: int): int { if Wrap64(x) as int > I64_MAX then Wrap64(x) as int - U64_MAX - 1 else Wrap64(x) }

  /** Division as the machine does it: towards zero. */
  function TruncDiv(a: int, b: int): int
    requires b != 0
  {
    if a >= 0 then (if b > 0 then a / b else -(a / -b)) else (if b > 0 then -(-a / b) else -a / -b)
  }

  /** The length in nanoseconds as an unsigned word. */
  function SegmentNs(t: Task): int { Wrap64(Max(t.segmentSeconds, 1) * SECOND) }

  /** The same as a signed word, which `segment_count` divides by. */
  function SignedNs(t: Task): int { WrapI64(Max(t.segmentSeconds, 1) * SECOND) }

  /** Unknown durations count as two hundred minutes. */
  function EffectiveDuration(t: Task): int { if t.durationNs > 0 then t.durationNs else 200 * 60 * SECOND }

  function Segment(t: Task, index: int): Option<CueSegment> {
    if t.cue.Some? && 0 <= index < |t.cue.value.segments| then Some(t.cue.value.segments[index]) else None
  }

  /** `segment_count` divides by zero when the length in nanoseconds wraps around to nothing. */
  predicate CountDefined(t: Task) { t.cue.Some? || SignedNs(t) != 0 }

  function SegmentCount(t: Task): int
    requires CountDefined(t)
  {
    if t.cue.Some? then |t.cue.value.segments| else 1 + TruncDiv(EffectiveDuration(t) - 1, SignedNs(t))
  }

  function SegmentStart(t: Task, index: int): int {
    if Segment(t, index).Some? then Segment(t, index).value.start
    else if index <= 0 then 0 else Wrap64(index * Max(t.segmentSeconds, 1) * SECOND)
  }

  function TargetDuration(t: Task): int {
    Max(if t.cue.Some? then (t.cue.value.longest + SECOND - 1) / SECOND else Max(t.segmentSeconds, 1), 1)
  }

  /** How long the playlist says a segment is. */
  function ItemNs(t: Task, index: int): int
    requires CountDefined(t)
  {
    if Segment(t, index).Some? then Segment(t, index).value.end - Segment(t, index).value.start
    else if index == SegmentCount(t) - 1 && EffectiveDuration(t) > Wrap64(index * SegmentNs(t)) as int then
      EffectiveDuration(t) - Wrap64(index * SegmentNs(t)) as int
    else SegmentNs(t)
  }

  datatype Item = Item(index: int, ns: int)

  function Clamp(x: int, low: int, high: int): int { if x < low then low else if x > high then high else x }

  /** The items from `from` on. */
  function Items(t: Task, from: int): (r: seq<Item>)
    requires CountDefined(t)
    ensures |r| == Max(0, SegmentCount(t) - from)
    ensures forall i | 0 <= i < |r| :: r[i] == Item(from + i, ItemNs(t, from + i))
  {
    seq(Max(0, SegmentCount(t) - from), i requires 0 <= i => Item(from + i, ItemNs(t, from + i)))
  }

  /** A playlist is made unless the count is undefined, or negative so that nothing lies between zero and it. */
  predicate Playable(t: Task) { CountDefined(t) && SegmentCount(t) >= 0 }

  /** The item loop of `media_playlist`; none where the code panics. */
  method MediaItems(t: Task, startIndex: int) returns (items: Option<seq<Item>>)
    ensures items.Some? <==> Playable(t)
    ensures items.Some? ==> items.value == Items(t, Clamp(startIndex, 0, SegmentCount(t)))
  {
    if !CountDefined(t) { return None; }
    var count := SegmentCount(t);
    if count < 0 { return None; }
    var start := Clamp(startIndex, 0, count);
    var segmentNs := SegmentNs(t);
    var listed: seq<Item> := [];
    for index := start to count
      invariant |listed| == index - start
      invariant forall i | 0 <= i < |listed| :: listed[i] == Item(start + i, ItemNs(t, start + i))
    {
      var itemNs := segmentNs;
      if Segment(t, index).Some? {
        itemNs := Segment(t, index).value.end - Segment(t, index).value.start;
      } else if index == count - 1 {
        var startNs: int := Wrap64(index * segmentNs);
        if EffectiveDuration(t) > startNs { itemNs := EffectiveDuration(t) - startNs; }
      }
      listed := listed + [Item(index, itemNs)];
    }
    assert listed == Items(t, start);
    return Some(listed);
  }

  /** `subtitle_range`. */
  function SubtitleRange(t: Task, segment: int): (int, int) {
    if Segment(t, segment).Some? then (Segment(t, segment).value.start, Segment(t, segment).value.end)
    else
      var from := SegmentStart(t, segment);
      var to := Min(from + SegmentNs(t), U64_MAX);
      if t.durationNs <= 0 then (from, to)
      else if from >= t.durationNs then (from, from)
      else (from, Min(to, t.durationNs))
  }

  datatype Verdict = Accepted | Invalid | Exhausted

  /** `validate_segment_index`. */
  function Validate(t: Task, index: int): Verdict {
    if index < 0 then Invalid
    else if t.cue.Some? then if index >= |t.cue.value.segments| then Exhausted else Accepted
    else if t.segmentSeconds <= 0 || t.segmentSeconds > I64_MAX / SECOND then Invalid
    else if index > I64_MAX / (t.segmentSeconds * SECOND) then Invalid
    else if t.durationNs > 0 && index >= 1 + (t.durationNs - 1) / (t.segmentSeconds * SECOND) then Exhausted
    else Accepted
  }

  function FirstEndingAfter(segments: seq<CueSegment>, target: int): (i: nat)
    ensures i <= |segments| && (i < |segments| ==> target < segments[i].end)
    ensures forall j | 0 <= j < i :: segments[j].end <= target
  {
    if segments == [] || target < segments[0].end then 0 else
    var i := FirstEndingAfter(segments[1..], target);
    assert forall j | 0 < j < i + 1 :: segments[j] == segments[1..][j - 1];
    1 + i
  }

  /** `start_index_for_seconds`. */
  function StartIndex(t: Task, seconds: int): int {
    if seconds <= 0 then 0
    else if t.cue.Some? then FirstEndingAfter(t.cue.value.segments, Wrap64(seconds * SECOND))
    else
      var segmentSeconds := Max(t.segmentSeconds, 1);
      var duration := if t.durationNs <= 0 then 0 else t.durationNs / SECOND;
      var count := if duration > 0 then 1 + (duration - 1) / segmentSeconds else 0;
      var index := seconds / segmentSeconds;
      if count > 0 && index > count then count else index
  }

  // ----- arithmetic -----

  lemma DivBounds(x: int, m: int)
    requires x >= 0 && m > 0
    ensures x / m * m <= x < x / m * m + m && x / m >= 0
  {
    assert x == x / m * m + x % m;
  }

  lemma TimesUp(a: int, b: int, m: int)
    requires a <= b && m >= 0
    ensures a * m <= b * m
  {}

  lemma OneMore(i: int, m: int)
    ensures (i + 1) * m == i * m + m
  {}

  lemma DivMonotone(x: int, y: int, m: int)
    requires 0 <= x <= y && m > 0
    ensures x / m <= y / m
  {
    DivBounds(x, m);
    DivBounds(y, m);
    if x / m > y / m {
      TimesUp(y / m + 1, x / m, m);
      OneMore(y / m, m);
    }
  }

  /** A moderate length does not wrap around. */
  lemma PlainNs(t: Task)
    requires TaskOk(t) && t.cue.None? && Moderate(t)
    ensures CountDefined(t) && 0 < SegmentNs(t) == SignedNs(t) == t.segmentSeconds * SECOND <= I64_MAX
    ensures SegmentCount(t) == 1 + (EffectiveDuration(t) - 1) / SegmentNs(t)
  {
    DivBounds(I64_MAX, SECOND);
    TimesUp(t.segmentSeconds, I64_MAX / SECOND, SECOND);
  }

  /** The last segment starts before the end and reaches it. */
  lemma CountMeaning(t: Task)
    requires TaskOk(t) && t.cue.None? && Moderate(t)
    ensures CountDefined(t)
    ensures var n, m, d := SegmentCount(t), SegmentNs(t), EffectiveDuration(t);
            n >= 1 && 0 < m <= I64_MAX && 0 < d <= I64_MAX && (n - 1) * m < d <= n * m
  {
    PlainNs(t);
    hide CountDefined, SegmentCount, SegmentNs, SignedNs;
    var m, d := SegmentNs(t), EffectiveDuration(t);
    DivBounds(d - 1, m);
    OneMore((d - 1) / m, m);
  }

  /** Where listed segments start, without wrapping around. */
  lemma PlainStart(t: Task, i: int)
    requires TaskOk(t) && t.cue.None? && Moderate(t) && CountDefined(t) && 0 <= i < SegmentCount(t)
    ensures 0 <= i * SegmentNs(t) < EffectiveDuration(t)
    ensures SegmentStart(t, i) == i * SegmentNs(t) == Wrap64(i * SegmentNs(t)) as int
  {
    CountMeaning(t);
    PlainNs(t);
    hide CountDefined, SegmentCount, SegmentNs, SignedNs;
    TimesUp(i, SegmentCount(t) - 1, SegmentNs(t));
    TimesUp(0, i, SegmentNs(t));
    Scale(i, t.segmentSeconds);
  }

  lemma Scale(i: int, s: int)
    ensures i * (s * SECOND) == i * s * SECOND
  {}

  // ----- tiling -----

  /** Where the whole timeline ends. */
  function TimelineEnd(t: Task): int
    requires TaskOk(t)
  {
    if t.cue.Some? then t.cue.value.segments[|t.cue.value.segments| - 1].end else EffectiveDuration(t)
  }

  /** A listed segment is not empty; the next one starts where it ends, the last one ends with the timeline. */
  lemma ItemsAdjacent(t: Task, i: int)
    requires TaskOk(t) && Moderate(t) && CountDefined(t) && 0 <= i < SegmentCount(t)
    ensures ItemNs(t, i) > 0
    ensures SegmentStart(t, i) + ItemNs(t, i) == if i == SegmentCount(t) - 1 then TimelineEnd(t) else SegmentStart(t, i + 1)
  {
    if t.cue.None? {
      CountMeaning(t);
      PlainStart(t, i);
      if i < SegmentCount(t) - 1 { PlainStart(t, i + 1); }
      hide CountDefined, SegmentCount, SegmentNs, SignedNs, SegmentStart;
      OneMore(i, SegmentNs(t));
    }
  }

  function SumNs(items: seq<Item>): int { if items == [] then 0 else items[0].ns + SumNs(items[1..]) }

  /** The listed durations add up to what is left of the timeline. */
  lemma {:induction false} ItemsSum(t: Task, from: int)
    requires TaskOk(t) && Moderate(t) && CountDefined(t) && 0 <= from <= SegmentCount(t)
    ensures SumNs(Items(t, from)) == if from < SegmentCount(t) then TimelineEnd(t) - SegmentStart(t, from) else 0
    decreases SegmentCount(t) - from
  {
    hide TaskOk, CountDefined, SegmentCount, ItemNs, SegmentStart, TimelineEnd;
    if from < SegmentCount(t) {
      ItemsAdjacent(t, from);
      ItemsSum(t, from + 1);
      assert Items(t, from)[1..] == Items(t, from + 1);
    }
  }

  /** No listed segment is longer than the target duration. */
  lemma ItemWithinTarget(t: Task, i: int)
    requires TaskOk(t) && Moderate(t) && CountDefined(t) && 0 <= i < SegmentCount(t)
    ensures ItemNs(t, i) <= TargetDuration(t) * SECOND
  {
    if t.cue.None? {
      PlainNs(t);
      CountMeaning(t);
      PlainStart(t, i);
      hide CountDefined, SegmentCount, SegmentNs, SignedNs, SegmentStart;
      OneMore(i, SegmentNs(t));
    } else {
      DivBounds(t.cue.value.longest + SECOND - 1, SECOND);
    }
  }

  // ----- what the server answers -----

  /** How many indices the server accepts: those listed, and with an unknown duration all that fit 64-bit nanoseconds. */
  function AcceptedCount(t: Task): int
    requires TaskOk(t) && Moderate(t) && CountDefined(t)
  {
    if t.cue.Some? || t.durationNs > 0 then SegmentCount(t) else I64_MAX / SegmentNs(t) + 1
  }

  lemma AcceptedIndices(t: Task, index: int)
    requires TaskOk(t) && Moderate(t) && CountDefined(t)
    ensures Validate(t, index).Accepted? <==> 0 <= index < AcceptedCount(t)
    ensures SegmentCount(t) <= AcceptedCount(t)
  {
    if t.cue.None? {
      PlainNs(t);
      DivMonotone(EffectiveDuration(t) - 1, I64_MAX, SegmentNs(t));
      if t.durationNs <= 0 { OneLess(I64_MAX, EffectiveDuration(t) - 1, SegmentNs(t)); }
    }
  }

  lemma OneLess(x: int, y: int, m: int)
    requires 0 <= y <= x && 0 < m
    ensures 1 + y / m <= x / m + 1
  {
    DivMonotone(y, x, m);
  }

  /**
   * With cues or a known duration the indices accepted are exactly those listed, if and only if the segment length fits
   * in nanoseconds or the wrapped count leaves nothing to list.
   */
  lemma AcceptedMeansListed(t: Task)
    requires TaskOk(t) && CountDefined(t) && (t.cue.Some? || t.durationNs > 0)
    ensures (forall index: int :: Validate(t, index).Accepted? <==> 0 <= index < SegmentCount(t))
            <==> Moderate(t) || SegmentCount(t) <= 0
  {
    hide SegmentCount, CountDefined;
    if Moderate(t) {
      forall index: int ensures Validate(t, index).Accepted? <==> 0 <= index < SegmentCount(t) { AcceptedIndices(t, index); }
    } else {
      assert forall index: int :: !Validate(t, index).Accepted?;
      if SegmentCount(t) > 0 { assert 0 <= 0 < SegmentCount(t) && !Validate(t, 0).Accepted?; }
    }
  }

  /** Ten thousand million seconds wrap around to a count of one: its segment is listed, but refused. */
  lemma LongLengthIsListedButRefused()
    ensures var t := Task(10_000_000_000, 10 * SECOND, None);
            TaskOk(t) && Playable(t) && SegmentCount(t) == 1 && |Items(t, 0)| == 1 && Validate(t, 0) == Invalid
  {
    var t := Task(10_000_000_000, 10 * SECOND, None);
    assert SignedNs(t) == -8_446_744_073_709_551_616;
    assert (10 * SECOND - 1) / 8_446_744_073_709_551_616 == 0;
  }

  /** There are lengths for which making a playlist panics: the count is undefined. */
  lemma SomeLengthsHaveNoCount()
    ensures var t := Task(0x80_0000_0000_0000, 10 * SECOND, None); TaskOk(t) && !CountDefined(t)
  {
    assert 0x80_0000_0000_0000 * SECOND == 1_953_125 * (U64_MAX + 1);
  }

  /**
   * A listed segment covers exactly its subtitle range, except for the last one of an unknown duration that two
   * hundred minutes cut short.
   */
  lemma ItemsMatchSubtitles(t: Task, i: int)
    requires TaskOk(t) && Moderate(t) && CountDefined(t) && 0 <= i < SegmentCount(t)
    ensures SubtitleRange(t, i) == (SegmentStart(t, i), SegmentStart(t, i) + ItemNs(t, i))
            <==> t.cue.Some? || t.durationNs > 0 || i < SegmentCount(t) - 1 || EffectiveDuration(t) == SegmentCount(t) * SegmentNs(t)
  {
    if t.cue.None? {
      CountMeaning(t);
      PlainStart(t, i);
      if i < SegmentCount(t) - 1 { PlainStart(t, i + 1); }
      hide CountDefined, SegmentCount, SegmentNs, SignedNs, SegmentStart;
      OneMore(i, SegmentNs(t));
    }
  }

  /** Seven-second segments of an unknown duration: the last item ends at two hundred minutes, its subtitles later. */
  lemma LastItemEndsBeforeItsSubtitles()
    ensures var t := Task(7, 0, None);
            && TaskOk(t) && CountDefined(t) && SegmentCount(t) == 1715
            && SegmentStart(t, 1714) + ItemNs(t, 1714) == 12_000 * SECOND
            && SubtitleRange(t, 1714) == (11_998 * SECOND, 12_005 * SECOND)
  {
    var t := Task(7, 0, None);
    PlainNs(t);
    assert (12_000 * SECOND - 1) / (7 * SECOND) == 1714;
  }

  /** How far start positions lead to listed segments: the timeline, two hundred minutes when the duration is unknown. */
  lemma StartIndexHoldsTarget(t: Task, seconds: int)
    requires TaskOk(t) && Moderate(t) && CountDefined(t) && seconds > 0 && seconds * SECOND < TimelineEnd(t)
    requires t.cue.Some? ==> t.cue.value.segments[0].start <= seconds * SECOND
    ensures var i := StartIndex(t, seconds);
            && 0 <= i < SegmentCount(t)
            && SegmentStart(t, i) <= seconds * SECOND < SegmentStart(t, i) + ItemNs(t, i)
  {
    if t.cue.Some? {
      var s := t.cue.value.segments;
      var i := FirstEndingAfter(s, seconds * SECOND);
      assert s[|s| - 1].end > seconds * SECOND;
      if i > 0 { assert s[i - 1].end <= seconds * SECOND; }
    } else {
      PlainIndex(t, seconds);
      StartInSeconds(t, seconds);
    }
  }

  /** Inside the timeline the index is the quotient alone. */
  lemma PlainIndex(t: Task, seconds: int)
    requires TaskOk(t) && t.cue.None? && seconds > 0 && seconds * SECOND < EffectiveDuration(t)
    ensures StartIndex(t, seconds) == seconds / t.segmentSeconds
  {
    if t.durationNs > 0 {
      WholeSeconds(t.durationNs, seconds);
      QuotientInside(seconds, t.durationNs / SECOND, t.segmentSeconds);
    }
  }

  lemma WholeSeconds(ns: int, seconds: int)
    requires seconds > 0 && seconds * SECOND < ns
    ensures seconds <= ns / SECOND
  {
    DivBounds(ns, SECOND);
  }

  lemma QuotientInside(x: int, duration: int, s: int)
    requires 0 < x <= duration && s > 0
    ensures x / s <= 1 + (duration - 1) / s
  {
    DivMonotone(x - 1, duration - 1, s);
    OneStepBack(x, s);
  }

  lemma StartInSeconds(t: Task, seconds: int)
    requires TaskOk(t) && Moderate(t) && CountDefined(t) && t.cue.None? && seconds > 0
    requires seconds * SECOND < EffectiveDuration(t)
    ensures var i := seconds / t.segmentSeconds;
            && 0 <= i < SegmentCount(t)
            && SegmentStart(t, i) <= seconds * SECOND < SegmentStart(t, i) + ItemNs(t, i)
  {
    var s, m, n := t.segmentSeconds, SegmentNs(t), SegmentCount(t);
    var i := seconds / s;
    DivBounds(seconds, s);
    PlainNs(t);
    CountMeaning(t);
    hide CountDefined, SegmentCount, SegmentNs, SignedNs;
    Scale(i, s);
    assert i * m <= seconds * SECOND < i * m + m;
    if i >= n { TimesUp(n, i, m); }
    ItemsAdjacent(t, i);
    PlainStart(t, i);
    OneMore(i, m);
    if i < n - 1 { PlainStart(t, i + 1); }
  }

  lemma OneStepBack(x: int, s: int)
    requires x > 0 && s > 0
    ensures x / s <= 1 + (x - 1) / s
  {
    DivBounds(x, s);
    DivBounds(x - 1, s);
    if x / s > 1 + (x - 1) / s {
      TimesUp((x - 1) / s + 2, x / s, s);
      OneMore((x - 1) / s, s);
      OneMore((x - 1) / s + 1, s);
    }
  }
}
