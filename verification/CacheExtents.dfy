/** The set of byte ranges a store has received: disjoint, non-adjacent spans that stand for a plain set of bytes. */
module CacheExtents {
  import opened Bytes

  /** A half-open range of byte offsets. */
  datatype Span = Span(start: u64, end: u64)

  predicate Inside(x: nat, s: Span) { s.start <= x < s.end }

  // ----- plain sets of bytes -----

  function Below(start: nat, end: nat): (r: set<nat>)
    ensures forall x :: x in r <==> start <= x < end
    decreases end
  {
    if start >= end then {} else Below(start, end - 1) + {end - 1}
  }

  lemma {:induction false} BelowSize(start: nat, end: nat)
    requires start <= end
    ensures |Below(start, end)| == end - start
    decreases end
  {
    if start < end {
      BelowSize(start, end - 1);
    }
  }

  /** The bytes of one span. */
  function Range(s: Span): (r: set<nat>)
    ensures forall x :: x in r <==> Inside(x, s)
  {
    Below(s.start, s.end)
  }

  lemma RangeSize(s: Span)
    requires s.start <= s.end
    ensures |Range(s)| == s.end - s.start
  {
    BelowSize(s.start, s.end);
  }

  ghost predicate In(x: nat, spans: seq<Span>) { exists i :: 0 <= i < |spans| && Inside(x, spans[i]) }

  /** The bytes of all spans. */
  ghost function Covered(spans: seq<Span>): (r: set<nat>)
    ensures forall x :: x in r <==> In(x, spans)
  {
    if spans == [] then {} else
    assert forall x :: In(x, spans) <==> Inside(x, spans[0]) || In(x, spans[1..]) by {
      forall x: nat ensures In(x, spans) <==> Inside(x, spans[0]) || In(x, spans[1..]) { InFirst(x, spans); }
    }
    Range(spans[0]) + Covered(spans[1..])
  }

  lemma InFirst(x: nat, spans: seq<Span>)
    requires spans != []
    ensures In(x, spans) <==> Inside(x, spans[0]) || In(x, spans[1..])
  {
    if In(x, spans[1..]) {
      var i :| 0 <= i < |spans[1..]| && Inside(x, spans[1..][i]);
      assert Inside(x, spans[i + 1]);
    }
    if i :| 0 <= i < |spans| && Inside(x, spans[i]) {
      if i > 0 { assert Inside(x, spans[1..][i - 1]); }
    }
  }

  lemma InLast(x: nat, spans: seq<Span>)
    requires spans != []
    ensures var n := |spans| - 1; In(x, spans) <==> In(x, spans[..n]) || Inside(x, spans[n])
  {
    var n := |spans| - 1;
    if In(x, spans[..n]) {
      var i :| 0 <= i < n && Inside(x, spans[..n][i]);
      assert Inside(x, spans[i]);
    }
    if i :| 0 <= i < |spans| && Inside(x, spans[i]) {
      if i < n { assert Inside(x, spans[..n][i]); }
    }
  }

  function Total(spans: seq<Span>): int {
    if spans == [] then 0 else spans[0].end as int - spans[0].start as int + Total(spans[1..])
  }

  lemma {:induction false} TotalConcat(a: seq<Span>, b: seq<Span>)
    ensures Total(a + b) == Total(a) + Total(b)
  {
    if a == [] {
      assert a + b == b;
    } else {
      assert (a + b)[1..] == a[1..] + b;
      TotalConcat(a[1..], b);
    }
  }

  /** Sorted, nonempty and never touching: what `Extents` keeps between calls. */
  predicate Canonical(spans: seq<Span>) {
    && (forall i | 0 <= i < |spans| :: spans[i].start < spans[i].end)
    && (forall i, j | 0 <= i < j < |spans| :: spans[i].end < spans[j].start)
  }

  lemma CanonicalRest(spans: seq<Span>)
    requires Canonical(spans) && spans != []
    ensures Canonical(spans[1..])
    ensures forall x | In(x, spans[1..]) :: spans[0].end < x
  {
    forall x | In(x, spans[1..]) ensures spans[0].end < x {
      var i :| 0 <= i < |spans[1..]| && Inside(x, spans[1..][i]);
      assert spans[1..][i] == spans[i + 1];
    }
  }

  lemma {:induction false} CanonicalSize(spans: seq<Span>)
    requires Canonical(spans)
    ensures |Covered(spans)| == Total(spans)
  {
    hide Canonical, Range, Inside, In;
    if spans != [] {
      CanonicalRest(spans);
      CanonicalSize(spans[1..]);
      FirstSpan(spans);
      RangeSize(spans[0]);
      assert Range(spans[0]) !! Covered(spans[1..]);
    }
  }

  /** The kept total never leaves 64 bits. */
  lemma {:induction false} TotalFits(spans: seq<Span>)
    requires Canonical(spans)
    ensures 0 <= Total(spans) <= if spans == [] then 0 else U64_MAX - spans[0].start
  {
    if spans != [] {
      TotalFits(spans[1..]);
      assert |spans| > 1 ==> spans[0].end < spans[1..][0].start;
    }
  }

  lemma FirstSpan(spans: seq<Span>)
    requires Canonical(spans) && spans != []
    ensures spans[0].start < spans[0].end
    ensures In(spans[0].start, spans) && !In(spans[0].end, spans)
    ensures forall x | In(x, spans) :: spans[0].start <= x
    ensures forall x | Inside(x, spans[0]) :: In(x, spans)
    ensures Range(spans[0]) !! Covered(spans[1..])
  {
    CanonicalRest(spans);
    forall x: nat ensures In(x, spans) <==> Inside(x, spans[0]) || In(x, spans[1..]) { InFirst(x, spans); }
  }

  /** Canonical spans are determined by the bytes they cover. */
  lemma {:induction false} CanonicalIsUnique(a: seq<Span>, b: seq<Span>)
    requires Canonical(a) && Canonical(b) && Covered(a) == Covered(b)
    ensures a == b
    decreases |a|
  {
    hide In, Covered;
    NonEmpty(a);
    NonEmpty(b);
    if a != [] && b != [] {
      SameFirst(a, b);
      CanonicalRest(a);
      CanonicalRest(b);
      Without(a);
      Without(b);
      CanonicalIsUnique(a[1..], b[1..]);
      assert a == [a[0]] + a[1..] && b == [b[0]] + b[1..];
    }
  }

  lemma NonEmpty(spans: seq<Span>)
    requires Canonical(spans)
    ensures Covered(spans) == {} <==> spans == []
  {
    if spans != [] {
      FirstSpan(spans);
      assert spans[0].start in Covered(spans);
    }
  }

  lemma AtStart(spans: seq<Span>, x: nat)
    requires Canonical(spans) && spans != []
    ensures spans[0].start in Covered(spans) && spans[0].end !in Covered(spans)
    ensures Inside(x, spans[0]) ==> x in Covered(spans)
    ensures x in Covered(spans) ==> spans[0].start <= x
  {
    FirstSpan(spans);
  }

  lemma SameFirst(a: seq<Span>, b: seq<Span>)
    requires Canonical(a) && Canonical(b) && Covered(a) == Covered(b) && a != [] && b != []
    ensures a[0] == b[0]
  {
    hide Canonical, Covered, In;
    AtStart(a, b[0].start);
    AtStart(b, a[0].start);
    AtStart(a, b[0].end);
    AtStart(b, a[0].end);
    FirstSpan(a);
    FirstSpan(b);
  }

  lemma Without(spans: seq<Span>)
    requires Canonical(spans) && spans != []
    ensures Covered(spans[1..]) == Covered(spans) - Range(spans[0])
  {
    hide Canonical, In, Inside;
    FirstSpan(spans);
    assert Covered(spans) == Range(spans[0]) + Covered(spans[1..]);
  }

  // ----- union, as a function -----

  /** The canonical spans that cover `spans` and one more. */
  function Joined(spans: seq<Span>, s: Span): seq<Span> {
    if s.start >= s.end then spans
    else if spans == [] then [s]
    else if spans[0].end < s.start then [spans[0]] + Joined(spans[1..], s)
    else if s.end < spans[0].start then [s] + spans
    else Joined(spans[1..], Merged(spans[0], s))
  }

  function Merged(a: Span, b: Span): Span { Span(Min(a.start, b.start), Max(a.end, b.end)) }

  function FirstStart(spans: seq<Span>, s: Span): u64 {
    if spans != [] && spans[0].start < s.start then spans[0].start else s.start
  }

  lemma PutFirst(first: Span, rest: seq<Span>)
    requires Canonical(rest) && first.start < first.end && (rest != [] ==> first.end < rest[0].start)
    ensures Canonical([first] + rest) && Covered([first] + rest) == Range(first) + Covered(rest)
  {
    assert ([first] + rest)[1..] == rest;
  }

  lemma {:induction false} JoinedIsUnion(spans: seq<Span>, s: Span)
    requires Canonical(spans)
    ensures Canonical(Joined(spans, s))
    ensures Covered(Joined(spans, s)) == Covered(spans) + Range(s)
    ensures s.start < s.end ==> Joined(spans, s) != []
    ensures s.start < s.end ==> Joined(spans, s)[0].start == FirstStart(spans, s)
    decreases |spans|
  {
    hide Canonical, In, Inside, Range;
    if s.start >= s.end {
      NoBytes(s);
    } else if spans == [] {
      OneSpan(s);
    } else {
      CanonicalRest(spans);
      FirstSpan(spans);
      if spans[0].end < s.start {
        JoinedIsUnion(spans[1..], s);
        SecondStarts(spans);
        PutFirst(spans[0], Joined(spans[1..], s));
      } else if s.end < spans[0].start {
        PutFirst(s, spans);
      } else {
        JoinedIsUnion(spans[1..], Merged(spans[0], s));
        MergedBytes(spans[0], s);
        SecondStarts(spans);
      }
    }
  }

  lemma NoBytes(s: Span)
    requires s.start >= s.end
    ensures Range(s) == {}
  {}

  lemma OneSpan(s: Span)
    requires s.start < s.end
    ensures Canonical([s]) && Covered([s]) == Range(s)
  {
    assert [s][1..] == [];
    assert Covered([s]) == Range(s) + Covered([]);
  }

  lemma SecondStarts(spans: seq<Span>)
    requires Canonical(spans) && spans != []
    ensures |spans| > 1 ==> spans[0].end < spans[1..][0].start
  {}

  lemma MergedBytes(a: Span, b: Span)
    requires a.start < a.end && b.start < b.end && a.start <= b.end && b.start <= a.end
    ensures Range(Merged(a, b)) == Range(a) + Range(b)
  {}

  // ----- accepting a recorded list -----

  predicate Overlap(a: Span, b: Span) {
    a.start < a.end && b.start < b.end && a.start < b.end && b.start < a.end
  }

  /** Every span runs forwards and no two share a byte. Spans that touch, and empty ones, are allowed. */
  predicate WellFormed(spans: seq<Span>) {
    && (forall i | 0 <= i < |spans| :: spans[i].start <= spans[i].end)
    && (forall i, j | 0 <= i < j < |spans| :: !Overlap(spans[i], spans[j]))
  }

  /** Spans joined one after the other, as `from_spans` does. */
  function JoinAll(spans: seq<Span>): seq<Span> {
    if spans == [] then [] else
    Joined(JoinAll(spans[..|spans| - 1]), spans[|spans| - 1])
  }

  lemma {:induction false} JoinAllCovers(spans: seq<Span>)
    ensures Canonical(JoinAll(spans)) && Covered(JoinAll(spans)) == Covered(spans)
  {
    if spans != [] {
      var n := |spans| - 1;
      JoinAllCovers(spans[..n]);
      JoinedIsUnion(JoinAll(spans[..n]), spans[n]);
      CoveredSnoc(spans);
    }
  }

  lemma CoveredSnoc(spans: seq<Span>)
    requires spans != []
    ensures var n := |spans| - 1; Covered(spans) == Covered(spans[..n]) + Range(spans[n])
  {
    var n := |spans| - 1;
    forall x: nat ensures In(x, spans) <==> In(x, spans[..n]) || Inside(x, spans[n]) { InLast(x, spans); }
  }

  /** Canonical spans come back unchanged. */
  lemma CanonicalComesBack(spans: seq<Span>)
    requires Canonical(spans)
    ensures WellFormed(spans) && JoinAll(spans) == spans
  {
    JoinAllCovers(spans);
    CanonicalIsUnique(JoinAll(spans), spans);
  }

  /** The code accepts touching spans, which its comment calls refused: they come back merged. */
  lemma TouchingSpansAreAccepted()
    ensures var spans := [Span(0, 5), Span(5, 9), Span(7, 7)];
            WellFormed(spans) && JoinAll(spans) == [Span(0, 9)] && !Canonical(spans)
  {
    var spans := [Span(0, 5), Span(5, 9), Span(7, 7)];
    var first := spans[..1];
    assert spans[..2][..1] == first && first[..0] == [];
    assert Joined([], Span(0, 5)) == [Span(0, 5)];
    assert JoinAll(first) == Joined([], Span(0, 5));
    assert [Span(0, 5)][1..] == [];
    assert Joined([Span(0, 5)], Span(5, 9)) == Joined([], Span(0, 9)) == [Span(0, 9)];
    assert JoinAll(spans[..2]) == [Span(0, 9)];
  }

  // ----- the object -----

  class Extents {
    var spans: seq<Span>
    var total: nat

    ghost predicate Valid()
      reads this
    {
      Canonical(spans) && total == Total(spans)
    }

    /** The bytes these spans stand for. */
    ghost function Bytes(): set<nat>
      reads this
    {
      Covered(spans)
    }

    constructor ()
      ensures Valid() && spans == [] && Bytes() == {} && total == 0
    {
      spans, total := [], 0;
    }

    /** How many spans start at `key` or before. */
    method StartedBy(key: u64) returns (n: nat)
      requires Valid()
      ensures n <= |spans|
      ensures forall i | 0 <= i < n :: spans[i].start <= key
      ensures forall i | n <= i < |spans| :: key < spans[i].start
    {
      n := 0;
      while n < |spans| && spans[n].start <= key
        invariant n <= |spans|
        invariant forall i | 0 <= i < n :: spans[i].start <= key
      {
        n := n + 1;
      }
    }

    /** Adds a range and returns how many of its bytes are new. */
    method Insert(range: Span) returns (added: nat)
      requires Valid() && range.start <= range.end
      modifies this
      ensures Valid()
      ensures Bytes() == old(Bytes()) + Range(range)
      ensures added == |Range(range) - old(Bytes())|
      ensures total == |Bytes()| == old(total) + added
      ensures spans == Joined(old(spans), range)
    {
      hide Canonical, Range, Covered, In, Inside, Joined, Splice, Total, Reach;
      ghost var was := spans;
      JoinedIsUnion(was, range);
      CanonicalSize(was);
      if range.start == range.end {
        NothingNew(was, range);
        return 0;
      }
      var n := StartedBy(range.start);
      var start, end, absorbed := range.start, range.end, 0;
      var first := n;
      if n > 0 && spans[n - 1].end >= range.start {
        first := n - 1;
        start, end, absorbed := spans[first].start, Max(range.end, spans[first].end), spans[first].end - spans[first].start;
      }
      var last := n;
      FirstAbsorbed(was, first, n);
      while last < |spans| && spans[last].start <= range.end
        invariant first <= n <= last <= |spans| && spans == was && total == old(total)
        invariant last > n ==> spans[last - 1].start <= range.end
        invariant absorbed == Total(spans[first..last])
        invariant end == if last > first then Max(range.end, spans[last - 1].end) else range.end
        decreases |spans| - last
      {
        OneMoreAbsorbed(was, first, last);
        absorbed := absorbed + (spans[last].end - spans[last].start);
        end := Max(end, spans[last].end);
        last := last + 1;
      }
      MakeReach(was, first, n, last, range, Span(start, end));
      Inserted(was, first, n, last, range, Span(start, end));
      spans := Splice(spans, first, last, Span(start, end));
      added := end - start - absorbed;
      total := total + added;
    }

    /** Whether every byte of the range is covered; an empty range always is. */
    method Covers(range: Span) returns (all: bool)
      requires Valid() && range.start <= range.end
      ensures all <==> Range(range) <= Bytes()
    {
      if range.start == range.end { return true; }
      var n := StartedBy(range.start);
      all := n > 0 && spans[n - 1].end >= range.end;
      if all {
        assert forall x | Inside(x, range) :: Inside(x, spans[n - 1]);
      } else {
        var hole := if n > 0 && spans[n - 1].end > range.start then spans[n - 1].end else range.start;
        assert Inside(hole, range) && hole in Range(range);
        forall i | 0 <= i < |spans| ensures !Inside(hole, spans[i]) {}
      }
    }
  }

  // ----- what `Insert` absorbs -----

  lemma NothingNew(was: seq<Span>, range: Span)
    requires range.start == range.end
    ensures Range(range) == {} && Covered(was) + Range(range) == Covered(was) && Range(range) - Covered(was) == {}
    ensures Joined(was, range) == was
  {}

  lemma FirstAbsorbed(was: seq<Span>, first: nat, n: nat)
    requires first <= n <= |was| && n <= first + 1
    ensures Total(was[first..n]) == if first < n then was[first].end - was[first].start else 0
  {
    if first < n {
      assert was[first..n] == [was[first]] && [was[first]][1..] == [];
    } else {
      assert was[first..n] == [];
    }
  }

  lemma OneMoreAbsorbed(was: seq<Span>, first: nat, last: nat)
    requires Canonical(was) && first <= last < |was|
    ensures Total(was[first..last + 1]) == Total(was[first..last]) + (was[last].end - was[last].start)
    ensures was[last].start < was[last].end && (last > 0 ==> was[last - 1].end < was[last].start)
  {
    assert was[first..last + 1] == was[first..last] + [was[last]] && [was[last]][1..] == [];
    TotalConcat(was[first..last], [was[last]]);
  }

  /** The spans from `first` to `last` are exactly those that reach into, or touch, the range. */
  ghost predicate Reach(was: seq<Span>, first: nat, n: nat, last: nat, range: Span, merged: Span) {
    && Canonical(was) && first <= n <= last <= |was| && n <= first + 1 && range.start < range.end
    && (forall i | 0 <= i < n :: was[i].start <= range.start)
    && (forall i | n <= i < |was| :: range.start < was[i].start)
    && (first < n ==> was[first].end >= range.start)
    && (first == n && n > 0 ==> was[n - 1].end < range.start)
    && (last < |was| ==> range.end < was[last].start)
    && (last > n ==> was[last - 1].start <= range.end)
    && merged.start == (if first < n then was[first].start else range.start)
    && merged.end == (if last > first then Max(range.end, was[last - 1].end) else range.end)
  }

  lemma MakeReach(was: seq<Span>, first: nat, n: nat, last: nat, range: Span, merged: Span)
    requires Canonical(was) && first <= n <= last <= |was| && n <= first + 1 && range.start < range.end
    requires forall i | 0 <= i < n :: was[i].start <= range.start
    requires forall i | n <= i < |was| :: range.start < was[i].start
    requires first < n ==> was[first].end >= range.start
    requires first == n && n > 0 ==> was[n - 1].end < range.start
    requires last < |was| ==> range.end < was[last].start
    requires last > n ==> was[last - 1].start <= range.end
    requires merged.start == (if first < n then was[first].start else range.start)
    requires merged.end == (if last > first then Max(range.end, was[last - 1].end) else range.end)
    ensures Reach(was, first, n, last, range, merged)
  {
    hide Canonical;
  }

  /** What `Insert` leaves behind and returns. */
  lemma Inserted(was: seq<Span>, first: nat, n: nat, last: nat, range: Span, merged: Span)
    requires Reach(was, first, n, last, range, merged)
    ensures var now, added := Splice(was, first, last, merged), merged.end - merged.start - Total(was[first..last]);
            && now == Joined(was, range) && Canonical(now) && Covered(now) == Covered(was) + Range(range)
            && |Covered(now)| == Total(now) == Total(was) + added && added == |Range(range) - Covered(was)|
  {
    hide Splice, Covered, Range, Total, Joined, Canonical;
    assert Canonical(was);
    var now := Splice(was, first, last, merged);
    JoinedIsUnion(was, range);
    Absorbed(was, first, n, last, range, merged);
    Spliced(was, first, last, merged);
    CanonicalSize(was);
    CanonicalSize(now);
    CanonicalIsUnique(now, Joined(was, range));
    NewBytes(Covered(was), Range(range));
  }

  lemma MergedMember(was: seq<Span>, first: nat, n: nat, last: nat, range: Span, merged: Span, x: nat)
    requires Reach(was, first, n, last, range, merged)
    ensures Inside(x, merged) ==> Inside(x, range) || (first < last && (Inside(x, was[first]) || Inside(x, was[last - 1])))
    ensures Inside(x, range) ==> Inside(x, merged)
    ensures forall i | first <= i < last :: Inside(x, was[i]) ==> Inside(x, merged)
  {}

  lemma MergedBounds(was: seq<Span>, first: nat, n: nat, last: nat, range: Span, merged: Span)
    requires Reach(was, first, n, last, range, merged)
    ensures merged.start <= range.start && range.end <= merged.end
    ensures first > 0 ==> was[first - 1].end < merged.start
    ensures last < |was| ==> merged.end < was[last].start
  {
    if first < n { assert was[first].start <= range.start; }
    if 0 < first < n { assert was[first - 1].end < was[first].start; }
    if first < last < |was| { assert was[last - 1].end < was[last].start; }
  }

  /** `was` with the spans from `first` to `last` replaced by one. */
  function Splice(was: seq<Span>, first: nat, last: nat, merged: Span): (now: seq<Span>)
    requires first <= last <= |was|
    ensures |now| == first + 1 + (|was| - last)
    ensures forall i | 0 <= i < |now| ::
              now[i] == if i < first then was[i] else if i == first then merged else was[i - first - 1 + last]
  {
    was[..first] + [merged] + was[last..]
  }

  lemma CanonicalJoin(a: seq<Span>, b: seq<Span>)
    requires Canonical(a) && Canonical(b) && (a != [] && b != [] ==> a[|a| - 1].end < b[0].start)
    ensures Canonical(a + b)
  {
    var c := a + b;
    forall i, j | 0 <= i < j < |c| ensures c[i].end < c[j].start {
      if i < |a| <= j {
        assert a[i].end <= a[|a| - 1].end && b[0].start <= b[j - |a|].start;
      }
    }
  }

  lemma SpliceShape(was: seq<Span>, first: nat, last: nat, merged: Span)
    requires Canonical(was) && first <= last <= |was| && merged.start < merged.end
    requires first > 0 ==> was[first - 1].end < merged.start
    requires last < |was| ==> merged.end < was[last].start
    ensures Canonical(Splice(was, first, last, merged))
  {
    var front, back := was[..first], was[last..];
    assert Canonical(front) && Canonical([merged]) && Canonical(back);
    assert front != [] ==> front[|front| - 1] == was[first - 1];
    assert back != [] ==> back[0] == was[last];
    CanonicalJoin(front, [merged]);
    CanonicalJoin(front + [merged], back);
  }

  lemma SpliceMember(was: seq<Span>, first: nat, last: nat, merged: Span, range: Span, x: nat)
    requires first <= last <= |was|
    requires Inside(x, merged) ==> Inside(x, range) || (first < last && (Inside(x, was[first]) || Inside(x, was[last - 1])))
    requires Inside(x, range) ==> Inside(x, merged)
    requires forall i | first <= i < last :: Inside(x, was[i]) ==> Inside(x, merged)
    ensures In(x, Splice(was, first, last, merged)) <==> In(x, was) || Inside(x, range)
  {
    hide Inside;
    var now := Splice(was, first, last, merged);
    if i :| 0 <= i < |now| && Inside(x, now[i]) {
      if i > first {
        assert Inside(x, was[i - first - 1 + last]);
      } else if i < first {
        assert Inside(x, was[i]);
      }
    }
    if i :| 0 <= i < |was| && Inside(x, was[i]) {
      assert Inside(x, now[if i < first then i else if i < last then first else i - last + first + 1]);
    }
    if Inside(x, range) { assert Inside(x, now[first]); }
  }

  /** Replacing the absorbed spans by one that covers them and the range is union. */
  lemma Absorbed(was: seq<Span>, first: nat, n: nat, last: nat, range: Span, merged: Span)
    requires Reach(was, first, n, last, range, merged)
    ensures Canonical(Splice(was, first, last, merged))
    ensures Covered(Splice(was, first, last, merged)) == Covered(was) + Range(range)
  {
    MergedBounds(was, first, n, last, range, merged);
    SpliceShape(was, first, last, merged);
    forall x: nat ensures In(x, Splice(was, first, last, merged)) <==> In(x, was) || Inside(x, range) {
      MergedMember(was, first, n, last, range, merged, x);
      SpliceMember(was, first, last, merged, range, x);
    }
    hide Splice, Canonical, In;
  }

  lemma Spliced(was: seq<Span>, first: nat, last: nat, middle: Span)
    requires first <= last <= |was|
    ensures Total(Splice(was, first, last, middle))
         == Total(was) - Total(was[first..last]) + (middle.end as int - middle.start as int)
  {
    hide Total;
    TotalConcat(was[..first] + [middle], was[last..]);
    TotalConcat(was[..first], [middle]);
    OneTotal(middle);
    assert was == was[..first] + was[first..last] + was[last..];
    TotalConcat(was[..first] + was[first..last], was[last..]);
    TotalConcat(was[..first], was[first..last]);
  }

  lemma OneTotal(s: Span)
    ensures Total([s]) == s.end as int - s.start as int
  {
    assert [s][1..] == [];
  }

  /** `from_spans`: accepted exactly when the recorded list is well formed, and then it covers exactly those bytes. */
  method FromSpans(recorded: seq<Span>) returns (ok: bool, extents: Extents)
    ensures fresh(extents) && extents.Valid()
    ensures ok <==> WellFormed(recorded)
    ensures ok ==> extents.Bytes() == Covered(recorded) && extents.spans == JoinAll(recorded)
  {
    hide Canonical, Range, Covered, In, Inside, Joined, Total, WellFormed, JoinAll, Overlap;
    extents := new Extents();
    NothingRecorded();
    for i := 0 to |recorded|
      invariant fresh(extents) && extents.Valid() && WellFormed(recorded[..i])
      invariant extents.Bytes() == Covered(recorded[..i]) && extents.spans == JoinAll(recorded[..i])
    {
      var s := recorded[i];
      assert recorded[..i + 1] == recorded[..i] + [s];
      OneMoreRecorded(recorded[..i], s);
      if s.start > s.end {
        StaysRefused(recorded, i + 1);
        return false, extents;
      }
      RangeSize(s);
      AllNew(extents.Bytes(), Range(s));
      var added := extents.Insert(s);
      if added != s.end - s.start {
        StaysRefused(recorded, i + 1);
        return false, extents;
      }
    }
    assert recorded[..|recorded|] == recorded;
    return true, extents;
  }

  lemma NothingRecorded()
    ensures WellFormed([]) && Covered([]) == {} && JoinAll([]) == []
  {}

  lemma StaysRefused(spans: seq<Span>, n: nat)
    requires n <= |spans| && !WellFormed(spans[..n])
    ensures !WellFormed(spans)
  {}

  lemma AllNew(a: set<nat>, b: set<nat>)
    ensures |b - a| == |b| <==> a !! b
  {
    assert b == (b - a) + (b * a);
  }

  lemma OneMoreRecorded(spans: seq<Span>, s: Span)
    requires WellFormed(spans)
    ensures WellFormed(spans + [s]) <==> s.start <= s.end && Covered(spans) !! Range(s)
    ensures Covered(spans + [s]) == Covered(spans) + Range(s)
    ensures JoinAll(spans + [s]) == Joined(JoinAll(spans), s)
  {
    hide Covered, Range, Joined;
    var more := spans + [s];
    assert more[..|spans|] == spans;
    CoveredSnoc(more);
    if s.start <= s.end { DisjointFromAll(spans, s); }
    if WellFormed(more) {
      forall i | 0 <= i < |spans| ensures !Overlap(spans[i], s) { assert !Overlap(more[i], more[|spans|]); }
    }
  }

  lemma NewBytes(a: set<nat>, b: set<nat>)
    ensures |a + b| == |a| + |b - a|
  {
    assert a + b == a + (b - a);
  }

  lemma DisjointFromAll(spans: seq<Span>, s: Span)
    requires WellFormed(spans) && s.start <= s.end
    ensures Covered(spans) !! Range(s) <==> forall i | 0 <= i < |spans| :: !Overlap(spans[i], s)
  {
    if i :| 0 <= i < |spans| && Overlap(spans[i], s) {
      var x: nat := Max(spans[i].start, s.start);
      assert Inside(x, spans[i]) && Inside(x, s) && In(x, spans);
      assert x in Covered(spans) && x in Range(s);
    }
    if x :| x in Covered(spans) && x in Range(s) {
      var i :| 0 <= i < |spans| && Inside(x, spans[i]);
      assert Overlap(spans[i], s);
    }
  }

}
