/** The shape of a torrent: its files, its pieces, and the bytes clients asked for in each piece. */
module CacheLayout {
  import opened Bytes
  import opened CacheExtents

  datatype Error =
    | ZeroPieceLength | TotalOverflow | TooManyPieces
    | UnknownTorrent | UnknownFile | RangeOverflow | OutOfBounds | Missing | PieceOutOfRange
    | LayoutMismatch | Pinned | DemandOverflow | StoreFailed

  datatype Result<+T> = Ok(value: T) | Err(error: Error)

  datatype Layout = Layout(pieceLength: u64, fileLengths: seq<u64>, totalLength: u64, pieceCount: u32)

  function Sum(lengths: seq<u64>): nat {
    if lengths == [] then 0 else Sum(lengths[..|lengths| - 1]) + lengths[|lengths| - 1] as int
  }

  lemma {:induction false} SumPrefix(lengths: seq<u64>, i: nat)
    requires i < |lengths|
    ensures Sum(lengths[..i]) + lengths[i] as int <= Sum(lengths)
  {
    if i < |lengths| - 1 {
      var front := lengths[..|lengths| - 1];
      SumPrefix(front, i);
      assert front[..i] == lengths[..i];
    }
  }

  /** The constructor: pieces are counted with a short last one, and nothing may overflow. */
  method NewLayout(pieceLength: u64, fileLengths: seq<u64>) returns (r: Result<Layout>)
    ensures r.Ok? <==> pieceLength > 0 && Sum(fileLengths) <= U64_MAX
                       && Sum(fileLengths) <= pieceLength as int * U32_MAX
    ensures r.Ok? ==> Shaped(r.value) && r.value.pieceLength == pieceLength && r.value.fileLengths == fileLengths
  {
    if pieceLength == 0 { return Err(ZeroPieceLength); }
    var total: nat := 0;
    for i := 0 to |fileLengths|
      invariant total == Sum(fileLengths[..i]) <= U64_MAX
    {
      assert fileLengths[..i + 1][..i] == fileLengths[..i];
      SumPrefix(fileLengths, i);
      if total + fileLengths[i] as int > U64_MAX { return Err(TotalOverflow); }
      total := total + fileLengths[i] as int;
    }
    assert fileLengths[..|fileLengths|] == fileLengths;
    var count := CeilDiv(total, pieceLength);
    CeilDivMeaning(total, pieceLength);
    CountBound(total, pieceLength, count, U32_MAX);
    if count > U32_MAX { return Err(TooManyPieces); }
    return Ok(Layout(pieceLength, fileLengths, total, count));
  }

  function CeilDiv(a: nat, b: nat): nat
    requires b > 0
  {
    if a % b == 0 then a / b else a / b + 1
  }

  lemma CeilDivMeaning(a: nat, b: nat)
    requires b > 0
    ensures a <= CeilDiv(a, b) * b < a + b
  {
    assert a == a / b * b + a % b;
    assert (a / b + 1) * b == a / b * b + b;
  }

  lemma CountBound(total: nat, length: nat, count: nat, limit: nat)
    requires total <= count * length < total + length
    ensures count <= limit <==> total <= length * limit
  {
    if count <= limit {
      assert count * length <= limit * length;
    } else {
      assert (limit + 1) * length <= count * length;
      assert limit * length + length == (limit + 1) * length;
    }
  }

  /** What the constructor promises: every byte lies in one of `pieceCount` pieces, none of them empty. */
  predicate Shaped(l: Layout) {
    && l.pieceLength > 0 && l.totalLength as int == Sum(l.fileLengths)
    && l.totalLength as int <= l.pieceCount as int * l.pieceLength as int < l.totalLength as int + l.pieceLength as int
  }

  /** Where a file starts in the torrent. */
  function FileOffset(l: Layout, file: u32): Result<u64> {
    if file as int > |l.fileLengths| then Err(UnknownFile) else
    if Sum(l.fileLengths[..file]) > U64_MAX then Err(DemandOverflow) else Ok(Sum(l.fileLengths[..file]))
  }

  /** `check_range`. */
  function CheckRange(l: Layout, file: u32, offset: u64, length: u64): (r: Result<Span>)
    ensures r.Ok? <==> file as int < |l.fileLengths| && offset as int + length as int <= l.fileLengths[file] as int
    ensures r.Ok? ==> r.value == Span(offset, offset as int + length as int)
  {
    if file as int >= |l.fileLengths| then Err(UnknownFile) else
    if offset as int + length as int > U64_MAX then Err(RangeOverflow) else
    if offset as int + length as int > l.fileLengths[file] as int then Err(OutOfBounds) else
    Ok(Span(offset, offset as int + length as int))
  }

  // ----- bytes clients asked for -----

  /** The part of the torrent a demand for part of a file covers; its overflow checks never fail. */
  function DemandSpan(l: Layout, file: u32, offset: u64, length: u64): Result<Span> {
    match CheckRange(l, file, offset, length)
    case Err(e) => Err(e)
    case Ok(_) =>
      match FileOffset(l, file)
      case Err(_) => Err(UnknownFile)
      case Ok(base) =>
        if base as int + offset as int > U64_MAX then Err(DemandOverflow) else
        if base as int + offset as int + length as int > U64_MAX then Err(DemandOverflow) else
        Ok(Span(base as int + offset as int, base as int + offset as int + length as int))
  }

  lemma DemandStaysInside(l: Layout, file: u32, offset: u64, length: u64)
    requires Shaped(l)
    ensures var r := DemandSpan(l, file, offset, length);
            && (r.Ok? <==> CheckRange(l, file, offset, length).Ok?)
            && (r.Ok? ==> var base := Sum(l.fileLengths[..file]);
                          && base + l.fileLengths[file] as int <= l.totalLength as int
                          && r.value == Span(base + offset, base + offset + length))
  {
    if CheckRange(l, file, offset, length).Ok? {
      SumPrefix(l.fileLengths, file);
    }
  }

  /** `record_demand`. */
  method RecordDemand(l: Layout, demanded: Extents, file: u32, offset: u64, length: u64) returns (r: Result<()>)
    requires Shaped(l) && demanded.Valid() && demanded.Bytes() <= Below(0, l.totalLength)
    modifies demanded
    ensures demanded.Valid() && demanded.Bytes() <= Below(0, l.totalLength)
    ensures r.Ok? <==> CheckRange(l, file, offset, length).Ok?
    ensures r.Ok? <==> DemandSpan(l, file, offset, length).Ok?
    ensures r.Ok? ==> demanded.Bytes() == old(demanded.Bytes()) + Range(DemandSpan(l, file, offset, length).value)
    ensures r.Err? ==> demanded.Bytes() == old(demanded.Bytes())
  {
    hide Shaped, Covered, Joined, DemandSpan, Below, Range, Inside;
    DemandInside(l, file, offset, length);
    var checked := CheckRange(l, file, offset, length);
    if checked.Err? { return Err(checked.error); }
    var span := DemandSpan(l, file, offset, length).value;
    var _ := demanded.Insert(span);
    return Ok(());
  }

  lemma DemandInside(l: Layout, file: u32, offset: u64, length: u64)
    requires Shaped(l)
    ensures var r := DemandSpan(l, file, offset, length);
            && (r.Ok? <==> CheckRange(l, file, offset, length).Ok?)
            && (r.Ok? ==> r.value.start <= r.value.end && Range(r.value) <= Below(0, l.totalLength))
  {
    DemandStaysInside(l, file, offset, length);
    var r := DemandSpan(l, file, offset, length);
    if r.Ok? {
      forall x | x in Range(r.value) ensures x in Below(0, l.totalLength) {}
    }
  }

  /** The bytes of one piece; the last may be short. */
  function PieceSpan(l: Layout, piece: nat): Span
    requires Shaped(l) && piece < l.pieceCount
  {
    PieceBounds(l, piece);
    Span(piece * l.pieceLength, Min((piece + 1) * l.pieceLength, l.totalLength))
  }

  lemma PieceBounds(l: Layout, piece: nat)
    requires Shaped(l) && piece < l.pieceCount
    ensures 0 <= piece * l.pieceLength < l.totalLength
    ensures piece * l.pieceLength + l.pieceLength == (piece + 1) * l.pieceLength
    ensures piece + 1 < l.pieceCount ==> (piece + 1) * l.pieceLength < l.totalLength
    ensures piece + 1 == l.pieceCount ==> l.totalLength <= (piece + 1) * l.pieceLength
  {
    var n: int := l.pieceCount;
    var m: int := l.pieceLength;
    assert n * m == (n - 1) * m + m;
    TimesUp(piece, n - 1, m);
    if piece + 1 < n { TimesUp(piece + 1, n - 1, m); }
  }

  lemma TimesUp(a: int, b: int, m: int)
    requires a <= b && m >= 0
    ensures a * m <= b * m
  {}

  function Overlapping(s: Span, t: Span): nat {
    Max(0, Min(s.end, t.end) as int - Max(s.start, t.start) as int)
  }

  /** How many of the spans' bytes lie in `t`. */
  function CountIn(spans: seq<Span>, t: Span): nat {
    if spans == [] then 0 else CountIn(spans[..|spans| - 1], t) + Overlapping(spans[|spans| - 1], t)
  }

  lemma OverlappingSize(s: Span, t: Span)
    ensures |Range(s) * Range(t)| == Overlapping(s, t)
  {
    var a, b := Max(s.start, t.start), Min(s.end, t.end);
    assert Range(s) * Range(t) == Below(a, b);
    if a <= b { BelowSize(a, b); }
  }

  lemma SplitCount(d: set<nat>, a: set<nat>, b: set<nat>)
    requires a !! b
    ensures |d * (a + b)| == |d * a| + |d * b|
  {
    assert d * (a + b) == d * a + d * b;
  }

  /** The sum of overlaps counts each demanded byte of the piece once. */
  lemma {:induction false} CountInSize(spans: seq<Span>, t: Span)
    requires Canonical(spans)
    ensures CountIn(spans, t) == |Covered(spans) * Range(t)|
  {
    if spans == [] {
      assert Covered(spans) * Range(t) == {};
    } else {
      var front, last := spans[..|spans| - 1], spans[|spans| - 1];
      CountInSize(front, t);
      OverlappingSize(last, t);
      CoveredSnoc(spans);
      LastApart(spans);
      hide Covered, Range, Canonical, Overlapping;
      SplitCount(Range(t), Covered(front), Range(last));
      Commute(Range(t), Covered(front));
      Commute(Range(t), Range(last));
      Commute(Range(t), Covered(spans));
    }
  }

  lemma Commute(a: set<nat>, b: set<nat>)
    ensures a * b == b * a
  {}

  lemma LastApart(spans: seq<Span>)
    requires Canonical(spans) && spans != []
    ensures Covered(spans[..|spans| - 1]) !! Range(spans[|spans| - 1])
  {
    var front := spans[..|spans| - 1];
    forall x | In(x, front) ensures !Inside(x, spans[|spans| - 1]) {
      var i :| 0 <= i < |front| && Inside(x, front[i]);
      assert front[i] == spans[i];
    }
  }

  datatype DemandedPiece = DemandedPiece(piece: u32, size: u64, completed: bool)

  /** How many bytes of a piece are among `demanded`. */
  ghost function DemandOf(l: Layout, demanded: set<nat>, piece: nat): nat
    requires Shaped(l) && piece < l.pieceCount
  {
    |demanded * Range(PieceSpan(l, piece))|
  }

  ghost function DemandBefore(l: Layout, demanded: set<nat>, pieces: nat): nat
    requires Shaped(l) && pieces <= l.pieceCount
  {
    if pieces == 0 then 0 else DemandBefore(l, demanded, pieces - 1) + DemandOf(l, demanded, pieces - 1)
  }

  /** Where the first `pieces` pieces end. */
  function End(l: Layout, pieces: nat): nat { Min(pieces * l.pieceLength, l.totalLength) }

  lemma {:induction false} DemandBeforeSize(l: Layout, demanded: set<nat>, pieces: nat)
    requires Shaped(l) && pieces <= l.pieceCount
    ensures DemandBefore(l, demanded, pieces) == |demanded * Below(0, End(l, pieces))|
  {
    hide End, Below, DemandOf, Shaped;
    if pieces == 0 {
      NoDemand(l, demanded);
    } else {
      DemandBeforeSize(l, demanded, pieces - 1);
      DemandStep(l, demanded, pieces - 1);
    }
  }

  lemma NoDemand(l: Layout, demanded: set<nat>)
    ensures |demanded * Below(0, End(l, 0))| == 0
  {
    assert End(l, 0) == 0;
    assert demanded * Below(0, 0) == {};
  }

  lemma DemandStep(l: Layout, demanded: set<nat>, p: nat)
    requires Shaped(l) && p < l.pieceCount
    ensures |demanded * Below(0, End(l, p + 1))| == |demanded * Below(0, End(l, p))| + DemandOf(l, demanded, p)
  {
    PieceEnds(l, p);
    var piece := PieceSpan(l, p);
    UpTo(piece);
    SplitCount(demanded, Below(0, piece.start), Range(piece));
    hide Below, Range, Shaped, PieceSpan;
  }

  lemma PieceEnds(l: Layout, piece: nat)
    requires Shaped(l) && piece < l.pieceCount
    ensures var s := PieceSpan(l, piece);
            s.start <= s.end && s.start as int == End(l, piece) && s.end as int == End(l, piece + 1)
  {
    PieceBounds(l, piece);
  }

  lemma UpTo(s: Span)
    requires s.start <= s.end
    ensures Below(0, s.end) == Below(0, s.start) + Range(s) && Below(0, s.start) !! Range(s)
  {}

  /** The demanded bytes of all pieces are all demanded bytes. */
  lemma DemandAddsUp(l: Layout, demanded: set<nat>)
    requires Shaped(l) && demanded <= Below(0, l.totalLength)
    ensures DemandBefore(l, demanded, l.pieceCount) == |demanded|
  {
    DemandBeforeSize(l, demanded, l.pieceCount);
    assert End(l, l.pieceCount) == l.totalLength as int;
    assert demanded * Below(0, l.totalLength) == demanded;
  }

  /** A piece is complete exactly when as many bytes were demanded as it is long. */
  lemma CompleteMeansAll(l: Layout, demanded: set<nat>, piece: nat)
    requires Shaped(l) && piece < l.pieceCount
    ensures var s := PieceSpan(l, piece);
            DemandOf(l, demanded, piece) == s.end - s.start <==> Range(s) <= demanded
  {
    PieceBounds(l, piece);
    var s := PieceSpan(l, piece);
    RangeSize(s);
    if Range(s) <= demanded {
      assert demanded * Range(s) == Range(s);
    } else {
      var x :| x in Range(s) && x !in demanded;
      assert Range(s) == Range(s) - demanded + demanded * Range(s);
    }
  }

  /** What the list of demanded pieces says. */
  ghost predicate Lists(l: Layout, demanded: set<nat>, pieces: seq<DemandedPiece>, upTo: nat)
    requires Shaped(l) && upTo <= l.pieceCount
  {
    && (forall i, j | 0 <= i < j < |pieces| :: pieces[i].piece < pieces[j].piece)
    && (forall d | d in pieces :: d.piece < upTo && d.size > 0 && d.size as int == DemandOf(l, demanded, d.piece)
                                  && (d.completed <==> Range(PieceSpan(l, d.piece)) <= demanded))
    && (forall p | 0 <= p < upTo && DemandOf(l, demanded, p) > 0 :: exists i :: 0 <= i < |pieces| && pieces[i].piece == p)
  }

  /** Pieces with demanded bytes, in order, each with how many and whether they are all of it. */
  method DemandedPieces(l: Layout, demanded: Extents) returns (pieces: seq<DemandedPiece>)
    requires Shaped(l) && demanded.Valid() && demanded.Bytes() <= Below(0, l.totalLength)
    ensures Lists(l, demanded.Bytes(), pieces, l.pieceCount)
  {
    hide Lists, Range, DemandOf;
    var sizes := PieceSizes(l, demanded);
    pieces := [];
    NothingListed(l, demanded.Bytes());
    for p := 0 to l.pieceCount as int
      invariant Lists(l, demanded.Bytes(), pieces, p)
      invariant forall q: nat | q < l.pieceCount :: sizes[q] as int == DemandOf(l, demanded.Bytes(), q)
    {
      PieceBounds(l, p);
      CompleteMeansAll(l, demanded.Bytes(), p);
      var size := sizes[p];
      var length := if p + 1 == l.pieceCount as int then Max(0, l.totalLength as int - p * l.pieceLength) else l.pieceLength;
      OneMoreListed(l, demanded.Bytes(), pieces, p, size, size as int == length);
      if size != 0 {
        pieces := pieces + [DemandedPiece(p, size, size as int == length)];
      }
    }
  }

  lemma NothingListed(l: Layout, demanded: set<nat>)
    requires Shaped(l)
    ensures Lists(l, demanded, [], 0)
  {}

  lemma OneMoreListed(l: Layout, demanded: set<nat>, pieces: seq<DemandedPiece>, p: nat, size: u64, completed: bool)
    requires Shaped(l) && p < l.pieceCount && Lists(l, demanded, pieces, p) && size as int == DemandOf(l, demanded, p)
    requires completed <==> Range(PieceSpan(l, p)) <= demanded
    ensures Lists(l, demanded, if size != 0 then pieces + [DemandedPiece(p, size, completed)] else pieces, p + 1)
  {
    hide DemandOf, PieceSpan, Range;
    if size != 0 {
      var more := pieces + [DemandedPiece(p, size, completed)];
      assert more[|pieces|].piece as int == p;
      forall q | 0 <= q < p + 1 && DemandOf(l, demanded, q) > 0 ensures exists i :: 0 <= i < |more| && more[i].piece as int == q {
        if q < p {
          var i :| 0 <= i < |pieces| && pieces[i].piece as int == q;
          assert more[i].piece as int == q;
        }
      }
      forall i, j | 0 <= i < j < |more| ensures more[i].piece < more[j].piece {
        assert more[i] in pieces;
      }
    }
  }

  method PieceSizes(l: Layout, demanded: Extents) returns (sizes: array<u64>)
    requires Shaped(l) && demanded.Valid() && demanded.Bytes() <= Below(0, l.totalLength)
    ensures fresh(sizes) && sizes.Length == l.pieceCount as int
    ensures forall p: nat | p < l.pieceCount :: sizes[p] as int == DemandOf(l, demanded.Bytes(), p)
  {
    sizes := new u64[l.pieceCount as int](_ => 0);
    for i := 0 to |demanded.spans|
      invariant demanded.spans == old(demanded.spans)
      invariant forall p: nat | p < l.pieceCount :: sizes[p] as int == CountUpTo(l, demanded.spans, i, p)
    {
      AddSpan(l, demanded.spans, i, sizes);
    }
    assert demanded.spans[..|demanded.spans|] == demanded.spans;
    forall p: nat | p < l.pieceCount ensures sizes[p] as int == DemandOf(l, demanded.Bytes(), p) {
      CountInSize(demanded.spans, PieceSpan(l, p));
    }
  }

  /** How many bytes of a piece the first `n` spans hold. */
  function CountUpTo(l: Layout, spans: seq<Span>, n: nat, p: nat): nat
    requires Shaped(l) && p < l.pieceCount && n <= |spans|
  {
    CountIn(spans[..n], PieceSpan(l, p))
  }

  function FirstPiece(l: Layout, s: Span): nat
    requires l.pieceLength > 0
  {
    s.start / l.pieceLength
  }

  function LastPiece(l: Layout, s: Span): nat
    requires l.pieceLength > 0
  {
    Max(s.end - 1, 0) / l.pieceLength
  }

  /** The bytes of `s` in a piece, computed from the piece length. */
  function PieceOverlap(l: Layout, s: Span, piece: nat): nat {
    var pieceStart := piece * l.pieceLength;
    var pieceEnd := Min(pieceStart + l.pieceLength, l.totalLength);
    Max(0, Min(s.end, pieceEnd) as int - Max(s.start, pieceStart) as int)
  }

  /** One span adds its overlap with every piece it touches. */
  method AddSpan(l: Layout, spans: seq<Span>, i: nat, sizes: array<u64>)
    requires Shaped(l) && Canonical(spans) && i < |spans| && Covered(spans) <= Below(0, l.totalLength)
    requires sizes.Length == l.pieceCount as int
    requires forall p: nat | p < l.pieceCount :: sizes[p] as int == CountUpTo(l, spans, i, p)
    modifies sizes
    ensures forall p: nat | p < l.pieceCount :: sizes[p] as int == CountUpTo(l, spans, i + 1, p)
  {
    LengthBound(l);
    hide PieceSpan, Shaped, CountIn, CountUpTo, Canonical, Covered, Overlapping, FirstPiece, LastPiece, PieceOverlap;
    SpanFits(l, spans, i);
    PiecesTouched(l, spans[i]);
    AllCounts(l, spans, i);
    var first, last := FirstPiece(l, spans[i]), LastPiece(l, spans[i]);
    for piece := first to last + 1
      invariant forall p: nat | p < l.pieceCount ::
          sizes[p] as int == CountUpTo(l, spans, if first <= p < piece then i + 1 else i, p)
    {
      OverlapValue(l, spans, i, piece);
      sizes[piece] := sizes[piece] + PieceOverlap(l, spans[i], piece);
    }
  }

  lemma AllCounts(l: Layout, spans: seq<Span>, i: nat)
    requires Shaped(l) && i < |spans| && spans[i].start < spans[i].end <= l.totalLength
    ensures forall p: nat | p < l.pieceCount && !(FirstPiece(l, spans[i]) <= p <= LastPiece(l, spans[i])) ::
              CountUpTo(l, spans, i + 1, p) == CountUpTo(l, spans, i, p)
  {
    hide PieceSpan, CountIn, Overlapping, FirstPiece, LastPiece;
    forall p: nat | p < l.pieceCount && !(FirstPiece(l, spans[i]) <= p <= LastPiece(l, spans[i]))
      ensures CountUpTo(l, spans, i + 1, p) == CountUpTo(l, spans, i, p)
    {
      CountOneMore(spans, i, PieceSpan(l, p));
      NotTouched(l, spans[i], p);
    }
  }

  lemma CountOneMore(spans: seq<Span>, i: nat, t: Span)
    requires i < |spans|
    ensures CountIn(spans[..i + 1], t) == CountIn(spans[..i], t) + Overlapping(spans[i], t)
  {
    assert spans[..i + 1][..i] == spans[..i];
  }

  lemma SpanFits(l: Layout, spans: seq<Span>, i: nat)
    requires Canonical(spans) && i < |spans| && Covered(spans) <= Below(0, l.totalLength)
    ensures spans[i].start < spans[i].end <= l.totalLength
  {
    var x: nat := spans[i].end - 1;
    assert Inside(x, spans[i]) && In(x, spans) && x in Covered(spans);
  }

  lemma PiecesTouched(l: Layout, s: Span)
    requires Shaped(l) && s.start < s.end <= l.totalLength
    ensures FirstPiece(l, s) <= LastPiece(l, s) < l.pieceCount
  {
    LengthBound(l);
    hide Shaped;
    DivMonotone(s.start, s.end - 1, l.pieceLength);
    DivLess(s.end - 1, l.pieceCount, l.pieceLength);
  }

  lemma LengthBound(l: Layout)
    requires Shaped(l)
    ensures l.pieceLength > 0 && l.totalLength as int <= l.pieceCount as int * l.pieceLength as int
  {}

  lemma DivBounds(x: nat, m: nat)
    requires m > 0
    ensures x / m * m <= x < x / m * m + m && x / m >= 0
  {
    assert x == x / m * m + x % m;
  }

  lemma DivMonotone(x: nat, y: nat, m: nat)
    requires m > 0 && x <= y
    ensures x / m <= y / m
  {
    DivBounds(x, m);
    DivBounds(y, m);
    var a, b := x / m, y / m;
    if a > b { TimesMonotone(b + 1, a, m); }
  }

  lemma DivLess(y: nat, n: nat, m: nat)
    requires m > 0 && y < n * m
    ensures y / m < n
  {
    DivBounds(y, m);
    if y / m >= n { TimesMonotone(n, y / m, m); }
  }

  lemma TimesMonotone(a: nat, b: nat, m: nat)
    requires a <= b
    ensures a * m <= b * m && (b + 1) * m == b * m + m
  {}

  lemma OverlapValue(l: Layout, spans: seq<Span>, i: nat, piece: nat)
    requires Shaped(l) && piece < l.pieceCount && Canonical(spans) && i < |spans|
    ensures CountUpTo(l, spans, i, piece) + PieceOverlap(l, spans[i], piece) == CountUpTo(l, spans, i + 1, piece) <= U64_MAX
  {
    hide CountIn, Canonical;
    PieceBounds(l, piece);
    CountOneMore(spans, i, PieceSpan(l, piece));
    CountFits(spans, i + 1, PieceSpan(l, piece));
  }

  lemma NotTouched(l: Layout, s: Span, p: nat)
    requires Shaped(l) && p < l.pieceCount && s.start < s.end <= l.totalLength
    requires p < FirstPiece(l, s) || p > LastPiece(l, s)
    ensures Overlapping(s, PieceSpan(l, p)) == 0
  {
    PieceBounds(l, p);
    if p < s.start / l.pieceLength {
      DivBounds(s.start, l.pieceLength);
      TimesMonotone(p + 1, s.start / l.pieceLength, l.pieceLength);
    } else {
      DivBounds(s.end - 1, l.pieceLength);
      TimesMonotone((s.end - 1) / l.pieceLength + 1, p, l.pieceLength);
      TimesMonotone(0, (s.end - 1) / l.pieceLength, l.pieceLength);
    }
  }

  lemma CountFits(spans: seq<Span>, n: nat, t: Span)
    requires Canonical(spans) && n <= |spans|
    ensures CountIn(spans[..n], t) <= U64_MAX
  {
    CountInSize(spans[..n], t);
    assert |Covered(spans[..n]) * Range(t)| <= U64_MAX by {
      var x := Covered(spans[..n]) * Range(t);
      assert x <= Range(t);
      SubsetSize(x, Range(t));
      RangeAtMost(t);
    }
  }

  lemma RangeAtMost(t: Span)
    ensures |Range(t)| <= U64_MAX
  {
    if t.start <= t.end { RangeSize(t); } else { assert Range(t) == {}; }
  }

  lemma SubsetSize(a: set<nat>, b: set<nat>)
    requires a <= b
    ensures |a| <= |b|
  {
    assert b == a + (b - a);
  }
}
