/** The disk store's manifest: printed after every write, and believed after a restart only as far as it proves itself. */
module CacheManifest {
  import opened Bytes
  import opened CacheExtents
  import opened CacheLayout
  import opened CacheText

  // ----- printing -----

  datatype Entry = Entry(key: string, value: string)

  function Line(e: Entry): string { e.key + ['='] + e.value }

  function LinesOf(entries: seq<Entry>): (r: seq<string>)
    ensures |r| == |entries| && forall i | 0 <= i < |entries| :: r[i] == Line(entries[i])
  {
    seq(|entries|, i requires 0 <= i < |entries| => Line(entries[i]))
  }

  const VERSION: string := "version"
  const PIECE_LENGTH: string := "piece_length"
  const FILES: string := "files"
  const PIECES: string := "pieces"

  function ExtentsKey(index: nat): string { "extents." + Decimal(index) }

  /** The indices of the completed pieces from `from` on. */
  function Indexes(completed: seq<bool>, from: nat): seq<u64>
    requires from + |completed| <= U64_MAX
  {
    if completed == [] then [] else
    (if completed[0] then [from] else []) + Indexes(completed[1..], from + 1)
  }

  function SpanText(s: Span): string { Decimal(s.start) + ['-'] + Decimal(s.end) }

  function SpanTexts(spans: seq<Span>): (r: seq<string>)
    ensures |r| == |spans| && forall i | 0 <= i < |spans| :: r[i] == SpanText(spans[i])
  {
    seq(|spans|, i requires 0 <= i < |spans| => SpanText(spans[i]))
  }

  function SpansText(spans: seq<Span>): string { Join(SpanTexts(spans), ',') }

  function Header(l: Layout, completed: seq<bool>): seq<Entry>
    requires |completed| <= U64_MAX
  {
    [Entry(VERSION, "1"), Entry(PIECE_LENGTH, Decimal(l.pieceLength)),
     Entry(FILES, JoinedNumbers(l.fileLengths)), Entry(PIECES, JoinedNumbers(Indexes(completed, 0)))]
  }

  function ExtentEntries(extents: seq<seq<Span>>): (r: seq<Entry>)
    ensures |r| == |extents| && forall i | 0 <= i < |extents| :: r[i] == Entry(ExtentsKey(i), SpansText(extents[i]))
  {
    seq(|extents|, i requires 0 <= i < |extents| => Entry(ExtentsKey(i), SpansText(extents[i])))
  }

  function Entries(l: Layout, extents: seq<seq<Span>>, completed: seq<bool>): seq<Entry>
    requires |completed| <= U64_MAX
  {
    Header(l, completed) + ExtentEntries(extents)
  }

  function Manifest(l: Layout, extents: seq<seq<Span>>, completed: seq<bool>): string
    requires |completed| <= U64_MAX
  {
    Unlines(LinesOf(Entries(l, extents, completed)))
  }

  // ----- parsing -----

  /** Keys and values of all lines; a line without a separator or a key seen before spoils the manifest. */
  function Collect(lines: seq<string>): Option<map<string, string>> {
    if lines == [] then Some(map[]) else
    match Collect(lines[..|lines| - 1])
    case None => None
    case Some(m) =>
      match SplitOnce(lines[|lines| - 1], '=')
      case None => None
      case Some((key, value)) => if key in m then None else Some(m[key := value])
  }

  method CollectLines(lines: seq<string>) returns (r: Option<map<string, string>>)
    ensures r == Collect(lines)
  {
    var values: map<string, string> := map[];
    for i := 0 to |lines|
      invariant Collect(lines[..i]) == Some(values)
    {
      assert lines[..i + 1][..i] == lines[..i];
      var pair := SplitOnce(lines[i], '=');
      if pair.None? {
        CollectFails(lines, i + 1);
        return None;
      }
      if pair.value.0 in values {
        CollectFails(lines, i + 1);
        return None;
      }
      values := values[pair.value.0 := pair.value.1];
    }
    assert lines[..|lines|] == lines;
    return Some(values);
  }

  lemma {:induction false} CollectFails(lines: seq<string>, n: nat)
    requires n <= |lines| && Collect(lines[..n]).None?
    ensures Collect(lines).None?
    decreases |lines|
  {
    if n == |lines| {
      assert lines[..n] == lines;
    } else {
      assert lines[..|lines| - 1][..n] == lines[..n];
      CollectFails(lines[..|lines| - 1], n);
    }
  }

  /** Pieces marked complete; one out of range or listed twice spoils the manifest. */
  function MarkAll(pieces: seq<u64>, count: nat): (r: Option<seq<bool>>)
    ensures r.Some? ==> |r.value| == count
  {
    if pieces == [] then Some(seq(count, _ => false)) else
    match MarkAll(pieces[..|pieces| - 1], count)
    case None => None
    case Some(marked) =>
      var p := pieces[|pieces| - 1];
      if p >= count || marked[p] then None else Some(marked[p := true])
  }

  method MarkPieces(pieces: seq<u64>, count: nat) returns (r: Option<seq<bool>>)
    ensures r == MarkAll(pieces, count)
  {
    var marked: seq<bool> := seq(count, _ => false);
    for i := 0 to |pieces|
      invariant |marked| == count && MarkAll(pieces[..i], count) == Some(marked)
    {
      assert pieces[..i + 1][..i] == pieces[..i];
      if pieces[i] >= count || marked[pieces[i]] {
        MarkFails(pieces, count, i + 1);
        return None;
      }
      marked := marked[pieces[i] := true];
    }
    assert pieces[..|pieces|] == pieces;
    return Some(marked);
  }

  lemma {:induction false} MarkFails(pieces: seq<u64>, count: nat, n: nat)
    requires n <= |pieces| && MarkAll(pieces[..n], count).None?
    ensures MarkAll(pieces, count).None?
    decreases |pieces|
  {
    if n == |pieces| {
      assert pieces[..n] == pieces;
    } else {
      assert pieces[..|pieces| - 1][..n] == pieces[..n];
      MarkFails(pieces[..|pieces| - 1], count, n);
    }
  }

  function ParseSpan(s: string): Option<Span> {
    match SplitOnce(s, '-')
    case None => None
    case Some((a, b)) =>
      match (ParseU64(a), ParseU64(b))
      case (Some(start), Some(end)) => Some(Span(start, end))
      case _ => None
  }

  function ParseSpanList(parts: seq<string>): Option<seq<Span>> {
    if parts == [] then Some([]) else
    match (ParseSpan(parts[0]), ParseSpanList(parts[1..]))
    case (Some(s), Some(rest)) => Some([s] + rest)
    case _ => None
  }

  function ParseSpans(raw: string): Option<seq<Span>> {
    if raw == "" then Some([]) else ParseSpanList(SplitOn(raw, ','))
  }

  predicate EndsWithin(spans: seq<Span>, limit: u64) { forall s | s in spans :: s.end <= limit }

  /** The spans of one file, if they are well formed and fit both the layout and the data file. */
  function RestoreFile(raw: string, length: u64, onDisk: Option<u64>): Option<seq<Span>> {
    match ParseSpans(raw)
    case None => None
    case Some(recorded) =>
      if !WellFormed(recorded) then None else
      var spans := JoinAll(recorded);
      if !EndsWithin(spans, length) then None else
      if Total(spans) > 0 && (onDisk.None? || !EndsWithin(spans, onDisk.value)) then None else
      Some(spans)
  }

  /** What a restart recovers. */
  datatype Restored = Restored(extents: seq<seq<Span>>, completed: seq<bool>, stored: int)

  datatype Progress = Progress(rest: map<string, string>, extents: seq<seq<Span>>, stored: int)

  function NextFile(p: Progress, l: Layout, onDisk: seq<Option<u64>>, n: nat): Option<Progress>
    requires n < |l.fileLengths| == |onDisk|
  {
    var key := ExtentsKey(n);
    if key !in p.rest then None else
    match RestoreFile(p.rest[key], l.fileLengths[n], onDisk[n])
    case None => None
    case Some(spans) =>
      if p.stored + Total(spans) > U64_MAX then None else
      Some(Progress(p.rest - {key}, p.extents + [spans], p.stored + Total(spans)))
  }

  /** The first `n` files, taken out of `values` one after the other; `onDisk` gives the length of each data file. */
  function RestoreFiles(values: map<string, string>, l: Layout, onDisk: seq<Option<u64>>, n: nat): Option<Progress>
    requires n <= |l.fileLengths| == |onDisk|
  {
    if n == 0 then Some(Progress(values, [], 0)) else
    match RestoreFiles(values, l, onDisk, n - 1)
    case None => None
    case Some(p) => NextFile(p, l, onDisk, n - 1)
  }

  function Restore(text: string, l: Layout, onDisk: seq<Option<u64>>): Option<Restored>
    requires |l.fileLengths| == |onDisk|
  {
    match Collect(Lines(text))
    case None => None
    case Some(m) => RestoreValues(m, l, onDisk)
  }

  function RestoreValues(m: map<string, string>, l: Layout, onDisk: seq<Option<u64>>): Option<Restored>
    requires |l.fileLengths| == |onDisk|
  {
    if VERSION !in m || m[VERSION] != "1" then None else
    if PIECE_LENGTH !in m || ParseU64(m[PIECE_LENGTH]) != Some(l.pieceLength) then None else
    if FILES !in m || ParseNumbers(m[FILES]) != Some(l.fileLengths) then None else
    if PIECES !in m || ParseNumbers(m[PIECES]).None? then None else
    match MarkAll(ParseNumbers(m[PIECES]).value, l.pieceCount)
    case None => None
    case Some(completed) =>
      match RestoreFiles(m - {VERSION, PIECE_LENGTH, FILES, PIECES}, l, onDisk, |onDisk|)
      case None => None
      case Some(p) => if p.rest == map[] then Some(Restored(p.extents, completed, p.stored)) else None
  }

  method RestoreManifest(text: string, l: Layout, onDisk: seq<Option<u64>>) returns (r: Option<Restored>)
    requires |l.fileLengths| == |onDisk|
    ensures r == Restore(text, l, onDisk)
  {
    hide Lines, RestoreFiles, ParseU64, ParseNumbers, MarkAll, Collect;
    var collected := CollectLines(Lines(text));
    if collected.None? { return None; }
    var m := collected.value;
    if VERSION !in m || m[VERSION] != "1" { return None; }
    if PIECE_LENGTH !in m || ParseU64(m[PIECE_LENGTH]) != Some(l.pieceLength) { return None; }
    if FILES !in m || ParseNumbers(m[FILES]) != Some(l.fileLengths) { return None; }
    if PIECES !in m { return None; }
    var pieces := ParseNumbers(m[PIECES]);
    if pieces.None? { return None; }
    var completed := MarkPieces(pieces.value, l.pieceCount);
    if completed.None? { return None; }
    var files := RestoreExtents(m - {VERSION, PIECE_LENGTH, FILES, PIECES}, l, onDisk);
    if files.None? { return None; }
    if files.value.rest != map[] { return None; }
    return Some(Restored(files.value.extents, completed.value, files.value.stored));
  }

  method RestoreExtents(values: map<string, string>, l: Layout, onDisk: seq<Option<u64>>) returns (r: Option<Progress>)
    requires |l.fileLengths| == |onDisk|
    ensures r == RestoreFiles(values, l, onDisk, |onDisk|)
  {
    hide ExtentsKey, RestoreFile, Total, RestoreFiles;
    var rest, extents, stored := values, [], 0;
    FilesStart(values, l, onDisk);
    for index := 0 to |onDisk|
      invariant RestoreFiles(values, l, onDisk, index) == Some(Progress(rest, extents, stored))
    {
      FilesNext(values, l, onDisk, index);
      var key := ExtentsKey(index);
      if key !in rest { return None; }
      var spans := RestoreOne(rest[key], l.fileLengths[index], onDisk[index]);
      if spans.None? { return None; }
      if stored + spans.value.1 > U64_MAX { return None; }
      rest, extents, stored := rest - {key}, extents + [spans.value.0], stored + spans.value.1;
    }
    return Some(Progress(rest, extents, stored));
  }

  lemma FilesStart(values: map<string, string>, l: Layout, onDisk: seq<Option<u64>>)
    requires |l.fileLengths| == |onDisk|
    ensures RestoreFiles(values, l, onDisk, 0) == Some(Progress(values, [], 0))
  {}

  lemma FilesNext(values: map<string, string>, l: Layout, onDisk: seq<Option<u64>>, n: nat)
    requires n < |l.fileLengths| == |onDisk| && RestoreFiles(values, l, onDisk, n).Some?
    ensures var next := NextFile(RestoreFiles(values, l, onDisk, n).value, l, onDisk, n);
            && RestoreFiles(values, l, onDisk, n + 1) == next
            && (next.None? ==> RestoreFiles(values, l, onDisk, |onDisk|).None?)
  {
    hide NextFile;
    if RestoreFiles(values, l, onDisk, n + 1).None? {
      FilesFail(values, l, onDisk, n + 1);
    }
  }

  lemma {:induction false} FilesFail(values: map<string, string>, l: Layout, onDisk: seq<Option<u64>>, n: nat)
    requires n <= |l.fileLengths| == |onDisk| && RestoreFiles(values, l, onDisk, n).None?
    ensures RestoreFiles(values, l, onDisk, |onDisk|).None?
    decreases |onDisk| - n
  {
    if n < |onDisk| {
      FilesFail(values, l, onDisk, n + 1);
    }
  }

  method RestoreOne(raw: string, length: u64, onDisk: Option<u64>) returns (r: Option<(seq<Span>, int)>)
    ensures match RestoreFile(raw, length, onDisk)
            case None => r == None
            case Some(spans) => r == Some((spans, Total(spans)))
  {
    hide ParseSpans, WellFormed, JoinAll;
    var recorded := ParseSpans(raw);
    if recorded.None? { return None; }
    var ok, extents := FromSpans(recorded.value);
    if !ok { return None; }
    if !EndsWithin(extents.spans, length) { return None; }
    if extents.total > 0 && (onDisk.None? || !EndsWithin(extents.spans, onDisk.value)) { return None; }
    return Some((extents.spans, extents.total));
  }
}
