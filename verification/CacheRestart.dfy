/** A manifest read back gives exactly what was printed; whatever else is read back, only proven bytes count. */
module CacheRestart {
  import opened Bytes
  import opened CacheExtents
  import opened CacheLayout
  import opened CacheText
  import opened CacheManifest

  // ----- entries -----

  ghost predicate Keyed(entries: seq<Entry>) {
    && (forall e | e in entries :: '=' !in e.key)
    && (forall i, j | 0 <= i < j < |entries| :: entries[i].key != entries[j].key)
  }

  function AsMap(entries: seq<Entry>): (m: map<string, string>)
    ensures forall k :: k in m ==> exists i :: 0 <= i < |entries| && entries[i].key == k
  {
    if entries == [] then map[] else
    var e := entries[|entries| - 1];
    assert e in entries;
    AsMap(entries[..|entries| - 1])[e.key := e.value]
  }

  lemma {:induction false} AsMapLooksUp(entries: seq<Entry>, i: nat)
    requires Keyed(entries) && i < |entries|
    ensures entries[i].key in AsMap(entries) && AsMap(entries)[entries[i].key] == entries[i].value
  {
    var n := |entries| - 1;
    if i < n {
      AsMapLooksUp(entries[..n], i);
      assert entries[..n][i] == entries[i];
    }
  }

  lemma {:induction false} CollectInverts(entries: seq<Entry>)
    requires Keyed(entries)
    ensures Collect(LinesOf(entries)) == Some(AsMap(entries))
  {
    if entries != [] {
      var n := |entries| - 1;
      var e := entries[n];
      CollectInverts(entries[..n]);
      assert LinesOf(entries)[..n] == LinesOf(entries[..n]);
      assert e in entries;
      SplitOnceInverts(e.key, '=', e.value);
      forall i | 0 <= i < n ensures entries[..n][i].key != e.key {}
    }
  }

  // ----- completed pieces -----

  lemma {:induction false} IndexesSnoc(c: seq<bool>, b: bool, from: nat)
    requires from + |c| + 1 <= U64_MAX
    ensures Indexes(c + [b], from) == Indexes(c, from) + if b then [from + |c|] else []
  {
    if c == [] {
      assert Indexes([b][1..], from + 1) == [];
    } else {
      assert (c + [b])[1..] == c[1..] + [b] && (c + [b])[0] == c[0];
      IndexesSnoc(c[1..], b, from + 1);
    }
  }

  /** `c` followed by pieces not completed, `count` in all. */
  function Filled(c: seq<bool>, count: nat): (r: seq<bool>)
    requires |c| <= count
    ensures |r| == count
    ensures forall i | 0 <= i < count :: r[i] == (i < |c| && c[i])
  {
    c + seq(count - |c|, _ => false)
  }

  lemma MarkOne(pieces: seq<u64>, count: nat, p: u64)
    requires MarkAll(pieces, count).Some? && p < count && !MarkAll(pieces, count).value[p]
    ensures MarkAll(pieces + [p], count) == Some(MarkAll(pieces, count).value[p := true])
  {
    assert (pieces + [p])[..|pieces|] == pieces;
  }

  lemma {:induction false} MarksInvert(completed: seq<bool>, count: nat)
    requires |completed| <= count <= U64_MAX
    ensures MarkAll(Indexes(completed, 0), count) == Some(Filled(completed, count))
  {
    hide MarkAll;
    if completed == [] {
      NoMarks(count);
    } else {
      var n := |completed| - 1;
      var front, last := completed[..n], completed[n];
      MarksInvert(front, count);
      assert completed == front + [last];
      IndexesSnoc(front, last, 0);
      hide Indexes, Filled;
      if last {
        FilledNext(front, count);
        MarkOne(Indexes(front, 0), count, n);
      } else {
        assert Indexes(front, 0) + [] == Indexes(front, 0);
        FilledSame(front, count);
      }
    }
  }

  lemma NoMarks(count: nat)
    ensures MarkAll([], count) == Some(Filled([], count))
  {
    assert seq(count, _ => false) == Filled([], count);
  }

  lemma FilledNext(c: seq<bool>, count: nat)
    requires |c| < count
    ensures !Filled(c, count)[|c|] && Filled(c + [true], count) == Filled(c, count)[|c| := true]
  {}

  lemma FilledSame(c: seq<bool>, count: nat)
    requires |c| < count
    ensures Filled(c + [false], count) == Filled(c, count)
  {}

  // ----- spans -----

  lemma SpanInverts(s: Span)
    ensures ParseSpan(SpanText(s)) == Some(s)
  {
    SplitOnceInverts(Decimal(s.start), '-', Decimal(s.end));
    ParseInverts(s.start);
    ParseInverts(s.end);
  }

  lemma {:induction false} SpanListInverts(spans: seq<Span>)
    ensures ParseSpanList(SpanTexts(spans)) == Some(spans)
  {
    hide SpanText, ParseSpan;
    if spans != [] {
      SpanInverts(spans[0]);
      SpanListInverts(spans[1..]);
      assert SpanTexts(spans)[1..] == SpanTexts(spans[1..]);
      assert spans == [spans[0]] + spans[1..];
    }
  }

  lemma SpanTextAvoids(s: Span, c: char)
    requires !IsDigit(c) && c != '-'
    ensures c !in SpanText(s) && SpanText(s) != []
  {}

  lemma SpansInvert(spans: seq<Span>)
    ensures ParseSpans(SpansText(spans)) == Some(spans)
  {
    hide SpanText, ParseSpanList, SplitOn, Join;
    if spans == [] {
      NothingJoined();
      NoSpans();
    } else {
      var parts := SpanTexts(spans);
      forall p | p in parts ensures ',' !in p && p != [] {
        var i :| 0 <= i < |parts| && parts[i] == p;
        SpanTextAvoids(spans[i], ',');
      }
      assert parts[0] in parts;
      JoinNotEmpty(parts, ',');
      SplitOnInverts(parts, ',');
      SpanListInverts(spans);
    }
  }

  lemma NothingJoined()
    ensures Join([], ',') == ""
  {}

  lemma NoSpans()
    ensures SpanTexts([]) == []
  {}

  /** What `open` may rely on: canonical spans inside the file, and a data file that reaches their end. */
  ghost predicate Backed(spans: seq<Span>, length: u64, onDisk: Option<u64>) {
    && Canonical(spans) && EndsWithin(spans, length)
    && (spans != [] ==> onDisk.Some? && EndsWithin(spans, onDisk.value))
  }

  lemma FileInverts(spans: seq<Span>, length: u64, onDisk: Option<u64>)
    requires Backed(spans, length, onDisk)
    ensures RestoreFile(SpansText(spans), length, onDisk) == Some(spans)
  {
    hide ParseSpans, SpansText, WellFormed, JoinAll, EndsWithin;
    SpansInvert(spans);
    CanonicalComesBack(spans);
    if spans == [] { NoTotal(); }
  }

  lemma NoTotal()
    ensures Total([]) == 0
  {}

  // ----- all files -----

  function TotalOf(extents: seq<seq<Span>>): int {
    if extents == [] then 0 else TotalOf(extents[..|extents| - 1]) + Total(extents[|extents| - 1])
  }

  lemma {:induction false} TotalWithin(spans: seq<Span>, length: u64)
    requires Canonical(spans) && EndsWithin(spans, length)
    ensures 0 <= Total(spans) <= if spans == [] then 0 else length as int - spans[0].start as int
  {
    if spans != [] {
      assert spans[0] in spans;
      forall s | s in spans[1..] ensures s.end <= length { assert s in spans; }
      TotalWithin(spans[1..], length);
      assert |spans| > 1 ==> spans[0].end < spans[1..][0].start;
    }
  }

  ghost predicate AllBacked(extents: seq<seq<Span>>, l: Layout, onDisk: seq<Option<u64>>) {
    && |extents| == |l.fileLengths| == |onDisk|
    && forall i | 0 <= i < |extents| :: Backed(extents[i], l.fileLengths[i], onDisk[i])
  }

  lemma {:induction false} TotalsFit(extents: seq<seq<Span>>, l: Layout, onDisk: seq<Option<u64>>, n: nat)
    requires AllBacked(extents, l, onDisk) && n <= |extents|
    ensures 0 <= TotalOf(extents[..n]) <= Sum(l.fileLengths[..n])
  {
    hide Backed;
    if n > 0 {
      TotalsFit(extents, l, onDisk, n - 1);
      BackedTotal(extents[n - 1], l.fileLengths[n - 1], onDisk[n - 1]);
      assert extents[..n][..n - 1] == extents[..n - 1] && l.fileLengths[..n][..n - 1] == l.fileLengths[..n - 1];
    }
  }

  lemma BackedTotal(spans: seq<Span>, length: u64, onDisk: Option<u64>)
    requires Backed(spans, length, onDisk)
    ensures 0 <= Total(spans) <= length as int
  {
    TotalWithin(spans, length);
  }

  lemma ExtentKeysDiffer(i: nat, j: nat)
    requires i != j
    ensures ExtentsKey(i) != ExtentsKey(j)
  {
    if ExtentsKey(i) == ExtentsKey(j) {
      assert Decimal(i) == ExtentsKey(i)[8..] == ExtentsKey(j)[8..] == Decimal(j);
      DecimalInjective(i, j);
    }
  }

  function FirstKeys(n: nat): (s: set<string>)
    ensures forall k :: k in s <==> exists i :: 0 <= i < n && ExtentsKey(i) == k
  {
    if n == 0 then {} else FirstKeys(n - 1) + {ExtentsKey(n - 1)}
  }

  /** Each file is found under its key and comes back as printed. */
  lemma {:induction false} FilesInvert(
    values: map<string, string>, extents: seq<seq<Span>>, l: Layout, onDisk: seq<Option<u64>>, n: nat)
    requires AllBacked(extents, l, onDisk) && Sum(l.fileLengths) <= U64_MAX && n <= |extents|
    requires forall i | 0 <= i < |extents| :: ExtentsKey(i) in values && values[ExtentsKey(i)] == SpansText(extents[i])
    ensures RestoreFiles(values, l, onDisk, n)
         == Some(Progress(values - FirstKeys(n), extents[..n], TotalOf(extents[..n])))
  {
    hide ExtentsKey, SpansText, RestoreFile, Backed, RestoreFiles, Total, Sum;
    FilesStart(values, l, onDisk);
    if n == 0 {
      assert values - {} == values;
    } else {
      FilesInvert(values, extents, l, onDisk, n - 1);
      FilesNext(values, l, onDisk, n - 1);
      var key := ExtentsKey(n - 1);
      assert key !in FirstKeys(n - 1) by {
        forall i | 0 <= i < n - 1 ensures ExtentsKey(i) != key { ExtentKeysDiffer(i, n - 1); }
      }
      FileInverts(extents[n - 1], l.fileLengths[n - 1], onDisk[n - 1]);
      TotalsFit(extents, l, onDisk, n);
      PrefixSum(l.fileLengths, n);
      assert extents[..n] == extents[..n - 1] + [extents[n - 1]];
      assert extents[..n][..n - 1] == extents[..n - 1];
      assert values - FirstKeys(n - 1) - {key} == values - FirstKeys(n);
    }
  }

  lemma PrefixSum(lengths: seq<u64>, n: nat)
    requires n <= |lengths|
    ensures Sum(lengths[..n]) <= Sum(lengths)
  {
    if n < |lengths| {
      SumPrefix(lengths, n);
    } else {
      assert lengths[..n] == lengths;
    }
  }

  // ----- the whole manifest -----

  predicate Clean(s: string) { Plain(s) && '=' !in s }

  lemma NumbersClean(values: seq<nat>)
    ensures Clean(JoinedNumbers(values))
  {
    var parts := Decimals(values);
    forall p | p in parts ensures '\n' !in p && '\r' !in p && '=' !in p {
      var i :| 0 <= i < |parts| && parts[i] == p;
    }
    JoinAvoids(parts, ',', '\n');
    JoinAvoids(parts, ',', '\r');
    JoinAvoids(parts, ',', '=');
  }

  lemma SpansClean(spans: seq<Span>)
    ensures Clean(SpansText(spans))
  {
    hide SpanText;
    var parts := SpanTexts(spans);
    forall p | p in parts ensures '\n' !in p && '\r' !in p && '=' !in p {
      var i :| 0 <= i < |parts| && parts[i] == p;
      SpanTextAvoids(spans[i], '\n');
      SpanTextAvoids(spans[i], '\r');
      SpanTextAvoids(spans[i], '=');
    }
    JoinAvoids(parts, ',', '\n');
    JoinAvoids(parts, ',', '\r');
    JoinAvoids(parts, ',', '=');
  }

  lemma LinePlain(e: Entry)
    requires Clean(e.key) && Clean(e.value)
    ensures Plain(Line(e))
  {}

  lemma ExtentsKeyClean(i: nat)
    ensures Clean(ExtentsKey(i))
    ensures ExtentsKey(i) !in {VERSION, PIECE_LENGTH, FILES, PIECES}
  {
    assert ExtentsKey(i)[0] == 'e';
  }

  lemma VersionClean() ensures Clean(VERSION) && Clean("1") && |VERSION| == 7 {}

  lemma PieceLengthClean() ensures Clean(PIECE_LENGTH) && |PIECE_LENGTH| == 12 {}

  lemma FilesClean() ensures Clean(FILES) && |FILES| == 5 {}

  lemma PiecesClean() ensures Clean(PIECES) && |PIECES| == 6 {}

  lemma HeaderClean(l: Layout, completed: seq<bool>)
    requires |completed| <= U64_MAX
    ensures forall e | e in Header(l, completed) :: Clean(e.key) && Clean(e.value)
    ensures forall i, j | 0 <= i < j < |Header(l, completed)| :: Header(l, completed)[i].key != Header(l, completed)[j].key
  {
    hide JoinedNumbers, Indexes, Clean, Header;
    NumbersClean(l.fileLengths);
    NumbersClean(Indexes(completed, 0));
    VersionClean();
    PieceLengthClean();
    FilesClean();
    PiecesClean();
    assert Clean(Decimal(l.pieceLength)) by { DecimalClean(l.pieceLength); }
    HeaderKeys(l, completed);
    var h := Header(l, completed);
    forall e | e in h ensures Clean(e.key) && Clean(e.value) {
      var i :| 0 <= i < 4 && h[i] == e;
      assert i == 0 || i == 1 || i == 2 || i == 3;
    }
    forall i, j | 0 <= i < j < |h| ensures |h[i].key| != |h[j].key| {
      assert i == 0 || i == 1 || i == 2;
      assert j == 1 || j == 2 || j == 3;
    }
  }

  lemma DecimalClean(n: nat)
    ensures Clean(Decimal(n))
  {}

  lemma EntriesClean(l: Layout, extents: seq<seq<Span>>, completed: seq<bool>)
    requires |completed| <= U64_MAX
    ensures Keyed(Entries(l, extents, completed))
    ensures forall e | e in Entries(l, extents, completed) :: Clean(e.key) && Clean(e.value)
  {
    hide ExtentsKey, SpansText, Header;
    var header, files := Header(l, completed), ExtentEntries(extents);
    HeaderClean(l, completed);
    HeaderKeys(l, completed);
    forall e | e in files ensures Clean(e.key) && Clean(e.value) && e.key !in {VERSION, PIECE_LENGTH, FILES, PIECES} {
      var i :| 0 <= i < |files| && files[i] == e;
      ExtentsKeyClean(i);
      SpansClean(extents[i]);
    }
    var all := header + files;
    forall i, j | 0 <= i < j < |all| ensures all[i].key != all[j].key {
      if i >= 4 {
        ExtentKeysDiffer(i - 4, j - 4);
      } else if j >= 4 {
        assert header[i] in header && files[j - 4] in files;
      }
    }
  }

  lemma HeaderKeys(l: Layout, completed: seq<bool>)
    requires |completed| <= U64_MAX
    ensures |Header(l, completed)| == 4
    ensures forall e | e in Header(l, completed) :: e.key in {VERSION, PIECE_LENGTH, FILES, PIECES}
    ensures Header(l, completed)[0] == Entry(VERSION, "1")
    ensures Header(l, completed)[1] == Entry(PIECE_LENGTH, Decimal(l.pieceLength))
    ensures Header(l, completed)[2] == Entry(FILES, JoinedNumbers(l.fileLengths))
    ensures Header(l, completed)[3] == Entry(PIECES, JoinedNumbers(Indexes(completed, 0)))
  {
    hide JoinedNumbers, Indexes, Decimal;
  }

  lemma ManifestCollected(l: Layout, extents: seq<seq<Span>>, completed: seq<bool>)
    requires |completed| <= U64_MAX
    ensures Collect(Lines(Manifest(l, extents, completed))) == Some(AsMap(Entries(l, extents, completed)))
  {
    hide Entries, Clean, Plain, Line, Collect, Lines, AsMap;
    var entries := Entries(l, extents, completed);
    EntriesClean(l, extents, completed);
    forall line | line in LinesOf(entries) ensures Plain(line) {
      var i :| 0 <= i < |entries| && LinesOf(entries)[i] == line;
      assert entries[i] in entries;
      LinePlain(entries[i]);
    }
    LinesInverts(LinesOf(entries));
    CollectInverts(entries);
  }

  lemma FoundAt(l: Layout, extents: seq<seq<Span>>, completed: seq<bool>, i: nat, e: Entry)
    requires |completed| <= U64_MAX && i < |Entries(l, extents, completed)| && Entries(l, extents, completed)[i] == e
    ensures var m := AsMap(Entries(l, extents, completed)); e.key in m && m[e.key] == e.value
  {
    hide Entries, AsMap, Keyed;
    EntriesClean(l, extents, completed);
    AsMapLooksUp(Entries(l, extents, completed), i);
  }

  /** The values found under each key. */
  lemma ManifestValues(l: Layout, extents: seq<seq<Span>>, completed: seq<bool>)
    requires |completed| <= U64_MAX
    ensures var m := AsMap(Entries(l, extents, completed));
            && VERSION in m && m[VERSION] == "1" && PIECE_LENGTH in m && m[PIECE_LENGTH] == Decimal(l.pieceLength)
            && FILES in m && m[FILES] == JoinedNumbers(l.fileLengths)
            && PIECES in m && m[PIECES] == JoinedNumbers(Indexes(completed, 0))
  {
    hide Header, AsMap, JoinedNumbers, Indexes, Decimal, Entries;
    HeaderKeys(l, completed);
    EntryAt(l, extents, completed);
    FoundAt(l, extents, completed, 0, Entry(VERSION, "1"));
    FoundAt(l, extents, completed, 1, Entry(PIECE_LENGTH, Decimal(l.pieceLength)));
    FoundAt(l, extents, completed, 2, Entry(FILES, JoinedNumbers(l.fileLengths)));
    FoundAt(l, extents, completed, 3, Entry(PIECES, JoinedNumbers(Indexes(completed, 0))));
  }

  lemma ManifestExtents(l: Layout, extents: seq<seq<Span>>, completed: seq<bool>)
    requires |completed| <= U64_MAX
    ensures var m := AsMap(Entries(l, extents, completed));
            forall i | 0 <= i < |extents| :: ExtentsKey(i) in m && m[ExtentsKey(i)] == SpansText(extents[i])
  {
    hide ExtentsKey, SpansText, AsMap, Entries, Header;
    EntryAt(l, extents, completed);
    forall i | 0 <= i < |extents|
      ensures var m := AsMap(Entries(l, extents, completed)); ExtentsKey(i) in m && m[ExtentsKey(i)] == SpansText(extents[i])
    {
      FoundAt(l, extents, completed, i + 4, Entry(ExtentsKey(i), SpansText(extents[i])));
    }
  }

  lemma EntryAt(l: Layout, extents: seq<seq<Span>>, completed: seq<bool>)
    requires |completed| <= U64_MAX
    ensures var entries := Entries(l, extents, completed);
            && |entries| == 4 + |extents|
            && (forall i | 0 <= i < 4 :: entries[i] == Header(l, completed)[i])
            && (forall i | 4 <= i < |entries| :: entries[i] == Entry(ExtentsKey(i - 4), SpansText(extents[i - 4])))
  {
    hide Header, ExtentsKey, SpansText;
    HeaderKeys(l, completed);
  }

  /** There is nothing under any other key. */
  lemma ManifestKeys(l: Layout, extents: seq<seq<Span>>, completed: seq<bool>)
    requires |completed| <= U64_MAX
    ensures AsMap(Entries(l, extents, completed)).Keys <= {VERSION, PIECE_LENGTH, FILES, PIECES} + FirstKeys(|extents|)
  {
    hide Header, ExtentsKey, SpansText, AsMap;
    var entries := Entries(l, extents, completed);
    HeaderKeys(l, completed);
    AsMapKeys(entries);
    forall k | k in AsMap(entries) ensures k in {VERSION, PIECE_LENGTH, FILES, PIECES} || k in FirstKeys(|extents|) {
      var i :| 0 <= i < |entries| && entries[i].key == k;
      if i >= 4 {
        assert entries[i] == ExtentEntries(extents)[i - 4];
      } else {
        assert entries[i] in Header(l, completed);
      }
    }
  }

  lemma AsMapKeys(entries: seq<Entry>)
    ensures forall k | k in AsMap(entries) :: exists i :: 0 <= i < |entries| && entries[i].key == k
  {}

  /**
   * The manifest printed for a torrent, read back with data files long enough, gives the same spans, the same
   * completed pieces and their exact number of bytes.
   */
  lemma RestoreInvertsManifest(l: Layout, extents: seq<seq<Span>>, completed: seq<bool>, onDisk: seq<Option<u64>>)
    requires Shaped(l) && |completed| == l.pieceCount as int && AllBacked(extents, l, onDisk)
    ensures Restore(Manifest(l, extents, completed), l, onDisk) == Some(Restored(extents, completed, TotalOf(extents)))
  {
    hide Manifest, Lines, Collect, AsMap, Entries, JoinedNumbers, ParseNumbers, ParseU64, Decimal, Indexes, MarkAll, RestoreFiles,
      Backed, SpansText, ExtentsKey, Sum, TotalOf;
    ManifestCollected(l, extents, completed);
    ManifestValues(l, extents, completed);
    ManifestExtents(l, extents, completed);
    ManifestKeys(l, extents, completed);
    ParseInverts(l.pieceLength);
    ParseNumbersInverts(l.fileLengths);
    ParseNumbersInverts(Indexes(completed, 0));
    MarksInvert(completed, |completed|);
    assert Filled(completed, |completed|) == completed;
    var m := AsMap(Entries(l, extents, completed));
    var values := m - {VERSION, PIECE_LENGTH, FILES, PIECES};
    forall i | 0 <= i < |extents| ensures ExtentsKey(i) in values && values[ExtentsKey(i)] == SpansText(extents[i]) {
      ExtentsKeyClean(i);
    }
    FilesInvert(values, extents, l, onDisk, |onDisk|);
    assert values - FirstKeys(|extents|) == map[];
    assert extents[..|onDisk|] == extents;
  }

  lemma {:induction false} FilesNeedBacking(
    values: map<string, string>, extents: seq<seq<Span>>, l: Layout, onDisk: seq<Option<u64>>, n: nat)
    requires |extents| == |l.fileLengths| == |onDisk| && n <= |extents|
    requires forall i | 0 <= i < |extents| :: Canonical(extents[i])
    requires forall i | 0 <= i < |extents| :: ExtentsKey(i) in values && values[ExtentsKey(i)] == SpansText(extents[i])
    ensures match RestoreFiles(values, l, onDisk, n)
            case None => true
            case Some(p) => p.rest == values - FirstKeys(n)
                            && forall i | 0 <= i < n :: Backed(extents[i], l.fileLengths[i], onDisk[i])
  {
    hide ExtentsKey, SpansText, RestoreFile, Backed, Total, Canonical;
    FilesStart(values, l, onDisk);
    if n == 0 {
      assert values - {} == values;
    } else {
      FilesNeedBacking(values, extents, l, onDisk, n - 1);
      if RestoreFiles(values, l, onDisk, n - 1).Some? {
        FilesNext(values, l, onDisk, n - 1);
        var key := ExtentsKey(n - 1);
        assert key !in FirstKeys(n - 1) by {
          forall i | 0 <= i < n - 1 ensures ExtentsKey(i) != key { ExtentKeysDiffer(i, n - 1); }
        }
        FileNeedsBacking(extents[n - 1], l.fileLengths[n - 1], onDisk[n - 1]);
        assert values - FirstKeys(n - 1) - {key} == values - FirstKeys(n);
      }
    }
  }

  lemma FileNeedsBacking(spans: seq<Span>, length: u64, onDisk: Option<u64>)
    requires Canonical(spans)
    ensures RestoreFile(SpansText(spans), length, onDisk).Some? ==> Backed(spans, length, onDisk)
  {
    hide ParseSpans, SpansText, WellFormed, JoinAll;
    SpansInvert(spans);
    CanonicalComesBack(spans);
    FileIsSafe(SpansText(spans), length, onDisk);
  }

  /** A printed manifest is believed exactly when every span lies in its file and in what its data file holds. */
  lemma RestoreBelieves(l: Layout, extents: seq<seq<Span>>, completed: seq<bool>, onDisk: seq<Option<u64>>)
    requires Shaped(l) && |completed| == l.pieceCount as int && |extents| == |l.fileLengths| == |onDisk|
    requires forall i | 0 <= i < |extents| :: Canonical(extents[i])
    ensures Restore(Manifest(l, extents, completed), l, onDisk).Some? <==> AllBacked(extents, l, onDisk)
  {
    hide Manifest, Lines, Collect, AsMap, Entries, JoinedNumbers, ParseNumbers, ParseU64, Decimal, Indexes, MarkAll, RestoreFiles,
      Backed, SpansText, ExtentsKey, Sum, TotalOf, Canonical;
    if AllBacked(extents, l, onDisk) { RestoreInvertsManifest(l, extents, completed, onDisk); }
    ManifestCollected(l, extents, completed);
    ManifestExtents(l, extents, completed);
    var m := AsMap(Entries(l, extents, completed));
    var values := m - {VERSION, PIECE_LENGTH, FILES, PIECES};
    forall i | 0 <= i < |extents| ensures ExtentsKey(i) in values && values[ExtentsKey(i)] == SpansText(extents[i]) {
      ExtentsKeyClean(i);
    }
    FilesNeedBacking(values, extents, l, onDisk, |onDisk|);
  }

  // ----- any manifest -----

  lemma {:induction false} FilesAreSafe(values: map<string, string>, l: Layout, onDisk: seq<Option<u64>>, n: nat)
    requires n <= |l.fileLengths| == |onDisk|
    ensures match RestoreFiles(values, l, onDisk, n)
            case None => true
            case Some(p) =>
              && |p.extents| == n && p.stored == TotalOf(p.extents)
              && forall i | 0 <= i < n :: Backed(p.extents[i], l.fileLengths[i], onDisk[i])
  {
    hide RestoreFile, Backed, ExtentsKey;
    if n > 0 {
      FilesAreSafe(values, l, onDisk, n - 1);
      match RestoreFiles(values, l, onDisk, n - 1)
      case None =>
      case Some(p) =>
        if NextFile(p, l, onDisk, n - 1).Some? {
          var raw := p.rest[ExtentsKey(n - 1)];
          FileIsSafe(raw, l.fileLengths[n - 1], onDisk[n - 1]);
          var spans := RestoreFile(raw, l.fileLengths[n - 1], onDisk[n - 1]).value;
          assert (p.extents + [spans])[..n - 1] == p.extents;
        }
    }
  }

  lemma FileIsSafe(raw: string, length: u64, onDisk: Option<u64>)
    ensures RestoreFile(raw, length, onDisk).Some? ==> Backed(RestoreFile(raw, length, onDisk).value, length, onDisk)
  {
    hide ParseSpans, WellFormed;
    if RestoreFile(raw, length, onDisk).Some? {
      var recorded := ParseSpans(raw).value;
      JoinAllCovers(recorded);
      var spans := JoinAll(recorded);
      if spans != [] {
        CanonicalSize(spans);
        FirstSpan(spans);
        assert spans[0].start in Covered(spans);
      }
    }
  }

  /** Whatever the manifest says, what is recovered lies inside each file and inside what its data file holds. */
  lemma RestoreIsSafe(text: string, l: Layout, onDisk: seq<Option<u64>>)
    requires |l.fileLengths| == |onDisk|
    ensures match Restore(text, l, onDisk)
            case None => true
            case Some(r) => AllBacked(r.extents, l, onDisk) && r.stored == TotalOf(r.extents)
                            && |r.completed| == l.pieceCount as int
  {
    hide Backed, Lines, RestoreFiles, ParseU64, ParseNumbers, TotalOf;
    match Collect(Lines(text))
    case None =>
    case Some(m) => FilesAreSafe(m - {VERSION, PIECE_LENGTH, FILES, PIECES}, l, onDisk, |onDisk|);
  }
}
