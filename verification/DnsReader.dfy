/**
 * A reader of whole packets that knows every kind of record (section 4.1 of RFC 1035, RFC 2782 for services, RFC 3596
 * for IPv6 addresses), and what it finds in packed messages: every question and record, with all its data.
 */
module DnsReader {
  import opened Bytes
  import opened Dns
  import opened DnsRoundTrip

  // ----- the reader -----

  datatype Field =
    | Pointer(target: seq<bytes>)
    | Service(priority: u16, weight: u16, port: u16, server: seq<bytes>)
    | Texts(strings: seq<bytes>)
    | Address4(octets: bytes)
    | Address6(octets: bytes)
    | Unknown

  datatype Entry = Entry(name: seq<bytes>, classCode: u16, ttl: u32, field: Field)

  datatype Asked = Asked(name: seq<bytes>, kind: u16, classCode: u16)

  datatype Packet = Packet(
    id: u16, flags: u16, questions: seq<Asked>, answers: seq<Entry>, authority: seq<Entry>, additional: seq<Entry>)

  /** Labels up to a zero byte; two leading one bits mark a pointer, and other leading bits than zeros are reserved. */
  function NameOf(d: bytes, at: nat, limit: nat): Option<(seq<bytes>, nat)>
    decreases limit
  {
    if limit == 0 || at >= |d| then None else
    var b := d[at];
    if b == 0 then Some(([], at + 1))
    else if b < 64 then
      if at + 1 + b > |d| then None else
      match NameOf(d, at + 1 + b, limit - 1)
      case None => None
      case Some((labels, next)) => Some(([d[at + 1..at + 1 + b]] + labels, next))
    else if b < 192 || at + 2 > |d| then None
    else
      match NameOf(d, (b - 192) as int * 256 + d[at + 1] as int, limit - 1)
      case None => None
      case Some((labels, _)) => Some((labels, at + 2))
  }

  /** Strings, each behind its length, that just fill the bytes up to `end`. */
  function TextsOf(d: bytes, at: nat, end: nat): Option<seq<bytes>>
    requires at <= end <= |d|
    decreases end - at
  {
    if at == end then Some([]) else
    var n := d[at];
    if at + 1 + n > end then None else
    match TextsOf(d, at + 1 + n, end)
    case None => None
    case Some(rest) => Some([d[at + 1..at + 1 + n]] + rest)
  }

  function FieldOf(d: bytes, kind: u16, at: nat, end: nat, limit: nat): Option<Field>
    requires at <= end <= |d|
  {
    if kind == 12 then
      var name := NameOf(d, at, limit);
      if name.None? || name.value.1 != end then None else Some(Pointer(name.value.0))
    else if kind == 33 then
      if end < at + 6 then None else
      var name := NameOf(d, at + 6, limit);
      if name.None? || name.value.1 != end then None else
      Some(Service(ReadBe16(d, at), ReadBe16(d, at + 2), ReadBe16(d, at + 4), name.value.0))
    else if kind == 16 then
      match TextsOf(d, at, end) case None => None case Some(strings) => Some(Texts(strings))
    else if kind == 1 then if end != at + 4 then None else Some(Address4(d[at..end]))
    else if kind == 28 then if end != at + 16 then None else Some(Address6(d[at..end]))
    else Some(Unknown)
  }

  function EntryOf(d: bytes, at: nat, limit: nat): Option<(Entry, nat)> {
    match NameOf(d, at, limit)
    case None => None
    case Some((name, next)) =>
      if next + 10 > |d| then None else
      var end := next + 10 + ReadBe16(d, next + 8) as nat;
      if end > |d| then None else
      match FieldOf(d, ReadBe16(d, next), next + 10, end, limit)
      case None => None
      case Some(field) => Some((Entry(name, ReadBe16(d, next + 2), ReadBe32(d, next + 4), field), end))
  }

  function EntriesOf(d: bytes, at: nat, count: nat, limit: nat): Option<(seq<Entry>, nat)>
    decreases count
  {
    if count == 0 then Some(([], at)) else
    match EntryOf(d, at, limit)
    case None => None
    case Some((first, next)) =>
      match EntriesOf(d, next, count - 1, limit)
      case None => None
      case Some((rest, end)) => Some(([first] + rest, end))
  }

  function AskedOf(d: bytes, at: nat, limit: nat): Option<(Asked, nat)> {
    match NameOf(d, at, limit)
    case None => None
    case Some((name, next)) =>
      if next + 4 > |d| then None else Some((Asked(name, ReadBe16(d, next), ReadBe16(d, next + 2)), next + 4))
  }

  function AllAskedOf(d: bytes, at: nat, count: nat, limit: nat): Option<(seq<Asked>, nat)>
    decreases count
  {
    if count == 0 then Some(([], at)) else
    match AskedOf(d, at, limit)
    case None => None
    case Some((first, next)) =>
      match AllAskedOf(d, next, count - 1, limit)
      case None => None
      case Some((rest, end)) => Some(([first] + rest, end))
  }

  /** The whole packet; nothing may be left over. */
  function ReadAll(d: bytes, limit: nat): Option<Packet> {
    if |d| < 12 then None else
    match AllAskedOf(d, 12, ReadBe16(d, 4), limit)
    case None => None
    case Some((questions, a)) =>
      match EntriesOf(d, a, ReadBe16(d, 6), limit)
      case None => None
      case Some((answers, b)) =>
        match EntriesOf(d, b, ReadBe16(d, 8), limit)
        case None => None
        case Some((authority, c)) =>
          match EntriesOf(d, c, ReadBe16(d, 10), limit)
          case None => None
          case Some((additional, end)) =>
            if end != |d| then None
            else Some(Packet(ReadBe16(d, 0), ReadBe16(d, 2), questions, answers, authority, additional))
  }

  // ----- what should come back -----

  predicate SameLabels(found: seq<bytes>, name: bytes, exact: bool) {
    LowerAll(found) == LowerAll(Labels(name)) && (exact ==> found == Labels(name))
  }

  /** Texts are cut at 255 bytes. */
  function Cut(strings: seq<bytes>): (r: seq<bytes>)
    ensures |r| == |strings| && forall i | 0 <= i < |strings| :: r[i] == strings[i][..Min(|strings[i]|, 255)]
  {
    seq(|strings|, i requires 0 <= i < |strings| => strings[i][..Min(|strings[i]|, 255)])
  }

  /** The data found is the data of the record; a server's name comes back exactly, as it is never shortened. */
  predicate SameField(found: Field, data: Data, exact: bool) {
    match data
    case Ptr(target) => found.Pointer? && SameLabels(found.target, target, exact)
    case Srv(port, server) => found == Service(0, 0, port, Labels(server))
    case Txt(strings) => found == Texts(Cut(strings))
    case A(octets) => found == Address4(octets)
    case Aaaa(octets) => found == Address6(octets)
  }

  predicate SameEntry(found: Entry, r: Record, exact: bool) {
    SameLabels(found.name, r.name, exact) && found.classCode == r.classCode && found.ttl == r.ttl
    && SameField(found.field, r.data, exact)
  }

  ghost predicate SameEntries(found: seq<Entry>, rs: seq<Record>, exact: bool) {
    |found| == |rs| && forall i | 0 <= i < |rs| :: SameEntry(found[i], rs[i], exact)
  }

  predicate SameAsked(found: Asked, q: Question, exact: bool) {
    SameLabels(found.name, q.name, exact) && found.kind == q.kind && found.classCode == q.classCode
  }

  ghost predicate AllSameAsked(found: seq<Asked>, qs: seq<Question>, exact: bool) {
    |found| == |qs| && forall i | 0 <= i < |qs| :: SameAsked(found[i], qs[i], exact)
  }

  ghost predicate SamePacket(found: Packet, m: Message, exact: bool) {
    && found.id == m.id && ParseFlags(found.flags) == m.flags
    && AllSameAsked(found.questions, m.questions, exact)
    && SameEntries(found.answers, m.answers, exact) && SameEntries(found.authority, m.authority, exact)
    && SameEntries(found.additional, m.additional, exact)
  }

  // ----- names -----

  predicate AllFit(labels: seq<bytes>) { forall l | l in labels :: |l| <= 63 }

  lemma FirstFits(l: bytes, rest: seq<bytes>)
    requires AllFit([l] + rest)
    ensures |l| <= 63 && AllFit(rest)
  {
    assert ([l] + rest)[0] == l;
    assert forall x | x in rest :: x in [l] + rest;
  }

  /** On names of labels that fit, the reader agrees with the one of the responder. */
  lemma {:induction false} NameAgrees(d: bytes, at: nat, limit: nat)
    requires ReadFrom(d, at, limit).Some? && AllFit(ReadFrom(d, at, limit).value.labels)
    ensures var r := ReadFrom(d, at, limit).value; NameOf(d, at, limit) == Some((r.labels, r.next))
    decreases limit
  {
    hide AllFit;
    var b := d[at];
    if b >= 192 {
      var rest := ReadFrom(d, PointerAt(d, at), limit - 1);
      assert rest.Some? && [] + rest.value.labels == rest.value.labels;
      NameAgrees(d, PointerAt(d, at), limit - 1);
    } else if b != 0 {
      var rest := ReadFrom(d, at + 1 + b, limit - 1);
      FirstFits(d[at + 1..at + 1 + b], rest.value.labels);
      NameAgrees(d, at + 1 + b, limit - 1);
    }
  }

  lemma LowerFits(a: seq<bytes>, b: seq<bytes>)
    requires LowerAll(a) == LowerAll(b) && AllFit(b)
    ensures AllFit(a)
  {
    forall l | l in a ensures |l| <= 63 {
      var i :| 0 <= i < |a| && a[i] == l;
      assert |LowerAll(a)| == |LowerAll(b)|;
      assert Lower(a[i]) == LowerAll(a)[i] == LowerAll(b)[i] == Lower(b[i]);
      assert b[i] in b;
    }
  }

  /** A name with at most `most` labels takes at most this many steps, pointers included. */
  function Enough(most: nat): nat { 2 * most + 1 }

  predicate Fits(name: bytes, most: nat) { NameShaped(name) && |Labels(name)| <= most }

  /** A written name is found again wherever the packet goes on. */
  lemma NameFound(p: bytes, d: bytes, f: Filing, name: bytes, compressible: bool, more: bytes, most: nat)
    requires FileOk(d, f) && Fits(name, most)
    requires p == d + WriteLabels(f.names, |d|, Labels(name), compressible).bytes + more
    ensures var w := WriteLabels(f.names, |d|, Labels(name), compressible);
            var r := NameOf(p, |d|, Enough(most));
            && FileOk(d + w.bytes, AfterName(f, |d|, name, compressible))
            && (f.names.Some? <==> w.names.Some?)
            && r.Some? && r.value.1 == |d| + |w.bytes|
            && SameLabels(r.value.0, name, f.names.None? || !compressible)
  {
    hide ReadFrom, NameOf, WriteLabels, EntryOk, Key, Labels, NameHops;
    var labels := Labels(name);
    var w := WriteLabels(f.names, |d|, labels, compressible);
    ShapedIsGood(name);
    FileIsFiledFor(d, f, labels);
    NameWritten(d, f, labels, compressible);
    FileStays(d, w.bytes, f, w.names, NameHops(f, labels, compressible));
    HopsAtMost(d, f, labels, compressible);
    var steps := Steps(f, labels, compressible);
    ReadLonger(d + w.bytes, |d|, steps, Enough(most));
    ReadStable(d + w.bytes, more, |d|, Enough(most));
    LowerFits(ReadFrom(p, |d|, Enough(most)).value.labels, labels);
    NameAgrees(p, |d|, Enough(most));
  }

  // ----- data -----

  lemma {:induction false} TextsFound(p: bytes, at: nat, end: nat, strings: seq<bytes>)
    requires at <= end <= |p| && p[at..end] == WriteTexts(strings)
    ensures TextsOf(p, at, end) == Some(Cut(strings))
    decreases |strings|
  {
    if strings == [] {
      assert at == end;
    } else {
      var n := Min(|strings[0]|, 255);
      var d := p[at..end];
      assert d[0] == n && d[1..1 + n] == strings[0][..n] && d[1 + n..] == WriteTexts(strings[1..]);
      assert p[at] == d[0];
      SliceOfSlice(p, at, end, 1, 1 + n);
      SliceOfSlice(p, at, end, 1 + n, end - at);
      TextsFound(p, at + 1 + n, end, strings[1..]);
      assert Cut(strings) == [strings[0][..n]] + Cut(strings[1..]);
    }
  }

  predicate DataFits(d: Data, most: nat) {
    && (d.Ptr? ==> Fits(d.target, most))
    && (d.Srv? ==> Fits(d.server, most))
  }

  lemma ServiceHead(p: bytes, d: bytes, port: u16, more: bytes)
    requires p == d + ([0, 0, 0, 0] + Be16(port)) + more
    ensures ReadBe16(p, |d|) == 0 && ReadBe16(p, |d| + 2) == 0 && ReadBe16(p, |d| + 4) == port
  {
    assert p[|d|..|d| + 2] == Be16(0) && p[|d| + 2..|d| + 4] == Be16(0) && p[|d| + 4..|d| + 6] == Be16(port);
    ReadBe16Inverts(p, |d|, 0);
    ReadBe16Inverts(p, |d| + 2, 0);
    ReadBe16Inverts(p, |d| + 4, port);
  }

  /** The data of every kind of record is found. */
  lemma DataFound(p: bytes, d: bytes, f: Filing, data: Data, more: bytes, most: nat, end: nat)
    requires FileOk(d, f) && DataShaped(data) && DataFits(data, most)
    requires p == d + WriteData(f.names, |d|, data).bytes + more && |d| <= end && end + |more| == |p|
    ensures var r := FieldOf(p, Kind(data), |d|, end, Enough(most)); r.Some? && SameField(r.value, data, f.names.None?)
  {
    hide NameOf, WriteLabels, FileOk, WriteTexts, Labels, Fits, Be16, ReadBe16, NameSize, NameShaped;
    var w := WriteData(f.names, |d|, data);
    match data
    case Ptr(target) => NameFound(p, d, f, target, true, more, most);
    case Srv(port, server) =>
      var head := [0, 0, 0, 0] + Be16(port);
      var name := WriteLabels(f.names, |d| + 6, Labels(server), false);
      assert |d + head| == |d| + 6;
      assert p == d + head + (name.bytes + more) && p == d + head + name.bytes + more;
      FileExtends(d, head, f);
      ServiceHead(p, d, port, name.bytes + more);
      NameFound(p, d + head, f, server, false, more, most);
    case Txt(strings) =>
      assert p[|d|..|d| + |w.bytes|] == w.bytes;
      TextsFound(p, |d|, |d| + |w.bytes|, strings);
    case A(octets) => assert p[|d|..|d| + 4] == octets;
    case Aaaa(octets) => assert p[|d|..|d| + 16] == octets;
  }

  // ----- records -----

  predicate RecordFits(r: Record, most: nat) { Fits(r.name, most) && DataFits(r.data, most) }

  lemma EntryFound(p: bytes, d: bytes, f: Filing, r: Record, more: bytes, most: nat)
    requires FileOk(d, f) && RecordShaped(r) && RecordFits(r, most)
    requires p == d + WriteRecord(f.names, |d|, r).bytes + more
    ensures var w := WriteRecord(f.names, |d|, r);
            var e := EntryOf(p, |d|, Enough(most));
            && FileOk(d + w.bytes, AfterRecord(f, |d|, r)) && AfterRecord(f, |d|, r).names == w.names
            && (f.names.Some? <==> w.names.Some?)
            && e.Some? && e.value.1 == |d| + |w.bytes| && SameEntry(e.value.0, r, f.names.None?)
  {
    hide WriteLabels, FileOk, NameOf, FieldOf, SameField, Fixed, ReadBe16, ReadBe32, Labels, NameShaped, WriteRecord,
      WriteTexts, DataShaped, DataFits, AfterName, AfterData, WriteData, Fits, SameLabels, Kind;
    var name := WriteLabels(f.names, |d|, Labels(r.name), true);
    var g := AfterName(f, |d|, r.name, true);
    AfterNameNames(f, |d|, r.name, true);
    var data := WriteData(g.names, |d| + |name.bytes| + 10, r.data);
    var fixed := Fixed(Kind(r.data), r.classCode, r.ttl, Saturated(|data.bytes|));
    RecordParts(f.names, d, r);
    var front := d + name.bytes;
    assert p == front + (fixed + data.bytes + more);
    NameFound(p, d, f, r.name, true, fixed + data.bytes + more, most);
    FileExtends(front, fixed, g);
    DataLength(g.names, |front + fixed|, r.data);
    DataFiled(front + fixed, g, r.data);
    assert p == front + fixed + (data.bytes + more);
    ReadsFixed(p, front, Kind(r.data), r.classCode, r.ttl, |data.bytes|, data.bytes + more);
    assert p == front + fixed + data.bytes + more;
    DataFound(p, front + fixed, g, r.data, more, most, |front + fixed| + |data.bytes|);
  }

  lemma {:induction false} EntriesFound(p: bytes, d: bytes, f: Filing, rs: seq<Record>, most: nat)
    requires FileOk(d, f) && forall r | r in rs :: RecordShaped(r) && RecordFits(r, most)
    requires p == d + WriteRecords(f.names, |d|, rs).bytes
    ensures var e := EntriesOf(p, |d|, |rs|, Enough(most));
            e.Some? && e.value.1 == |p| && SameEntries(e.value.0, rs, f.names.None?)
    decreases |rs|
  {
    hide WriteRecord, FileOk, EntryOf, RecordShaped, RecordFits, SameEntry, AfterRecord;
    if rs != [] {
      var first := WriteRecord(f.names, |d|, rs[0]);
      var rest := WriteRecords(first.names, |d| + |first.bytes|, rs[1..]);
      assert rs[0] in rs && forall r | r in rs[1..] :: r in rs;
      assert d + (first.bytes + rest.bytes) == d + first.bytes + rest.bytes;
      EntryFound(p, d, f, rs[0], rest.bytes, most);
      EntriesFound(p, d + first.bytes, AfterRecord(f, |d|, rs[0]), rs[1..], most);
    }
  }

  /** Entries found in two stretches. */
  lemma {:induction false} EntriesSplit(d: bytes, at: nat, m: nat, n: nat, limit: nat)
    ensures EntriesOf(d, at, m + n, limit) ==
            match EntriesOf(d, at, m, limit)
            case None => None
            case Some((first, next)) =>
              match EntriesOf(d, next, n, limit)
              case None => None
              case Some((rest, end)) => Some((first + rest, end))
    ensures EntriesOf(d, at, m, limit).Some? ==> |EntriesOf(d, at, m, limit).value.0| == m
    decreases m
  {
    hide EntryOf;
    if m == 0 {
      if EntriesOf(d, at, n, limit).Some? { assert [] + EntriesOf(d, at, n, limit).value.0 == EntriesOf(d, at, n, limit).value.0; }
    } else if EntryOf(d, at, limit).Some? {
      var (e, next) := EntryOf(d, at, limit).value;
      EntriesSplit(d, next, m - 1, n, limit);
      if EntriesOf(d, at, m + n, limit).Some? {
        var (first, mid) := EntriesOf(d, next, m - 1, limit).value;
        var (rest, _) := EntriesOf(d, mid, n, limit).value;
        assert [e] + (first + rest) == [e] + first + rest;
      }
    }
  }

  // ----- questions -----

  lemma AskedFound(p: bytes, d: bytes, f: Filing, q: Question, more: bytes, most: nat)
    requires FileOk(d, f) && Fits(q.name, most)
    requires p == d + WriteQuestion(f.names, |d|, q).bytes + more
    ensures var w := WriteQuestion(f.names, |d|, q);
            var a := AskedOf(p, |d|, Enough(most));
            && FileOk(d + w.bytes, AfterName(f, |d|, q.name, true)) && (f.names.Some? <==> w.names.Some?)
            && a.Some? && a.value.1 == |d| + |w.bytes| && SameAsked(a.value.0, q, f.names.None?)
  {
    hide WriteLabels, FileOk, NameOf, Be16, ReadBe16, Labels, AfterName, Fits, SameLabels;
    var name := WriteLabels(f.names, |d|, Labels(q.name), true);
    var w := WriteQuestion(f.names, |d|, q);
    var tail := Be16(q.kind) + Be16(q.classCode);
    assert w.bytes == name.bytes + tail;
    assert p == d + name.bytes + (tail + more);
    assert p == d + (name.bytes + Be16(q.kind) + Be16(q.classCode)) + more;
    NameFound(p, d, f, q.name, true, tail + more, most);
    ReadsFields(p, d, name.bytes, q.kind, q.classCode, more);
    FileExtends(d + name.bytes, tail, AfterName(f, |d|, q.name, true));
    assert d + name.bytes + tail == d + w.bytes;
  }

  lemma {:induction false} AllAskedFound(p: bytes, d: bytes, f: Filing, qs: seq<Question>, more: bytes, most: nat)
    requires FileOk(d, f) && forall q | q in qs :: Fits(q.name, most)
    requires p == d + WriteQuestions(f.names, |d|, qs).bytes + more
    ensures var w := WriteQuestions(f.names, |d|, qs);
            var a := AllAskedOf(p, |d|, |qs|, Enough(most));
            a.Some? && a.value.1 == |d| + |w.bytes| && AllSameAsked(a.value.0, qs, f.names.None?)
    decreases |qs|
  {
    hide WriteQuestion, FileOk, AskedOf, Fits, SameAsked, AfterName;
    if qs != [] {
      var first := WriteQuestion(f.names, |d|, qs[0]);
      var e := d + first.bytes;
      var rest := WriteQuestions(first.names, |e|, qs[1..]);
      FirstQuestion(f, |d|, qs[0]);
      assert qs[0] in qs && forall q | q in qs[1..] :: q in qs;
      QuestionsParts(p, d, f.names, qs, more);
      AskedFound(p, d, f, qs[0], rest.bytes + more, most);
      AllAskedFound(p, e, AfterName(f, |d|, qs[0].name, true), qs[1..], more, most);
    }
  }

  // ----- whole packets -----

  /** Every name of the message has at most `most` labels. */
  ghost predicate MessageFits(m: Message, most: nat) {
    && (forall q | q in m.questions :: Fits(q.name, most))
    && (forall r | r in Records(m) :: RecordFits(r, most))
  }

  lemma ThreeSections(p: bytes, at: nat, m: Message, found: seq<Entry>, limit: nat, exact: bool)
    requires EntriesOf(p, at, |Records(m)|, limit) == Some((found, |p|)) && SameEntries(found, Records(m), exact)
    ensures var a := EntriesOf(p, at, |m.answers|, limit);
            && a.Some? && SameEntries(a.value.0, m.answers, exact)
            && var b := EntriesOf(p, a.value.1, |m.authority|, limit);
               && b.Some? && SameEntries(b.value.0, m.authority, exact)
               && var c := EntriesOf(p, b.value.1, |m.additional|, limit);
                  c.Some? && c.value.1 == |p| && SameEntries(c.value.0, m.additional, exact)
  {
    hide EntriesOf, SameEntry;
    EntriesSplit(p, at, |m.answers| + |m.authority|, |m.additional|, limit);
    EntriesSplit(p, at, |m.answers|, |m.authority|, limit);
    var (first, b) := EntriesOf(p, at, |m.answers|, limit).value;
    var (second, c) := EntriesOf(p, b, |m.authority|, limit).value;
    var (third, _) := EntriesOf(p, c, |m.additional|, limit).value;
    assert found == first + second + third;
    EntriesSplit(p, b, |m.authority|, 0, limit);
    forall i | 0 <= i < |m.answers| ensures SameEntry(first[i], m.answers[i], exact) {
      assert found[i] == first[i] && Records(m)[i] == m.answers[i];
    }
    forall i | 0 <= i < |m.authority| ensures SameEntry(second[i], m.authority[i], exact) {
      assert found[|first| + i] == second[i] && Records(m)[|first| + i] == m.authority[i];
    }
    assert |third| == |m.additional|;
    forall i | 0 <= i < |m.additional| ensures SameEntry(third[i], m.additional[i], exact) {
      assert found[|first| + |second| + i] == third[i] && Records(m)[|first| + |second| + i] == m.additional[i];
    }
  }

  /** The most labels of any name among the questions. */
  function MostAsked(qs: seq<Question>): (n: nat)
    ensures forall q | q in qs :: |Labels(q.name)| <= n
  {
    if qs == [] then 0 else
    assert forall q | q in qs :: q == qs[0] || q in qs[1..];
    Max(|Labels(qs[0].name)|, MostAsked(qs[1..]))
  }

  function DataLabels(d: Data): nat {
    if d.Ptr? then |Labels(d.target)| else if d.Srv? then |Labels(d.server)| else 0
  }

  function MostRecorded(rs: seq<Record>): (n: nat)
    ensures forall r | r in rs :: |Labels(r.name)| <= n && DataLabels(r.data) <= n
  {
    if rs == [] then 0 else
    assert forall r | r in rs :: r == rs[0] || r in rs[1..];
    Max(Max(|Labels(rs[0].name)|, DataLabels(rs[0].data)), MostRecorded(rs[1..]))
  }

  function MostLabels(m: Message): nat { Max(MostAsked(m.questions), MostRecorded(Records(m))) }

  lemma EveryMessageFits(m: Message)
    requires MessageShaped(m)
    ensures MessageFits(m, MostLabels(m))
  {
    hide Labels, WriteTexts, NameSize;
    forall r | r in Records(m) ensures RecordFits(r, MostLabels(m)) { assert RecordShaped(r); }
  }

  /**
   * A reader that follows as many pointers as it takes finds every question and every record of a packed message, with
   * its type, class, time to live and all its data: names up to the case of ASCII letters, exactly when suffixes are not
   * shared, and texts cut at 255 bytes.
   */
  lemma PackedIsFound(m: Message, compress: bool)
    requires MessageShaped(m)
    ensures var found := ReadAll(Pack(m, compress), Enough(MostLabels(m)));
            found.Some? && SamePacket(found.value, m, !compress)
  {
    hide MessageShaped, MessageFits, MostLabels, ReadAll, Pack, SamePacket;
    EveryMessageFits(m);
    FoundWithin(m, compress, MostLabels(m));
  }

  lemma FoundWithin(m: Message, compress: bool, most: nat)
    requires MessageShaped(m) && MessageFits(m, most)
    ensures var found := ReadAll(Pack(m, compress), Enough(most)); found.Some? && SamePacket(found.value, m, !compress)
  {
    hide WriteHeader, WriteQuestions, WriteRecords, FileOk, AllAskedOf, EntriesOf, ReadBe16, FlagWord, ParseFlags,
      AllSameAsked, SameEntries, RecordShaped, NameShaped, RecordFits, Fits, AfterQuestions;
    var p := Pack(m, compress);
    var f := StartOf(compress);
    var head := WriteHeader(m);
    var questions := WriteQuestions(f.names, 12, m.questions);
    var records := WriteRecords(questions.names, 12 + |questions.bytes|, Records(m));
    assert FileOk(head, f) by { EmptyFile(head, compress); }
    assert p == head + (questions.bytes + records.bytes);
    assert p == head + questions.bytes + records.bytes;
    HeaderReads(m, p, questions.bytes + records.bytes);
    FlagsInvert(m.flags);
    forall q | q in m.questions ensures NameShaped(q.name) {}
    QuestionsFiled(head, f, m.questions);
    AllAskedFound(p, head, f, m.questions, records.bytes, most);
    EntriesFound(p, head + questions.bytes, AfterQuestions(f, 12, m.questions), Records(m), most);
    var (found, end) := EntriesOf(p, 12 + |questions.bytes|, |Records(m)|, Enough(most)).value;
    ThreeSections(p, 12 + |questions.bytes|, m, found, Enough(most), !compress);
  }
}
