/** Every pointer in a packet leads strictly back, to a name with the same labels up to the case of ASCII letters. */
module DnsPointers {
  import opened Bytes
  import opened Dns
  import opened DnsRoundTrip

  // ----- where pointers are written -----

  /** A pointer written at `at` in place of `labels`. */
  datatype Pointer = Pointer(at: nat, labels: seq<bytes>)

  /** The pointer a name ends with when it is written at `pos`, if it is shortened. */
  function NamePointers(names: Names, pos: nat, labels: seq<bytes>, compressible: bool): seq<Pointer>
    decreases |labels|
  {
    if labels == [] then []
    else if StartsShort(names, labels, compressible) then [Pointer(pos, labels)]
    else NamePointers(Registered(names, Key(labels), pos), pos + |LabelBytes(labels[0])|, labels[1..], compressible)
  }

  function QuestionPointers(names: Names, pos: nat, qs: seq<Question>): seq<Pointer>
    decreases |qs|
  {
    if qs == [] then [] else
    var first := WriteQuestion(names, pos, qs[0]);
    NamePointers(names, pos, Labels(qs[0].name), true) + QuestionPointers(first.names, pos + |first.bytes|, qs[1..])
  }

  function DataPointers(names: Names, pos: nat, d: Data): seq<Pointer> {
    match d
    case Ptr(target) => NamePointers(names, pos, Labels(target), true)
    case Srv(_, server) => NamePointers(names, pos + 6, Labels(server), false)
    case _ => []
  }

  function RecordPointers(names: Names, pos: nat, r: Record): seq<Pointer> {
    var name := WriteLabels(names, pos, Labels(r.name), true);
    NamePointers(names, pos, Labels(r.name), true) + DataPointers(name.names, pos + |name.bytes| + 10, r.data)
  }

  function AllRecordPointers(names: Names, pos: nat, rs: seq<Record>): seq<Pointer>
    decreases |rs|
  {
    if rs == [] then [] else
    var first := WriteRecord(names, pos, rs[0]);
    RecordPointers(names, pos, rs[0]) + AllRecordPointers(first.names, pos + |first.bytes|, rs[1..])
  }

  /** All pointers of a packed message, in the order they are written. */
  function MessagePointers(m: Message): seq<Pointer> {
    var questions := WriteQuestions(Some(map[]), 12, m.questions);
    QuestionPointers(Some(map[]), 12, m.questions)
    + AllRecordPointers(questions.names, 12 + |questions.bytes|, Records(m))
  }

  /** Labels one after the other. */
  function Plain(labels: seq<bytes>): bytes {
    if labels == [] then [] else LabelBytes(labels[0]) + Plain(labels[1..])
  }

  /** A written name is its labels up to a pointer, listed where it stands, or all of them and the end. */
  lemma {:induction false} NameShape(names: Names, pos: nat, labels: seq<bytes>, compressible: bool) returns (i: nat)
    ensures i <= |labels|
    ensures var w, listed := WriteLabels(names, pos, labels, compressible).bytes, NamePointers(names, pos, labels, compressible);
            if i == |labels| then listed == [] && w == Plain(labels) + [0]
            else listed == [Pointer(pos + |Plain(labels[..i])|, labels[i..])] && |w| == |Plain(labels[..i])| + 2
                 && w[..|w| - 2] == Plain(labels[..i])
    decreases |labels|
  {
    hide Key, LabelBytes;
    i := 0;
    if labels == [] {
    } else if StartsShort(names, labels, compressible) {
      assert labels[..0] == [] && labels[0..] == labels;
    } else {
      var lb := LabelBytes(labels[0]);
      var more := Registered(names, Key(labels), pos);
      var j := NameShape(more, pos + |lb|, labels[1..], compressible);
      i := j + 1;
      var rest := WriteLabels(more, pos + |lb|, labels[1..], compressible).bytes;
      if i == |labels| {
        assert lb + (Plain(labels[1..]) + [0]) == lb + Plain(labels[1..]) + [0];
      } else {
        assert labels[..i][0] == labels[0] && labels[..i][1..] == labels[1..][..j] && labels[1..][j..] == labels[i..];
        assert (lb + rest)[..|lb + rest| - 2] == lb + rest[..|rest| - 2];
      }
    }
  }

  // ----- where they lead -----

  ghost predicate LeadsBack(p: bytes, x: Pointer) {
    && x.labels != [] && x.at + 1 < |p| && p[x.at] >= 0xC0 && PointerAt(p, x.at) < x.at
    && var r := ReadFrom(p, PointerAt(p, x.at), 2 * |x.labels|);
       r.Some? && LowerAll(r.value.labels) == LowerAll(x.labels)
  }

  ghost predicate AllLeadBack(p: bytes, xs: seq<Pointer>) { forall x | x in xs :: LeadsBack(p, x) }

  lemma TwoLists(p: bytes, a: seq<Pointer>, b: seq<Pointer>)
    requires AllLeadBack(p, a) && AllLeadBack(p, b)
    ensures AllLeadBack(p, a + b)
  {
    hide LeadsBack;
  }

  /** What a shortened name stands for was filed, so it is readable in the bytes before. */
  lemma ShortNameFiled(d: bytes, f: Filing, labels: seq<bytes>) returns (pos: nat, steps: nat)
    requires Good(labels) && FileOkFor(d, f, labels) && StartsShort(f.names, labels, true)
    ensures pos < SHARE_LIMIT && WriteLabels(f.names, |d|, labels, true).bytes == Be16(0xC000 + pos)
    ensures steps <= 2 * |labels| && ReadFrom(d, pos, steps).Some?
    ensures LowerAll(ReadFrom(d, pos, steps).value.labels) == LowerAll(labels)
  {
    hide Key, Split, ReadFrom;
    pos := f.names.value[Key(labels)];
    steps := |labels| + 1 + Hops(f, Key(labels));
    assert labels[0..] == labels;
    assert EntryOk(d, pos, Key(labels), Hops(f, Key(labels)));
    KeyLabels(labels);
  }

  /** One pointer. */
  lemma ShortNameLeads(p: bytes, d: bytes, f: Filing, labels: seq<bytes>, more: bytes)
    requires Good(labels) && FileOkFor(d, f, labels) && StartsShort(f.names, labels, true)
    requires p == d + WriteLabels(f.names, |d|, labels, true).bytes + more
    ensures LeadsBack(p, Pointer(|d|, labels))
  {
    hide Key, Split, ReadFrom, LabelBytes, PointerAt, Be16, FileOkFor, WriteLabels;
    var pos, steps := ShortNameFiled(d, f, labels);
    var tail := Be16(0xC000 + pos) + more;
    assert p == d + tail;
    PointerWritten(p, d, pos, more);
    PositionInside(d, pos, steps);
    ReadStable(d, tail, pos, steps);
    ReadLonger(p, pos, steps, 2 * |labels|);
  }

  lemma PointerWritten(p: bytes, d: bytes, pos: nat, more: bytes)
    requires pos < SHARE_LIMIT && p == d + (Be16(0xC000 + pos) + more)
    ensures |d| + 1 < |p| && p[|d|] >= 0xC0 && PointerAt(p, |d|) == pos
  {
    assert p[|d|] == 0xC0 + pos / 0x100 && p[|d| + 1] == pos % 0x100;
  }

  lemma PositionInside(d: bytes, pos: nat, fuel: nat)
    requires ReadFrom(d, pos, fuel).Some?
    ensures pos < |d|
  {}

  lemma {:induction false} NameLeads(p: bytes, d: bytes, f: Filing, labels: seq<bytes>, compressible: bool, more: bytes)
    requires Good(labels) && FileOkFor(d, f, labels)
    requires p == d + WriteLabels(f.names, |d|, labels, compressible).bytes + more
    ensures AllLeadBack(p, NamePointers(f.names, |d|, labels, compressible))
    decreases |labels|
  {
    hide Key, LabelBytes, FileOkFor, LeadsBack;
    if labels == [] {
    } else if StartsShort(f.names, labels, compressible) {
      ShortNameLeads(p, d, f, labels, more);
    } else {
      var lb := LabelBytes(labels[0]);
      var g := f.(names := Registered(f.names, Key(labels), |d|));
      var rest := WriteLabels(g.names, |d + lb|, labels[1..], compressible).bytes;
      RestFile(d, lb, f, |d|, labels);
      assert forall l | l in labels[1..] :: l in labels;
      assert p == d + lb + rest + more;
      NameLeads(p, d + lb, g, labels[1..], compressible, more);
    }
  }

  // ----- questions and records -----

  lemma {:induction false} QuestionsLead(p: bytes, d: bytes, f: Filing, qs: seq<Question>, more: bytes)
    requires FileOk(d, f) && forall q | q in qs :: NameShaped(q.name)
    requires p == d + WriteQuestions(f.names, |d|, qs).bytes + more
    ensures AllLeadBack(p, QuestionPointers(f.names, |d|, qs))
    decreases |qs|
  {
    hide WriteQuestion, FileOk, NameShaped, AfterName, LeadsBack, NamePointers, Labels, WriteQuestions;
    if qs != [] {
      var first := WriteQuestion(f.names, |d|, qs[0]);
      var e := d + first.bytes;
      FirstQuestion(f, |d|, qs[0]);
      var rest := WriteQuestions(first.names, |e|, qs[1..]);
      assert qs[0] in qs && forall q | q in qs[1..] :: q in qs;
      QuestionsParts(p, d, f.names, qs, more);
      QuestionLeads(p, d, f, qs[0], rest.bytes + more);
      QuestionInPacket(p, d, f, qs[0], rest.bytes + more);
      QuestionsLead(p, e, AfterName(f, |d|, qs[0].name, true), qs[1..], more);
      TwoLists(p, NamePointers(f.names, |d|, Labels(qs[0].name), true), QuestionPointers(first.names, |e|, qs[1..]));
    }
  }

  lemma QuestionLeads(p: bytes, d: bytes, f: Filing, q: Question, more: bytes)
    requires FileOk(d, f) && NameShaped(q.name)
    requires p == d + WriteQuestion(f.names, |d|, q).bytes + more
    ensures AllLeadBack(p, NamePointers(f.names, |d|, Labels(q.name), true))
  {
    hide FileOk, LeadsBack, NamePointers, Labels, WriteLabels, Be16;
    var name := WriteLabels(f.names, |d|, Labels(q.name), true).bytes;
    var tail := Be16(q.kind) + Be16(q.classCode);
    assert p == d + name + (tail + more);
    ShapedIsGood(q.name);
    FileIsFiledFor(d, f, Labels(q.name));
    NameLeads(p, d, f, Labels(q.name), true, tail + more);
  }

  /** Labels that fit, whatever the data is like. */
  predicate NamesShaped(r: Record) {
    && NameShaped(r.name)
    && match r.data
       case Ptr(target) => NameShaped(target)
       case Srv(_, server) => NameShaped(server)
       case _ => true
  }

  /** A name in the middle of a packet: its pointer, and the file of suffixes behind it. */
  lemma NameLeadsOn(p: bytes, d: bytes, f: Filing, name: bytes, compressible: bool, more: bytes)
    requires FileOk(d, f) && NameShaped(name)
    requires p == d + WriteLabels(f.names, |d|, Labels(name), compressible).bytes + more
    ensures AllLeadBack(p, NamePointers(f.names, |d|, Labels(name), compressible))
    ensures FileOk(d + WriteLabels(f.names, |d|, Labels(name), compressible).bytes, AfterName(f, |d|, name, compressible))
  {
    hide FileOk, LeadsBack, NamePointers, Labels, WriteLabels, AfterName, Steps, NameAt, SameName;
    ShapedIsGood(name);
    FileIsFiledFor(d, f, Labels(name));
    NameLeads(p, d, f, Labels(name), compressible, more);
    NameInPacket(p, d, f, name, compressible, more);
  }

  lemma DataLeads(p: bytes, d: bytes, f: Filing, data: Data, more: bytes)
    requires FileOk(d, f) && NamesShaped(Record([], 0, 0, data))
    requires p == d + WriteData(f.names, |d|, data).bytes + more
    ensures AllLeadBack(p, DataPointers(f.names, |d|, data))
    ensures FileOk(d + WriteData(f.names, |d|, data).bytes, AfterData(f, |d|, data))
  {
    hide WriteLabels, FileOk, LeadsBack, NamePointers, Labels, NameShaped, WriteTexts, Be16, AfterName;
    var w := WriteData(f.names, |d|, data);
    match data
    case Ptr(target) => NameLeadsOn(p, d, f, target, true, more);
    case Srv(port, server) =>
      var head := [0, 0, 0, 0] + Be16(port);
      var name := WriteLabels(f.names, |d| + 6, Labels(server), false).bytes;
      FileExtends(d, head, f);
      assert |d + head| == |d| + 6;
      assert d + w.bytes == d + head + name && p == d + head + name + more;
      NameLeadsOn(p, d + head, f, server, false, more);
    case _ => FileExtends(d, w.bytes, f);
  }

  lemma RecordLeads(p: bytes, d: bytes, f: Filing, r: Record, more: bytes)
    requires FileOk(d, f) && NamesShaped(r)
    requires p == d + WriteRecord(f.names, |d|, r).bytes + more
    ensures AllLeadBack(p, RecordPointers(f.names, |d|, r))
    ensures FileOk(d + WriteRecord(f.names, |d|, r).bytes, AfterRecord(f, |d|, r))
    ensures AfterRecord(f, |d|, r).names == WriteRecord(f.names, |d|, r).names
  {
    hide WriteLabels, FileOk, Fixed, Labels, NameShaped, WriteRecord, AfterName, AfterData, WriteData, LeadsBack,
      NamePointers, DataPointers;
    var name := WriteLabels(f.names, |d|, Labels(r.name), true);
    var g := AfterName(f, |d|, r.name, true);
    AfterNameNames(f, |d|, r.name, true);
    var front := d + name.bytes;
    var data := WriteData(g.names, |front| + 10, r.data);
    var fixed := Fixed(Kind(r.data), r.classCode, r.ttl, Saturated(|data.bytes|));
    RecordParts(f.names, d, r);
    assert p == front + (fixed + data.bytes + more);
    assert p == front + fixed + data.bytes + more;
    NameLeadsOn(p, d, f, r.name, true, fixed + data.bytes + more);
    FileExtends(front, fixed, g);
    assert NamesShaped(Record([], 0, 0, r.data)) by { NoLabels(); }
    DataLeads(p, front + fixed, g, r.data, more);
    AfterDataNames(g, |front| + 10, r.data);
    TwoLists(p, NamePointers(f.names, |d|, Labels(r.name), true), DataPointers(name.names, |front| + 10, r.data));
  }

  lemma NoLabels()
    ensures NameShaped([])
  {
    assert IndexOf([], DOT) == 0;
    assert Split([]) == [[]];
    assert NonEmpty([[]]) == [];
  }

  lemma AfterDataNames(f: Filing, pos: nat, d: Data)
    ensures AfterData(f, pos, d).names == WriteData(f.names, pos, d).names
  {}

  /** The first record and the bytes behind it. */
  lemma RecordsParts(p: bytes, d: bytes, names: Names, rs: seq<Record>)
    requires rs != [] && p == d + WriteRecords(names, |d|, rs).bytes
    ensures var first := WriteRecord(names, |d|, rs[0]);
            var e := d + first.bytes;
            var rest := WriteRecords(first.names, |e|, rs[1..]);
            p == d + first.bytes + rest.bytes && p == e + rest.bytes && |e| == |d| + |first.bytes|
  {
    hide WriteRecord;
  }

  lemma {:induction false} RecordsLead(p: bytes, d: bytes, f: Filing, rs: seq<Record>)
    requires FileOk(d, f) && forall r | r in rs :: NamesShaped(r)
    requires p == d + WriteRecords(f.names, |d|, rs).bytes
    ensures AllLeadBack(p, AllRecordPointers(f.names, |d|, rs))
    decreases |rs|
  {
    hide WriteRecord, WriteRecords, FileOk, NamesShaped, AfterRecord, LeadsBack, RecordPointers;
    if rs != [] {
      var first := WriteRecord(f.names, |d|, rs[0]);
      var e := d + first.bytes;
      assert rs[0] in rs && forall r | r in rs[1..] :: r in rs;
      RecordsParts(p, d, f.names, rs);
      RecordLeads(p, d, f, rs[0], WriteRecords(first.names, |e|, rs[1..]).bytes);
      RecordsLead(p, e, AfterRecord(f, |d|, rs[0]), rs[1..]);
      TwoLists(p, RecordPointers(f.names, |d|, rs[0]), AllRecordPointers(first.names, |e|, rs[1..]));
    }
  }

  /**
   * Every pointer in a packed message leads strictly back, to a name with the same labels up to case, whatever the
   * records carry.
   */
  lemma PointersGoBack(m: Message)
    requires (forall q | q in m.questions :: NameShaped(q.name)) && forall r | r in Records(m) :: NamesShaped(r)
    ensures AllLeadBack(Pack(m, true), MessagePointers(m))
  {
    hide WriteHeader, WriteQuestions, WriteRecords, FileOk, NameShaped, NamesShaped, LeadsBack, QuestionPointers,
      AllRecordPointers, AfterQuestions;
    var p := Pack(m, true);
    var f := StartOf(true);
    var head := WriteHeader(m);
    var questions := WriteQuestions(f.names, 12, m.questions);
    var records := WriteRecords(questions.names, 12 + |questions.bytes|, Records(m));
    EmptyFile(head, true);
    assert p == head + questions.bytes + records.bytes;
    QuestionsFiled(head, f, m.questions);
    QuestionsLead(p, head, f, m.questions, records.bytes);
    RecordsLead(p, head + questions.bytes, AfterQuestions(f, 12, m.questions), Records(m));
    TwoLists(p, QuestionPointers(Some(map[]), 12, m.questions),
             AllRecordPointers(questions.names, 12 + |questions.bytes|, Records(m)));
  }
}
