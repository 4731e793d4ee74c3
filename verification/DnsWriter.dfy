/** The writer that appends to a packet, files suffixes as it goes and patches each record's length afterwards. */
module DnsWriter {
  import opened Bytes
  import opened Dns

  class Writer {
    var out: bytes
    var names: Names

    constructor (compress: bool)
      ensures out == [] && names == if compress then Some(map[]) else None
    {
      out := [];
      names := if compress then Some(map[]) else None;
    }

    /** What was just written, seen as one value. */
    ghost predicate Appended(before: bytes, w: Written)
      reads this
    {
      out == before + w.bytes && names == w.names
    }

    method Append(data: bytes)
      modifies this`out
      ensures out == old(out) + data
    {
      out := out + data;
    }

    method WriteName(name: bytes, compressible: bool)
      modifies this
      ensures Appended(old(out), WriteLabels(old(names), |old(out)|, Labels(name), compressible))
    {
      hide Key, LabelBytes, Behind, WriteLabels;
      var labels := Labels(name);
      ghost var done: bytes := [];
      ghost var goal := WriteLabels(names, |out|, labels, compressible);
      assert labels[0..] == labels && out + [] == out;
      NothingBefore(goal);
      for index := 0 to |labels|
        invariant out == old(out) + done
        invariant goal == Behind(done, WriteLabels(names, |out|, labels[index..], compressible))
      {
        var suffix := Key(labels[index..]);
        if compressible && names.Some? && suffix in names.value {
          ShortName(done, old(out), names, |out|, labels[index..]);
          Append(Be16(0xC000 + names.value[suffix] as int));
          return;
        }
        var first := LabelBytes(labels[index]);
        LongName(done, names, |out|, labels, index, compressible);
        names := Registered(names, suffix, |out|);
        Append(first);
        done := done + first;
      }
      LastByte(done, old(out), names, |out|, labels[|labels|..], compressible);
      Append([0]);
    }

    method WriteRecordOf(r: Record)
      modifies this
      ensures Appended(old(out), WriteRecord(old(names), |old(out)|, r))
    {
      hide WriteLabels, WriteTexts, Kind;
      WriteName(r.name, true);
      ghost var name := out[|old(out)|..];
      Append(Be16(Kind(r.data)));
      Append(Be16(r.classCode));
      Append(Be32(r.ttl));
      var lengthAt := |out|;
      Append([0, 0]);
      ghost var before := out;
      WriteDataOf(r.data);
      ghost var data := out[|before|..];
      var length := Saturated(|out| - lengthAt - 2);
      out := out[..lengthAt] + Be16(length) + out[lengthAt + 2..];
      assert out == old(out) + (name + Be16(Kind(r.data)) + Be16(r.classCode) + Be32(r.ttl) + Be16(length) + data);
    }

    method WriteDataOf(d: Data)
      modifies this
      ensures Appended(old(out), WriteData(old(names), |old(out)|, d))
    {
      hide WriteLabels;
      match d {
        case Ptr(target) => WriteName(target, true);
        case Srv(port, server) =>
          Append([0, 0, 0, 0]);
          Append(Be16(port));
          ghost var before := out;
          WriteName(server, false);
          assert out == old(out) + ([0, 0, 0, 0] + Be16(port) + out[|before|..]);
        case Txt(strings) =>
          assert strings[0..] == strings && old(out) + [] == old(out);
          for i := 0 to |strings|
            invariant names == old(names) && out + WriteTexts(strings[i..]) == old(out) + WriteTexts(strings)
          {
            var n := Min(|strings[i]|, 255);
            assert strings[i..][1..] == strings[i + 1..];
            assert out + ([n as byte] + strings[i][..n] + WriteTexts(strings[i + 1..]))
                == out + ([n as byte] + strings[i][..n]) + WriteTexts(strings[i + 1..]);
            Append([n as byte] + strings[i][..n]);
          }
          assert out + [] == out;
        case A(octets) => Append(octets);
        case Aaaa(octets) => Append(octets);
      }
    }
  }

  /** What was written before, in front. */
  function Behind(done: bytes, w: Written): Written { Written(done + w.bytes, w.names) }

  lemma NothingBefore(w: Written)
    ensures Behind([], w) == w
  {
    assert [] + w.bytes == w.bytes;
  }

  lemma ShortName(done: bytes, out: bytes, names: Names, pos: nat, labels: seq<bytes>)
    requires labels != [] && names.Some? && Key(labels) in names.value
    ensures var w := Behind(done, WriteLabels(names, pos, labels, true));
            w.names == names && out + w.bytes == out + done + Be16(0xC000 + names.value[Key(labels)] as int)
  {
    hide Key;
    var pointer := Be16(0xC000 + names.value[Key(labels)] as int);
    assert out + (done + pointer) == out + done + pointer;
  }

  lemma LongName(done: bytes, names: Names, pos: nat, labels: seq<bytes>, i: nat, compressible: bool)
    requires i < |labels| && !(compressible && names.Some? && Key(labels[i..]) in names.value)
    ensures var first := LabelBytes(labels[i]);
            Behind(done, WriteLabels(names, pos, labels[i..], compressible))
            == Behind(done + first, WriteLabels(Registered(names, Key(labels[i..]), pos), pos + |first|, labels[i + 1..], compressible))
  {
    hide Key, LabelBytes, Registered;
    assert labels[i..][1..] == labels[i + 1..];
    var first := LabelBytes(labels[i]);
    var rest := WriteLabels(Registered(names, Key(labels[i..]), pos), pos + |first|, labels[i + 1..], compressible);
    assert done + (first + rest.bytes) == done + first + rest.bytes;
  }

  lemma LastByte(done: bytes, out: bytes, names: Names, pos: nat, labels: seq<bytes>, compressible: bool)
    requires labels == []
    ensures var w := Behind(done, WriteLabels(names, pos, labels, compressible));
            w.names == names && out + w.bytes == out + done + [0]
  {
    assert out + (done + [0]) == out + done + [0];
  }

  /** `pack`. */
  method PackMessage(m: Message, compress: bool) returns (packed: bytes)
    ensures packed == Pack(m, compress)
  {
    hide WriteLabels, WriteData, WriteHeader, WriteQuestions, WriteRecords;
    var writer := new Writer(compress);
    writer.Append(WriteHeader(m));
    assert writer.out == WriteHeader(m);
    ghost var start := writer.names;
    PackQuestions(writer, m.questions);
    PackRecords(writer, m.answers + m.authority + m.additional);
    return writer.out;
  }

  method PackQuestions(writer: Writer, qs: seq<Question>)
    modifies writer
    ensures writer.Appended(old(writer.out), WriteQuestions(old(writer.names), |old(writer.out)|, qs))
  {
    hide WriteQuestions, WriteQuestion, WriteLabels, Behind;
    ghost var done: bytes := [];
    ghost var goal := WriteQuestions(writer.names, |writer.out|, qs);
    assert qs[0..] == qs && writer.out + [] == writer.out;
    NothingBefore(goal);
    for i := 0 to |qs|
      invariant writer.out == old(writer.out) + done
      invariant goal == Behind(done, WriteQuestions(writer.names, |writer.out|, qs[i..]))
    {
      ghost var names, before := writer.names, writer.out;
      writer.WriteName(qs[i].name, true);
      writer.Append(Be16(qs[i].kind));
      writer.Append(Be16(qs[i].classCode));
      QuestionWritten(names, before, qs[i]);
      QuestionsNext(done, names, |before|, qs, i);
      done := done + WriteQuestion(names, |before|, qs[i]).bytes;
    }
    NoQuestions(done, writer.names, |writer.out|, qs[|qs|..]);
  }

  lemma QuestionWritten(names: Names, before: bytes, q: Question)
    ensures var name := WriteLabels(names, |before|, Labels(q.name), true);
            var w := WriteQuestion(names, |before|, q);
            before + name.bytes + Be16(q.kind) + Be16(q.classCode) == before + w.bytes && w.names == name.names
  {
    hide WriteLabels, Be16;
  }

  lemma QuestionsNext(done: bytes, names: Names, pos: nat, qs: seq<Question>, i: nat)
    requires i < |qs|
    ensures var first := WriteQuestion(names, pos, qs[i]);
            Behind(done, WriteQuestions(names, pos, qs[i..]))
            == Behind(done + first.bytes, WriteQuestions(first.names, pos + |first.bytes|, qs[i + 1..]))
  {
    hide WriteQuestion;
    assert qs[i..][1..] == qs[i + 1..];
    var first := WriteQuestion(names, pos, qs[i]);
    BehindTwo(done, first.bytes, WriteQuestions(first.names, pos + |first.bytes|, qs[i + 1..]));
  }

  lemma NoQuestions(done: bytes, names: Names, pos: nat, qs: seq<Question>)
    requires qs == []
    ensures Behind(done, WriteQuestions(names, pos, qs)) == Written(done, names)
  {
    assert done + [] == done;
  }

  lemma BehindTwo(done: bytes, first: bytes, rest: Written)
    ensures Behind(done, Written(first + rest.bytes, rest.names)) == Behind(done + first, rest)
  {
    assert done + (first + rest.bytes) == done + first + rest.bytes;
  }

  method PackRecords(writer: Writer, rs: seq<Record>)
    modifies writer
    ensures writer.Appended(old(writer.out), WriteRecords(old(writer.names), |old(writer.out)|, rs))
  {
    hide WriteRecords, WriteRecord, Behind;
    ghost var done: bytes := [];
    ghost var goal := WriteRecords(writer.names, |writer.out|, rs);
    assert rs[0..] == rs && writer.out + [] == writer.out;
    NothingBefore(goal);
    for i := 0 to |rs|
      invariant writer.out == old(writer.out) + done
      invariant goal == Behind(done, WriteRecords(writer.names, |writer.out|, rs[i..]))
    {
      ghost var names, before := writer.names, writer.out;
      writer.WriteRecordOf(rs[i]);
      RecordsNext(done, names, |before|, rs, i);
      done := done + WriteRecord(names, |before|, rs[i]).bytes;
    }
    NoRecords(done, writer.names, |writer.out|, rs[|rs|..]);
  }

  lemma RecordsNext(done: bytes, names: Names, pos: nat, rs: seq<Record>, i: nat)
    requires i < |rs|
    ensures var first := WriteRecord(names, pos, rs[i]);
            Behind(done, WriteRecords(names, pos, rs[i..]))
            == Behind(done + first.bytes, WriteRecords(first.names, pos + |first.bytes|, rs[i + 1..]))
  {
    hide WriteRecord;
    assert rs[i..][1..] == rs[i + 1..];
    var first := WriteRecord(names, pos, rs[i]);
    BehindTwo(done, first.bytes, WriteRecords(first.names, pos + |first.bytes|, rs[i + 1..]));
  }

  lemma NoRecords(done: bytes, names: Names, pos: nat, rs: seq<Record>)
    requires rs == []
    ensures Behind(done, WriteRecords(names, pos, rs)) == Written(done, names)
  {
    assert done + [] == done;
  }

  // ----- reading -----

  function QuestionsFirst(front: seq<Question>, rest: Option<ReadQuestions>): Option<ReadQuestions> {
    match rest
    case None => None
    case Some(r) => Some(ReadQuestions(front + r.questions, r.next))
  }

  function RecordsFirst(front: seq<Record>, rest: Option<ReadRecords>): Option<ReadRecords> {
    match rest
    case None => None
    case Some(r) => Some(ReadRecords(front + r.records, r.next))
  }

  method CollectQuestions(d: bytes, start: nat, count: nat) returns (r: Option<ReadQuestions>)
    ensures r == QuestionsAt(d, start, count)
  {
    var offset: nat, questions: seq<Question> := start, [];
    ghost var left := count;
    QuestionsBegin(QuestionsAt(d, start, count));
    for i := 0 to count
      invariant left == count - i
      invariant QuestionsAt(d, start, count) == QuestionsFirst(questions, QuestionsAt(d, offset, left))
    {
      hide QuestionAt, QuestionsAt, QuestionsFirst;
      ghost var rest: nat := left - 1;
      QuestionsStep(d, offset, left, rest);
      var one := CollectQuestion(d, offset);
      if one.None? {
        NoQuestionsFollow(questions);
        return None;
      }
      QuestionsMore(questions, one.value.question, QuestionsAt(d, one.value.next, rest));
      questions := questions + [one.value.question];
      offset := one.value.next;
      left := rest;
    }
    QuestionsEnd(questions, offset);
    return Some(ReadQuestions(questions, offset));
  }

  method CollectQuestion(d: bytes, offset: nat) returns (r: Option<ReadQuestion>)
    ensures r == QuestionAt(d, offset)
  {
    hide NameAt, ReadBe16;
    var name := CollectName(d, offset);
    if name.None? { return None; }
    var next := name.value.next;
    if next + 4 > |d| { return None; }
    return Some(ReadQuestion(Question(name.value.name, ReadBe16(d, next), ReadBe16(d, next + 2)), next + 4));
  }

  lemma QuestionsStep(d: bytes, offset: nat, left: nat, rest: nat)
    requires left == rest + 1
    ensures match QuestionAt(d, offset)
            case None => QuestionsAt(d, offset, left) == None
            case Some(r) => QuestionsAt(d, offset, left) == QuestionsFirst([r.question], QuestionsAt(d, r.next, rest))
  {
    hide QuestionAt;
  }

  lemma NoQuestionsFollow(front: seq<Question>)
    ensures QuestionsFirst(front, None) == None
  {}

  lemma QuestionsEnd(front: seq<Question>, offset: nat)
    ensures QuestionsFirst(front, Some(ReadQuestions([], offset))) == Some(ReadQuestions(front, offset))
  {
    assert front + [] == front;
  }

  lemma QuestionsBegin(rest: Option<ReadQuestions>)
    ensures QuestionsFirst([], rest) == rest
  {
    if rest.Some? { assert [] + rest.value.questions == rest.value.questions; }
  }

  lemma QuestionsMore(front: seq<Question>, q: Question, rest: Option<ReadQuestions>)
    ensures QuestionsFirst(front, QuestionsFirst([q], rest)) == QuestionsFirst(front + [q], rest)
  {
    if rest.Some? { assert front + ([q] + rest.value.questions) == front + [q] + rest.value.questions; }
  }

  method CollectRecord(d: bytes, offset: nat) returns (r: Option<ReadRecord>)
    ensures r == RecordAt(d, offset)
  {
    hide NameAt, ReadBe16, ReadBe32;
    var name := CollectName(d, offset);
    if name.None? { return None; }
    var next := name.value.next;
    if next + 10 > |d| { return None; }
    var kind, classCode, ttl := ReadBe16(d, next), ReadBe16(d, next + 2), ReadBe32(d, next + 4);
    var start := next + 10;
    var end := start + ReadBe16(d, next + 8);
    if end > |d| { return None; }
    if kind != TYPE_PTR { return Some(ReadRecord(OTHER, end)); }
    var target := CollectName(d, start);
    if target.None? { return Some(ReadRecord(OTHER, end)); }
    return Some(ReadRecord(Record(name.value.name, classCode, ttl, Ptr(target.value.name)), end));
  }

  method CollectRecords(d: bytes, start: nat, count: nat) returns (r: Option<ReadRecords>)
    ensures r == RecordsAt(d, start, count)
  {
    var offset: nat, records: seq<Record> := start, [];
    ghost var left := count;
    RecordsBegin(RecordsAt(d, start, count));
    for i := 0 to count
      invariant left == count - i
      invariant RecordsAt(d, start, count) == RecordsFirst(records, RecordsAt(d, offset, left))
    {
      hide RecordAt, RecordsAt, RecordsFirst;
      ghost var rest: nat := left - 1;
      RecordsStep(d, offset, left, rest);
      var one := CollectRecord(d, offset);
      if one.None? {
        NoRecordsFollow(records);
        return None;
      }
      RecordsMore(records, one.value.record, RecordsAt(d, one.value.next, rest));
      records := records + [one.value.record];
      offset := one.value.next;
      left := rest;
    }
    RecordsEnd(records, offset);
    return Some(ReadRecords(records, offset));
  }

  lemma RecordsStep(d: bytes, offset: nat, left: nat, rest: nat)
    requires left == rest + 1
    ensures match RecordAt(d, offset)
            case None => RecordsAt(d, offset, left) == None
            case Some(r) => RecordsAt(d, offset, left) == RecordsFirst([r.record], RecordsAt(d, r.next, rest))
  {
    hide RecordAt;
  }

  lemma NoRecordsFollow(front: seq<Record>)
    ensures RecordsFirst(front, None) == None
  {}

  lemma RecordsEnd(front: seq<Record>, offset: nat)
    ensures RecordsFirst(front, Some(ReadRecords([], offset))) == Some(ReadRecords(front, offset))
  {
    assert front + [] == front;
  }

  lemma RecordsBegin(rest: Option<ReadRecords>)
    ensures RecordsFirst([], rest) == rest
  {
    if rest.Some? { assert [] + rest.value.records == rest.value.records; }
  }

  lemma RecordsMore(front: seq<Record>, r: Record, rest: Option<ReadRecords>)
    ensures RecordsFirst(front, RecordsFirst([r], rest)) == RecordsFirst(front + [r], rest)
  {
    if rest.Some? { assert front + ([r] + rest.value.records) == front + [r] + rest.value.records; }
  }

  /** `parse`. */
  method ParseMessage(d: bytes) returns (r: Option<Message>)
    ensures r == Parse(d)
  {
    hide QuestionsAt, RecordsAt, ReadBe16, ParseFlags;
    if |d| < 12 { return None; }
    var questions := CollectQuestions(d, 12, ReadBe16(d, 4));
    if questions.None? { return None; }
    var answers := CollectRecords(d, questions.value.next, ReadBe16(d, 6));
    if answers.None? { return None; }
    var authority := CollectRecords(d, answers.value.next, ReadBe16(d, 8));
    if authority.None? { return None; }
    var additional := CollectRecords(d, authority.value.next, ReadBe16(d, 10));
    if additional.None? { return None; }
    return Some(Message(ReadBe16(d, 0), ParseFlags(ReadBe16(d, 2)), questions.value.questions,
                        answers.value.records, authority.value.records, additional.value.records));
  }
}
