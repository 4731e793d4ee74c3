/** DNS messages as written with shared name suffixes and read back (sections 4.1 and 4.1.4 of RFC 1035). */
module Dns {
  import opened Bytes

  const TYPE_A: u16 := 1
  const TYPE_PTR: u16 := 12
  const TYPE_TXT: u16 := 16
  const TYPE_AAAA: u16 := 28
  const TYPE_SRV: u16 := 33
  const DOT: byte := 46
  const BACKSLASH: byte := 92
  const SHARE_LIMIT: nat := 0x3FFF
  const STEP_LIMIT: nat := 128

  /** Names and texts are their bytes. */
  datatype Data =
    | Ptr(target: bytes)
    | Srv(port: u16, server: bytes)
    | Txt(strings: seq<bytes>)
    | A(octets: bytes)
    | Aaaa(octets: bytes)

  datatype Record = Record(name: bytes, classCode: u16, ttl: u32, data: Data)

  datatype Question = Question(name: bytes, kind: u16, classCode: u16)

  datatype Flags = Flags(response: bool, opcode: byte, authoritative: bool, recursionDesired: bool, checkingDisabled: bool)

  datatype Message = Message(
    id: u16, flags: Flags, questions: seq<Question>,
    answers: seq<Record>, authority: seq<Record>, additional: seq<Record>)

  function Kind(d: Data): u16 {
    match d
    case Ptr(_) => TYPE_PTR
    case Srv(_, _) => TYPE_SRV
    case Txt(_) => TYPE_TXT
    case A(_) => TYPE_A
    case Aaaa(_) => TYPE_AAAA
  }

  // ----- labels -----

  function IndexOf(s: bytes, c: byte): (i: nat)
    ensures i <= |s| && (i < |s| ==> s[i] == c) && c !in s[..i]
  {
    if s == [] || s[0] == c then 0 else
    var i := IndexOf(s[1..], c);
    assert s[..i + 1] == [s[0]] + s[1..][..i];
    i + 1
  }

  function Split(s: bytes): (parts: seq<bytes>)
    ensures forall p | p in parts :: DOT !in p
    decreases |s|
  {
    var i := IndexOf(s, DOT);
    if i == |s| then assert s[..i] == s; [s] else [s[..i]] + Split(s[i + 1..])
  }

  function NonEmpty(parts: seq<bytes>): (r: seq<bytes>)
    ensures forall p | p in r :: p in parts && p != []
  {
    if parts == [] then [] else
    (if parts[0] == [] then [] else [parts[0]]) + NonEmpty(parts[1..])
  }

  function TrimDots(s: bytes): bytes {
    if s != [] && s[|s| - 1] == DOT then TrimDots(s[..|s| - 1]) else s
  }

  /** The labels of a name: what lies between its dots. */
  function Labels(name: bytes): (r: seq<bytes>)
    ensures forall p | p in r :: p != [] && DOT !in p
  {
    NonEmpty(Split(TrimDots(name)))
  }

  function Join(labels: seq<bytes>): bytes {
    if labels == [] then [] else
    if |labels| == 1 then labels[0] else labels[0] + [DOT] + Join(labels[1..])
  }

  function LowerByte(b: byte): byte { if 65 <= b <= 90 then b + 32 else b }

  function Lower(s: bytes): (r: bytes)
    ensures |r| == |s| && forall i | 0 <= i < |s| :: r[i] == LowerByte(s[i])
  {
    seq(|s|, i requires 0 <= i < |s| => LowerByte(s[i]))
  }

  function LowerAll(labels: seq<bytes>): (r: seq<bytes>)
    ensures |r| == |labels| && forall i | 0 <= i < |labels| :: r[i] == Lower(labels[i])
  {
    seq(|labels|, i requires 0 <= i < |labels| => Lower(labels[i]))
  }

  /** What a suffix is filed under: equal for names that differ in ASCII case only. */
  function Key(labels: seq<bytes>): bytes { Lower(Join(labels)) }

  // ----- writing -----

  /** Where a suffix may be pointed at. */
  type Position = x: int | 0 <= x < 0x3FFF

  type Names = Option<map<bytes, Position>>

  /** A name and what it adds to the file of suffixes, when it is written at `pos`. */
  datatype Written = Written(bytes: bytes, names: Names)

  function Registered(names: Names, key: bytes, pos: nat): Names {
    if names.Some? && pos < SHARE_LIMIT && key !in names.value then Some(names.value[key := pos]) else names
  }

  function LabelBytes(text: bytes): (r: bytes)
    ensures r != []
  {
    var n := Min(|text|, 63);
    [n as byte] + text[..n]
  }

  function WriteLabels(names: Names, pos: nat, labels: seq<bytes>, compressible: bool): (r: Written)
    ensures r.bytes != []
    decreases |labels|
  {
    if labels == [] then Written([0], names) else
    if compressible && names.Some? && Key(labels) in names.value then
      Written(Be16(0xC000 + names.value[Key(labels)] as int), names)
    else
      var first := LabelBytes(labels[0]);
      var rest := WriteLabels(Registered(names, Key(labels), pos), pos + |first|, labels[1..], compressible);
      Written(first + rest.bytes, rest.names)
  }

  function WriteQuestion(names: Names, pos: nat, q: Question): Written {
    var name := WriteLabels(names, pos, Labels(q.name), true);
    Written(name.bytes + Be16(q.kind) + Be16(q.classCode), name.names)
  }

  function WriteTexts(strings: seq<bytes>): bytes {
    if strings == [] then [] else
    var n := Min(|strings[0]|, 255);
    [n as byte] + strings[0][..n] + WriteTexts(strings[1..])
  }

  /** A server's name is never shortened, but later names may point into it. */
  function WriteData(names: Names, pos: nat, d: Data): Written {
    match d
    case Ptr(target) => WriteLabels(names, pos, Labels(target), true)
    case Srv(port, server) =>
      var name := WriteLabels(names, pos + 6, Labels(server), false);
      Written([0, 0, 0, 0] + Be16(port) + name.bytes, name.names)
    case Txt(strings) => Written(WriteTexts(strings), names)
    case A(octets) => Written(octets, names)
    case Aaaa(octets) => Written(octets, names)
  }

  function Saturated(n: nat): u16 { Min(n, 0xFFFF) }

  function WriteRecord(names: Names, pos: nat, r: Record): Written {
    var name := WriteLabels(names, pos, Labels(r.name), true);
    var data := WriteData(name.names, pos + |name.bytes| + 10, r.data);
    Written(name.bytes + Be16(Kind(r.data)) + Be16(r.classCode) + Be32(r.ttl) + Be16(Saturated(|data.bytes|)) + data.bytes,
            data.names)
  }

  function WriteQuestions(names: Names, pos: nat, qs: seq<Question>): Written
    decreases |qs|
  {
    if qs == [] then Written([], names) else
    var first := WriteQuestion(names, pos, qs[0]);
    var rest := WriteQuestions(first.names, pos + |first.bytes|, qs[1..]);
    Written(first.bytes + rest.bytes, rest.names)
  }

  function WriteRecords(names: Names, pos: nat, rs: seq<Record>): Written
    decreases |rs|
  {
    if rs == [] then Written([], names) else
    var first := WriteRecord(names, pos, rs[0]);
    var rest := WriteRecords(first.names, pos + |first.bytes|, rs[1..]);
    Written(first.bytes + rest.bytes, rest.names)
  }

  function FlagBit(b: bool, weight: nat): nat { if b then weight else 0 }

  function FlagWord(f: Flags): u16 {
    FlagBit(f.response, 0x8000) + f.opcode as nat % 16 * 0x800 + FlagBit(f.authoritative, 0x400)
    + FlagBit(f.recursionDesired, 0x100) + FlagBit(f.checkingDisabled, 0x10)
  }

  function WriteHeader(m: Message): (r: bytes)
    ensures |r| == 12
  {
    Be16(m.id) + Be16(FlagWord(m.flags)) + Be16(Saturated(|m.questions|)) + Be16(Saturated(|m.answers|))
    + Be16(Saturated(|m.authority|)) + Be16(Saturated(|m.additional|))
  }

  function Pack(m: Message, compress: bool): bytes {
    var questions := WriteQuestions(if compress then Some(map[]) else None, 12, m.questions);
    var records := WriteRecords(questions.names, 12 + |questions.bytes|, m.answers + m.authority + m.additional);
    WriteHeader(m) + questions.bytes + records.bytes
  }

  // ----- reading -----

  /** Labels read from `offset` in at most `fuel` steps, and where what follows the name begins. */
  datatype ReadLabels = ReadLabels(labels: seq<bytes>, next: nat)

  function ReadFrom(d: bytes, offset: nat, fuel: nat): Option<ReadLabels>
    decreases fuel
  {
    if fuel == 0 || offset >= |d| then None else
    var length := d[offset];
    if length >= 0xC0 then
      if offset + 1 >= |d| then None else
      Resumed([], Some(offset + 2), ReadFrom(d, PointerAt(d, offset), fuel - 1))
    else if length == 0 then Some(ReadLabels([], offset + 1))
    else if offset + 1 + length > |d| then None
    else Resumed([d[offset + 1..offset + 1 + length]], None, ReadFrom(d, offset + 1 + length, fuel - 1))
  }

  function PointerAt(d: bytes, offset: nat): nat
    requires offset + 1 < |d| && d[offset] >= 0xC0
  {
    (d[offset] as int - 0xC0) * 0x100 + d[offset + 1] as int
  }

  /** What reading on gives after `labels` were collected and, perhaps, a pointer was followed. */
  function Resumed(labels: seq<bytes>, end: Option<nat>, rest: Option<ReadLabels>): Option<ReadLabels> {
    match rest
    case None => None
    case Some(r) => Some(ReadLabels(labels + r.labels, if end.Some? then end.value else r.next))
  }

  lemma ResumedTwice(labels: seq<bytes>, end: Option<nat>, more: seq<bytes>, next: Option<nat>, rest: Option<ReadLabels>)
    ensures Resumed(labels, end, Resumed(more, next, rest))
         == Resumed(labels + more, if end.Some? then end else next, rest)
  {
    if rest.Some? {
      assert labels + (more + rest.value.labels) == labels + more + rest.value.labels;
    }
  }

  lemma NothingCollected(rest: Option<ReadLabels>)
    ensures Resumed([], None, rest) == rest
  {
    if rest.Some? { assert [] + rest.value.labels == rest.value.labels; }
  }

  predicate Special(b: byte) { b in {46, 32, 39, 64, 59, 40, 41, 34, 92} }

  function EscapeByte(b: byte): bytes {
    if Special(b) then [BACKSLASH, b]
    else if 0x21 <= b <= 0x7e then [b]
    else [BACKSLASH, 48 + b / 100, 48 + b / 10 % 10, 48 + b % 10]
  }

  function Escape(text: bytes): bytes {
    if text == [] then [] else EscapeByte(text[0]) + Escape(text[1..])
  }

  function EscapeAll(labels: seq<bytes>): (r: seq<bytes>)
    ensures |r| == |labels| && forall i | 0 <= i < |labels| :: r[i] == Escape(labels[i])
  {
    seq(|labels|, i requires 0 <= i < |labels| => Escape(labels[i]))
  }

  /** How a name with these labels is shown. */
  function Shown(labels: seq<bytes>): bytes { Join(EscapeAll(labels)) + [DOT] }

  datatype ReadName = ReadName(name: bytes, next: nat)

  function NameAt(d: bytes, offset: nat): Option<ReadName> {
    match ReadFrom(d, offset, STEP_LIMIT)
    case None => None
    case Some(r) => Some(ReadName(Shown(r.labels), r.next))
  }

  /** `read_name`: labels collected one by one, following pointers, in at most 128 steps. */
  method CollectName(d: bytes, start: nat) returns (r: Option<ReadName>)
    ensures r == NameAt(d, start)
  {
    var offset: nat := start;
    var labels: seq<bytes> := [];
    NothingCollected(ReadFrom(d, start, STEP_LIMIT));
    var end: Option<nat> := None;
    ghost var left: nat := STEP_LIMIT;
    for step := 0 to STEP_LIMIT
      invariant left == STEP_LIMIT - step
      invariant ReadFrom(d, start, STEP_LIMIT) == Resumed(labels, end, ReadFrom(d, offset, left))
    {
      hide Resumed, Shown, ReadFrom, PointerAt;
      OneStep(d, offset, left);
      left := left - 1;
      NoneLeft(labels, end);
      if offset >= |d| { return None; }
      var length := d[offset];
      if length >= 0xC0 {
        if offset + 1 >= |d| { return None; }
        ResumedTwice(labels, end, [], Some(offset + 2), ReadFrom(d, PointerAt(d, offset), left));
        assert labels + [] == labels;
        if end.None? { end := Some(offset + 2); }
        offset := PointerAt(d, offset);
        continue;
      }
      if length == 0 {
        NameEnds(labels, end, offset + 1);
        return Some(ReadName(Shown(labels), if end.Some? then end.value else offset + 1));
      }
      var next := offset + 1 + length;
      if next > |d| { return None; }
      var found := d[offset + 1..next];
      ResumedTwice(labels, end, [found], None, ReadFrom(d, next, left));
      labels := labels + [found];
      offset := next;
    }
    return None;
  }

  lemma NoneLeft(labels: seq<bytes>, end: Option<nat>)
    ensures Resumed(labels, end, None) == None
  {}

  /** The first step of reading a name. */
  lemma OneStep(d: bytes, offset: nat, fuel: nat)
    requires fuel > 0
    ensures offset >= |d| ==> ReadFrom(d, offset, fuel) == None
    ensures offset < |d| && d[offset] >= 0xC0 && offset + 1 >= |d| ==> ReadFrom(d, offset, fuel) == None
    ensures offset + 1 < |d| && d[offset] >= 0xC0 ==>
              ReadFrom(d, offset, fuel) == Resumed([], Some(offset + 2), ReadFrom(d, PointerAt(d, offset), fuel - 1))
    ensures offset < |d| && d[offset] == 0 ==> ReadFrom(d, offset, fuel) == Some(ReadLabels([], offset + 1))
    ensures offset < |d| && 0 < d[offset] < 0xC0 && offset + 1 + d[offset] > |d| ==> ReadFrom(d, offset, fuel) == None
    ensures offset < |d| && 0 < d[offset] < 0xC0 && offset + 1 + d[offset] <= |d| ==>
              ReadFrom(d, offset, fuel)
              == Resumed([d[offset + 1..offset + 1 + d[offset]]], None, ReadFrom(d, offset + 1 + d[offset], fuel - 1))
  {
    hide Resumed;
  }

  lemma NameEnds(labels: seq<bytes>, end: Option<nat>, next: nat)
    ensures Resumed(labels, end, Some(ReadLabels([], next))) == Some(ReadLabels(labels, if end.Some? then end.value else next))
  {
    assert labels + [] == labels;
  }

  datatype ReadRecord = ReadRecord(record: Record, next: nat)

  /** What stands for a record this reader does not keep. */
  const OTHER: Record := Record([], 0, 0, Txt([]))

  function RecordAt(d: bytes, offset: nat): Option<ReadRecord> {
    match NameAt(d, offset)
    case None => None
    case Some(n) =>
      if n.next + 10 > |d| then None else
      var kind, classCode := ReadBe16(d, n.next), ReadBe16(d, n.next + 2);
      var ttl := ReadBe32(d, n.next + 4);
      var start := n.next + 10;
      var end := start + ReadBe16(d, n.next + 8) as nat;
      if end > |d| then None else
      if kind != TYPE_PTR then Some(ReadRecord(OTHER, end)) else
      match NameAt(d, start)
      case None => Some(ReadRecord(OTHER, end))
      case Some(target) => Some(ReadRecord(Record(n.name, classCode, ttl, Ptr(target.name)), end))
  }

  datatype ReadQuestion = ReadQuestion(question: Question, next: nat)

  function QuestionAt(d: bytes, offset: nat): Option<ReadQuestion> {
    match NameAt(d, offset)
    case None => None
    case Some(n) =>
      if n.next + 4 > |d| then None else
      Some(ReadQuestion(Question(n.name, ReadBe16(d, n.next), ReadBe16(d, n.next + 2)), n.next + 4))
  }

  datatype ReadQuestions = ReadQuestions(questions: seq<Question>, next: nat)

  function QuestionsAt(d: bytes, offset: nat, count: nat): Option<ReadQuestions>
    decreases count
  {
    if count == 0 then Some(ReadQuestions([], offset)) else
    match QuestionAt(d, offset)
    case None => None
    case Some(q) =>
      match QuestionsAt(d, q.next, count - 1)
      case None => None
      case Some(rest) => Some(ReadQuestions([q.question] + rest.questions, rest.next))
  }

  datatype ReadRecords = ReadRecords(records: seq<Record>, next: nat)

  function RecordsAt(d: bytes, offset: nat, count: nat): Option<ReadRecords>
    decreases count
  {
    if count == 0 then Some(ReadRecords([], offset)) else
    match RecordAt(d, offset)
    case None => None
    case Some(r) =>
      match RecordsAt(d, r.next, count - 1)
      case None => None
      case Some(rest) => Some(ReadRecords([r.record] + rest.records, rest.next))
  }

  function ParseFlags(w: u16): Flags {
    Flags(w / 0x8000 % 2 == 1, w / 0x800 % 16, w / 0x400 % 2 == 1, w / 0x100 % 2 == 1, w / 0x10 % 2 == 1)
  }

  function Parse(d: bytes): Option<Message> {
    if |d| < 12 then None else
    match QuestionsAt(d, 12, ReadBe16(d, 4))
    case None => None
    case Some(qs) =>
      match RecordsAt(d, qs.next, ReadBe16(d, 6))
      case None => None
      case Some(answers) =>
        match RecordsAt(d, answers.next, ReadBe16(d, 8))
        case None => None
        case Some(authority) =>
          match RecordsAt(d, authority.next, ReadBe16(d, 10))
          case None => None
          case Some(additional) =>
            Some(Message(ReadBe16(d, 0), ParseFlags(ReadBe16(d, 2)), qs.questions,
                         answers.records, authority.records, additional.records))
  }
}
