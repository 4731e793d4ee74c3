/** What is accepted is a JSON text; what is cut short can be completed; what is refused cannot. */
module JsonSound {
  import opened Bytes
  import opened JsonScan
  import opened JsonGrammar
  import opened JsonComplete

  // ----- a derivation under way -----

  /** An open bracket with what was read inside it, up to the value now being read; `lead` are the blanks before it. */
  datatype Frame =
    | InList(lead: bytes, items: seq<Item>)
    | InKey(lead: bytes, members: seq<Member>)
    | InMember(lead: bytes, members: seq<Member>, before: bytes, key: seq<Char>, after: bytes)

  /** What was read since. */
  datatype Hole =
    | Want(ws: bytes)
    | MidWord(ws: bytes, word: Word, seen: nat)
    | MidString(ws: bytes, chars: seq<Char>, pending: bytes)
    | MidMinus(ws: bytes)
    | MidNumber(ws: bytes, num: Num, pending: bytes)
    | Complete(ws: bytes, value: Value, after: bytes)

  function KindOf(f: Frame): Parse {
    match f
    case InList(_, _) => ArrayValue
    case InKey(_, _) => ObjectKey
    case InMember(_, _, _, _, _) => ObjectValue
  }

  function Listed(items: seq<Item>): bytes { if items == [] then [] else ItemsText(items) + [COMMA] }

  function Keyed(members: seq<Member>): bytes { if members == [] then [] else MembersText(members) + [COMMA] }

  function FrameText(f: Frame): bytes {
    match f
    case InList(lead, items) => lead + [OPEN_LIST] + Listed(items)
    case InKey(lead, members) => lead + [OPEN_OBJECT] + Keyed(members)
    case InMember(lead, members, before, key, after) =>
      lead + [OPEN_OBJECT] + Keyed(members) + (before + StringText(key) + after + [COLON])
  }

  function FramesText(fs: seq<Frame>): bytes {
    if fs == [] then [] else FramesText(fs[..|fs| - 1]) + FrameText(fs[|fs| - 1])
  }

  function HoleText(h: Hole): bytes {
    match h
    case Want(ws) => ws
    case MidWord(ws, word, seen) => ws + WordText(word)[..Min(seen, |WordText(word)|)]
    case MidString(ws, chars, pending) => ws + ([QUOTE] + CharsText(chars) + pending)
    case MidMinus(ws) => ws + [MINUS]
    case MidNumber(ws, num, pending) => ws + (NumText(num) + pending)
    case Complete(ws, value, after) => ws + ValueText(value) + after
  }

  predicate FrameOk(f: Frame) {
    && Ws(f.lead)
    && (f.InList? ==> forall i | i in f.items :: ItemOk(i))
    && (!f.InList? ==> forall m | m in f.members :: MemberOk(m))
    && (f.InMember? ==> Ws(f.before) && CharsOk(f.key) && Ws(f.after))
  }

  predicate WantOk(s: State, fs: seq<Frame>) {
    match s
    case BeginValue => fs != [] ==> !fs[|fs| - 1].InKey?
    case BeginValueOrEmpty => fs != [] && fs[|fs| - 1].InList? && fs[|fs| - 1].items == []
    case BeginString => fs != [] && fs[|fs| - 1].InKey?
    case BeginStringOrEmpty => fs != [] && fs[|fs| - 1].InKey? && fs[|fs| - 1].members == []
    case _ => false
  }

  predicate StringOk(s: State, pending: bytes) {
    match s
    case InString => pending == []
    case InStringEsc => pending == [ESCAPE]
    case InStringEscU(digits) =>
      |pending| == 2 + digits && pending[..2] == [ESCAPE, 117] && forall b | b in pending[2..] :: IsHex(b)
    case _ => false
  }

  predicate NumberOk(s: State, n: Num, pending: bytes) {
    && NumOk(n)
    && match s
       case One => n.whole != [48] && n.fraction == [] && n.exponent.NoExponent? && pending == []
       case Zero => n.whole == [48] && n.fraction == [] && n.exponent.NoExponent? && pending == []
       case Dot => n.fraction == [] && n.exponent.NoExponent? && pending == [POINT]
       case Dot0 => n.fraction != [] && n.exponent.NoExponent? && pending == []
       case E => n.exponent.NoExponent? && |pending| == 1 && IsExponent(pending[0])
       case ESign => n.exponent.NoExponent? && |pending| == 2 && IsExponent(pending[0]) && (pending[1] == PLUS || pending[1] == MINUS)
       case E0 => n.exponent.Exponent? && pending == []
       case _ => false
  }

  /** Only a string may stand where a key belongs. */
  predicate NotKey(fs: seq<Frame>) { fs != [] ==> !fs[|fs| - 1].InKey? }

  predicate HoleOk(s: State, fs: seq<Frame>, h: Hole) {
    && Ws(h.ws)
    && match h
       case Want(_) => WantOk(s, fs)
       case MidWord(_, word, seen) => s == Literal(word, seen) && seen < |WordText(word)| && NotKey(fs)
       case MidString(_, chars, pending) => CharsOk(chars) && StringOk(s, pending)
       case MidMinus(_) => s.Neg? && NotKey(fs)
       case MidNumber(_, num, pending) => NumberOk(s, num, pending) && NotKey(fs)
       case Complete(_, value, after) =>
         && s.EndValue? && ValueOk(value) && Ws(after) && (fs == [] ==> after == [])
         && (!NotKey(fs) ==> value.String?)
  }

  /** The scanner's state and stack are those of a derivation whose text is `t`. */
  ghost predicate Derives(s: State, k: seq<Parse>, fs: seq<Frame>, h: Hole, t: bytes) {
    && |fs| == |k| && (forall i | 0 <= i < |k| :: k[i] == KindOf(fs[i])) && (forall f | f in fs :: FrameOk(f))
    && (forall i | 0 <= i < |fs| - 1 :: !fs[i].InKey?)
    && HoleOk(s, fs, h) && t == FramesText(fs) + HoleText(h)
  }

  ghost predicate IsText(t: bytes) { exists ws, v :: Ws(ws) && ValueOk(v) && t == ws + ValueText(v) }

  /** Some derivation explains the state. */
  ghost predicate Explained(s: State, k: seq<Parse>, t: bytes) { exists fs, h :: Derives(s, k, fs, h, t) }

  // ----- steps inside a token -----

  lemma TextMore(fs: seq<Frame>, h: Hole, g: Hole, b: byte)
    requires HoleText(g) == HoleText(h) + [b]
    ensures FramesText(fs) + HoleText(g) == FramesText(fs) + HoleText(h) + [b]
  {
    hide HoleText, FramesText;
  }

  lemma HoleStep(s: State, k: seq<Parse>, fs: seq<Frame>, h: Hole, t: bytes, u: State, g: Hole, b: byte)
    requires Derives(s, k, fs, h, t) && HoleOk(u, fs, g) && HoleText(g) == HoleText(h) + [b]
    ensures Derives(u, k, fs, g, t + [b])
  {
    hide HoleText, HoleOk, FramesText, FrameOk;
    TextMore(fs, h, g, b);
  }

  lemma StringMore(chars: seq<Char>, c: Char)
    ensures CharsText(chars + [c]) == CharsText(chars) + CharText(c)
  {
    assert (chars + [c])[..|chars|] == chars;
  }

  lemma HexMore(s: State, pending: bytes, b: byte)
    requires s.InStringEscU? && s.digits <= 3 && StringOk(s, pending) && IsHex(b)
    ensures s.digits < 3 ==> StringOk(InStringEscU(s.digits + 1), pending + [b])
    ensures s.digits == 3 ==> CharOk(Unicode((pending + [b])[2..])) && pending + [b] == CharText(Unicode((pending + [b])[2..]))
  {
    var more := pending + [b];
    assert more[..2] == pending[..2] && more[2..] == pending[2..] + [b];
    assert more == more[..2] + more[2..];
  }

  lemma StringStep(s: State, fs: seq<Frame>, h: Hole, b: byte, k: seq<Parse>) returns (g: Hole)
    requires StateOk(s) && HoleOk(s, fs, h) && h.MidString? && Step(s, k, b).Continue?
    ensures HoleOk(Step(s, k, b).state, fs, g) && HoleText(g) == HoleText(h) + [b] && Step(s, k, b).stack == k
  {
    hide WantOk, NumberOk, FramesText, CharText, CharsText, CharOk;
    var cs := h.chars;
    match s
    case InString =>
      if b == QUOTE {
        g := Complete(h.ws, String(cs), []);
        Regroup(h.ws, [QUOTE], CharsText(cs), [], [QUOTE]);
      } else if b == ESCAPE {
        g := MidString(h.ws, cs, [ESCAPE]);
        Regroup(h.ws, [QUOTE], CharsText(cs), [], [ESCAPE]);
      } else {
        PlainOk(b);
        g := AddChar(h, Plain(b), b);
      }
    case InStringEsc =>
      if b == 117 {
        g := MidString(h.ws, cs, [ESCAPE, 117]);
        assert [ESCAPE] + [117] == [ESCAPE, 117];
        Regroup(h.ws, [QUOTE], CharsText(cs), [ESCAPE], [117]);
      } else {
        EscapedOk(b);
        g := AddChar(h, Escaped(b), b);
      }
    case InStringEscU(digits) =>
      HexMore(s, h.pending, b);
      if digits == 3 {
        g := AddChar(h, Unicode((h.pending + [b])[2..]), b);
      } else {
        g := MidString(h.ws, cs, h.pending + [b]);
        Regroup(h.ws, [QUOTE], CharsText(cs), h.pending, [b]);
      }
  }

  lemma PlainOk(b: byte)
    requires b >= 0x20 && b != QUOTE && b != ESCAPE
    ensures CharOk(Plain(b)) && [] + [b] == CharText(Plain(b))
  {}

  lemma EscapedOk(b: byte)
    requires IsEscape(b)
    ensures CharOk(Escaped(b)) && [ESCAPE] + [b] == CharText(Escaped(b))
  {}

  lemma Regroup(a: bytes, b: bytes, c: bytes, d: bytes, e: bytes)
    ensures a + (b + c + d) + e == a + (b + c + (d + e))
    ensures d == [] ==> a + (b + c + d) + e == a + (b + c + e)
    ensures d == [] ==> a + (b + c + d) + e == a + (b + c + e) + []
  {}

  lemma AddChar(h: Hole, c: Char, b: byte) returns (g: Hole)
    requires h.MidString? && CharsOk(h.chars) && CharOk(c) && h.pending + [b] == CharText(c)
    ensures g == MidString(h.ws, h.chars + [c], []) && CharsOk(g.chars) && HoleText(g) == HoleText(h) + [b]
  {
    hide CharText, CharOk, CharsText;
    g := MidString(h.ws, h.chars + [c], []);
    StringMore(h.chars, c);
    assert [QUOTE] + (CharsText(h.chars) + CharText(c)) + [] == [QUOTE] + CharsText(h.chars) + CharText(c);
    Regroup(h.ws, [QUOTE], CharsText(h.chars), h.pending, [b]);
  }

  // ----- numbers, digit by digit -----

  lemma WholeMore(n: Num, b: byte)
    requires NumOk(n) && n.whole != [48] && n.fraction == [] && n.exponent.NoExponent? && IsDigit(b)
    ensures var m := n.(whole := n.whole + [b]);
            NumOk(m) && m.whole != [48] && NumText(m) == NumText(n) + [b]
  {
    var m := n.(whole := n.whole + [b]);
    assert Sign(n.minus) + (n.whole + [b]) + [] + [] == Sign(n.minus) + n.whole + [] + [] + [b];
  }

  lemma FractionStart(n: Num, b: byte)
    requires NumOk(n) && n.fraction == [] && n.exponent.NoExponent? && IsDigit(b)
    ensures var m := n.(fraction := [b]); NumOk(m) && NumText(m) == NumText(n) + [POINT] + [b]
  {
    assert Sign(n.minus) + n.whole + ([POINT] + [b]) + [] == Sign(n.minus) + n.whole + [] + [] + [POINT] + [b];
  }

  lemma FractionMore(n: Num, b: byte)
    requires NumOk(n) && n.fraction != [] && n.exponent.NoExponent? && IsDigit(b)
    ensures var m := n.(fraction := n.fraction + [b]); NumOk(m) && NumText(m) == NumText(n) + [b]
  {
    assert Sign(n.minus) + n.whole + ([POINT] + (n.fraction + [b])) + []
        == Sign(n.minus) + n.whole + ([POINT] + n.fraction) + [] + [b];
  }

  lemma ExponentStart(n: Num, mark: byte, sign: bytes, b: byte)
    requires NumOk(n) && n.exponent.NoExponent? && IsExponent(mark) && IsDigit(b)
    requires sign == [] || sign == [PLUS] || sign == [MINUS]
    ensures var m := n.(exponent := Exponent(mark, sign, [b]));
            NumOk(m) && NumText(m) == NumText(n) + ([mark] + sign) + [b]
  {
    var front := Sign(n.minus) + n.whole + FractionText(n.fraction);
    assert front + ([mark] + sign + [b]) == front + [] + ([mark] + sign) + [b];
  }

  lemma ExponentMore(n: Num, b: byte)
    requires NumOk(n) && n.exponent.Exponent? && IsDigit(b)
    ensures var m := n.(exponent := n.exponent.(digits := n.exponent.digits + [b]));
            NumOk(m) && NumText(m) == NumText(n) + [b]
  {
    var front := Sign(n.minus) + n.whole + FractionText(n.fraction);
    var e := n.exponent;
    assert front + ([e.mark] + e.sign + (e.digits + [b])) == front + ([e.mark] + e.sign + e.digits) + [b];
  }

  lemma NumberStep(s: State, fs: seq<Frame>, h: Hole, b: byte, k: seq<Parse>) returns (g: Hole)
    requires StateOk(s) && HoleOk(s, fs, h) && h.MidNumber? && Step(s, k, b).Continue?
    requires !AfterValue(s) || Continues(s, b)
    ensures HoleOk(Step(s, k, b).state, fs, g) && HoleText(g) == HoleText(h) + [b] && Step(s, k, b).stack == k
  {
    hide WantOk, StringOk, FramesText, NumText, NumOk, NotKey;
    var n, pending := h.num, h.pending;
    NumberGroup(h.ws, NumText(n), pending, b);
    match s
    case One =>
      if IsDigit(b) {
        WholeMore(n, b);
        g := MidNumber(h.ws, n.(whole := n.whole + [b]), []);
      } else {
        g := MidNumber(h.ws, n, [b]);
      }
    case Zero => g := MidNumber(h.ws, n, [b]);
    case Dot =>
      FractionStart(n, b);
      g := MidNumber(h.ws, n.(fraction := [b]), []);
    case Dot0 =>
      if IsDigit(b) {
        FractionMore(n, b);
        g := MidNumber(h.ws, n.(fraction := n.fraction + [b]), []);
      } else {
        g := MidNumber(h.ws, n, [b]);
      }
    case E =>
      if IsDigit(b) {
        ExponentStart(n, pending[0], [], b);
        assert pending == [pending[0]] + [];
        g := MidNumber(h.ws, n.(exponent := Exponent(pending[0], [], [b])), []);
      } else {
        g := MidNumber(h.ws, n, pending + [b]);
      }
    case ESign =>
      ExponentStart(n, pending[0], [pending[1]], b);
      assert pending == [pending[0]] + [pending[1]];
      g := MidNumber(h.ws, n.(exponent := Exponent(pending[0], [pending[1]], [b])), []);
    case E0 =>
      ExponentMore(n, b);
      g := MidNumber(h.ws, n.(exponent := n.exponent.(digits := n.exponent.digits + [b])), []);
  }

  lemma NumberGroup(ws: bytes, text: bytes, pending: bytes, b: byte)
    ensures ws + (text + pending) + [b] == ws + (text + (pending + [b]))
    ensures ws + (text + pending) + [b] == ws + ((text + pending + [b]) + [])
    ensures pending == [] ==> ws + (text + pending) + [b] == ws + ((text + [b]) + []) == ws + (text + [b])
  {}

  // ----- where a value or a key begins -----

  lemma SpaceStep(s: State, fs: seq<Frame>, h: Hole, b: byte)
    requires HoleOk(s, fs, h) && h.Want? && IsSpace(b)
    ensures HoleOk(s, fs, Want(h.ws + [b])) && HoleText(Want(h.ws + [b])) == HoleText(h) + [b]
  {}

  lemma TokenBegins(s: State, fs: seq<Frame>, h: Hole, b: byte, k: seq<Parse>) returns (g: Hole)
    requires HoleOk(s, fs, h) && h.Want? && !IsSpace(b) && b != OPEN_LIST && b != OPEN_OBJECT
    requires Step(s, k, b).Continue?
    ensures HoleOk(Step(s, k, b).state, fs, g) && HoleText(g) == HoleText(h) + [b] && Step(s, k, b).stack == k
  {
    if b == QUOTE {
      g := MidString(h.ws, [], []);
      assert [QUOTE] + [] + [] == [QUOTE];
    } else if b == MINUS {
      g := MidMinus(h.ws);
    } else if IsDigit(b) {
      g := MidNumber(h.ws, Num(false, [b], [], NoExponent), []);
      assert [] + [b] + [] + [] + [] == [b];
    } else {
      g := MidWord(h.ws, if b == 116 then True else if b == 102 then False else Null, 1);
      assert WordText(g.word)[..1] == [b];
    }
  }

  lemma MinusStep(s: State, fs: seq<Frame>, h: Hole, b: byte, k: seq<Parse>) returns (g: Hole)
    requires HoleOk(s, fs, h) && h.MidMinus? && Step(s, k, b).Continue?
    ensures HoleOk(Step(s, k, b).state, fs, g) && HoleText(g) == HoleText(h) + [b] && Step(s, k, b).stack == k
  {
    g := MidNumber(h.ws, Num(true, [b], [], NoExponent), []);
    assert [MINUS] + [b] + [] + [] + [] == [MINUS] + [b];
    assert h.ws + ([MINUS] + [b]) == h.ws + [MINUS] + [b];
  }

  lemma WordStep(s: State, fs: seq<Frame>, h: Hole, b: byte, k: seq<Parse>) returns (g: Hole)
    requires StateOk(s) && HoleOk(s, fs, h) && h.MidWord? && Step(s, k, b).Continue?
    ensures HoleOk(Step(s, k, b).state, fs, g) && HoleText(g) == HoleText(h) + [b] && Step(s, k, b).stack == k
  {
    hide WordText;
    var word, seen := h.word, h.seen;
    assert WordText(word)[..seen + 1] == WordText(word)[..seen] + [b];
    if seen + 1 == |WordText(word)| {
      g := Complete(h.ws, Name(word), []);
      assert WordText(word)[..seen + 1] == WordText(word);
    } else {
      g := MidWord(h.ws, word, seen + 1);
    }
  }

  // ----- opening a bracket -----

  lemma PushFrame(k: seq<Parse>, fs: seq<Frame>, f: Frame)
    requires |fs| == |k| && (forall i | 0 <= i < |k| :: k[i] == KindOf(fs[i])) && (forall g | g in fs :: FrameOk(g)) && FrameOk(f)
    ensures var gs, m := fs + [f], k + [KindOf(f)];
            && |gs| == |m| && (forall i | 0 <= i < |m| :: m[i] == KindOf(gs[i])) && (forall g | g in gs :: FrameOk(g))
            && FramesText(gs) == FramesText(fs) + FrameText(f)
  {
    hide FrameOk, FrameText;
    assert (fs + [f])[..|fs|] == fs;
  }

  lemma OpenStep(s: State, k: seq<Parse>, fs: seq<Frame>, h: Hole, t: bytes, b: byte)
    requires Derives(s, k, fs, h, t) && h.Want? && (s.BeginValue? || s.BeginValueOrEmpty?) && (b == OPEN_LIST || b == OPEN_OBJECT)
    ensures Step(s, k, b).Continue? && Explained(Step(s, k, b).state, Step(s, k, b).stack, t + [b])
  {
    hide FramesText;
    var f := if b == OPEN_LIST then InList(h.ws, []) else InKey(h.ws, []);
    PushFrame(k, fs, f);
    assert h.ws + [b] + [] == h.ws + [b];
    assert FramesText(fs) + (h.ws + [b]) + [] == FramesText(fs) + h.ws + [b];
    assert Derives(Step(s, k, b).state, Step(s, k, b).stack, fs + [f], Want([]), t + [b]);
  }

  // ----- after a value -----

  /** The frame on top gives way to `f`, and a new value or key is wanted. */
  lemma Replaced(k: seq<Parse>, fs: seq<Frame>, h: Hole, t: bytes, b: byte, f: Frame, u: State, m: seq<Parse>)
    requires Derives(EndValue, k, fs, h, t) && fs != [] && FrameOk(f) && m == Retop(k, KindOf(f))
    requires FrameText(f) == FrameText(fs[|fs| - 1]) + HoleText(h) + [b]
    requires WantOk(u, fs[..|fs| - 1] + [f])
    ensures Explained(u, m, t + [b])
  {
    hide FrameOk, FrameText, HoleText, FramesText;
    var front, top := fs[..|fs| - 1], fs[|fs| - 1];
    FramesSnoc(fs);
    var gs := front + [f];
    assert gs[..|gs| - 1] == front;
    FramesSnoc(gs);
    assert forall g | g in gs :: g in fs || g == f;
    WantedNothing();
    assert FramesText(front) + (FrameText(top) + HoleText(h) + [b]) + [] == FramesText(front) + FrameText(top) + HoleText(h) + [b];
    assert Derives(u, m, gs, Want([]), t + [b]);
  }

  lemma FramesSnoc(fs: seq<Frame>)
    requires fs != []
    ensures FramesText(fs) == FramesText(fs[..|fs| - 1]) + FrameText(fs[|fs| - 1])
  {
    hide FrameText;
  }

  lemma WantedNothing()
    ensures HoleText(Want([])) == []
  {}

  lemma ItemsSnoc(items: seq<Item>, i: Item)
    ensures ItemsText(items + [i]) == Listed(items) + ItemText(i)
  {
    hide ItemText;
    assert (items + [i])[..|items|] == items;
    if items == [] { assert [] + ItemText(i) == ItemText(i); }
  }

  lemma MembersSnoc(members: seq<Member>, m: Member)
    ensures MembersText(members + [m]) == Keyed(members) + MemberText(m)
  {
    hide MemberText;
    assert (members + [m])[..|members|] == members;
    if members == [] { assert [] + MemberText(m) == MemberText(m); }
  }

  /** `,` in a list. */
  lemma NextItem(f: Frame, h: Hole)
    requires f.InList? && FrameOk(f) && h.Complete? && Ws(h.ws) && Ws(h.after) && ValueOk(h.value)
    ensures var g := InList(f.lead, f.items + [Item(h.ws, h.value, h.after)]);
            FrameOk(g) && g.items != [] && FrameText(g) == FrameText(f) + HoleText(h) + [COMMA]
  {
    hide ValueText, ValueOk;
    var i := Item(h.ws, h.value, h.after);
    ItemsSnoc(f.items, i);
    assert forall j | j in f.items + [i] :: j in f.items || j == i;
    assert ItemText(i) == HoleText(h);
    hide ItemsText, Listed, HoleText, ItemText;
    ListedSome(f.items + [i]);
    var front := f.lead + [OPEN_LIST];
    assert front + (Listed(f.items) + HoleText(h) + [COMMA]) == front + Listed(f.items) + HoleText(h) + [COMMA];
  }

  lemma ListedSome(items: seq<Item>)
    requires items != []
    ensures Listed(items) == ItemsText(items) + [COMMA]
  {}

  lemma KeyedSome(members: seq<Member>)
    requires members != []
    ensures Keyed(members) == MembersText(members) + [COMMA]
  {}

  /** `:` behind a key. */
  lemma NextColon(f: Frame, h: Hole)
    requires f.InKey? && FrameOk(f) && h.Complete? && Ws(h.ws) && Ws(h.after) && ValueOk(h.value) && h.value.String?
    ensures var g := InMember(f.lead, f.members, h.ws, h.value.chars, h.after);
            FrameOk(g) && FrameText(g) == FrameText(f) + HoleText(h) + [COLON]
  {
    hide StringText, Keyed;
    var front := f.lead + [OPEN_OBJECT] + Keyed(f.members);
    var text := StringText(h.value.chars);
    assert front + (h.ws + text + h.after + [COLON]) == front + (h.ws + text + h.after) + [COLON];
  }

  function MemberOf(f: Frame, h: Hole): Member
    requires f.InMember? && h.Complete?
  {
    Member(f.before, f.key, f.after, Item(h.ws, h.value, h.after))
  }

  lemma MemberDone(f: Frame, h: Hole)
    requires f.InMember? && FrameOk(f) && h.Complete? && Ws(h.ws) && Ws(h.after) && ValueOk(h.value)
    ensures MemberOk(MemberOf(f, h))
    ensures forall m | m in f.members + [MemberOf(f, h)] :: MemberOk(m)
    ensures f.lead + [OPEN_OBJECT] + MembersText(f.members + [MemberOf(f, h)]) == FrameText(f) + HoleText(h)
  {
    hide ValueText, ValueOk, StringText, MembersText;
    var m := MemberOf(f, h);
    MembersSnoc(f.members, m);
    assert forall j | j in f.members + [m] :: j in f.members || j == m;
    hide Keyed;
    var front, key := f.lead + [OPEN_OBJECT], f.before + StringText(f.key) + f.after + [COLON];
    assert front + (Keyed(f.members) + (key + HoleText(h))) == front + Keyed(f.members) + key + HoleText(h);
  }

  /** `,` in an object. */
  lemma NextMember(f: Frame, h: Hole)
    requires f.InMember? && FrameOk(f) && h.Complete? && Ws(h.ws) && Ws(h.after) && ValueOk(h.value)
    ensures var g := InKey(f.lead, f.members + [MemberOf(f, h)]);
            FrameOk(g) && FrameText(g) == FrameText(f) + HoleText(h) + [COMMA]
  {
    hide MemberOk, HoleText, MembersText, MemberOf;
    MemberDone(f, h);
    KeyedSome(f.members + [MemberOf(f, h)]);
    var front, all := f.lead + [OPEN_OBJECT], MembersText(f.members + [MemberOf(f, h)]);
    hide FrameOk;
    assert front + (all + [COMMA]) == front + all + [COMMA];
  }

  // ----- closing a bracket -----

  /** The value a closing bracket completes. */
  lemma Closed(s: State, k: seq<Parse>, fs: seq<Frame>, h: Hole, t: bytes, b: byte, v: Value)
    requires Derives(s, k, fs, h, t) && fs != [] && ValueOk(v)
    requires fs[|fs| - 1].lead + ValueText(v) == FrameText(fs[|fs| - 1]) + HoleText(h) + [b]
    requires |fs| > 1 && fs[|fs| - 2].InKey? ==> v.String?
    ensures Explained(EndValue, k[..|k| - 1], t + [b])
    ensures |fs| == 1 ==> IsText(t + [b])
  {
    hide FrameText, HoleText, ValueText, FramesText, ValueOk;
    var front, top := fs[..|fs| - 1], fs[|fs| - 1];
    FramesSnoc(fs);
    assert top in fs && FrameOk(top);
    var done := Complete(top.lead, v, []);
    DoneText(done);
    assert FramesText(front) + (FrameText(top) + HoleText(h) + [b]) == FramesText(front) + FrameText(top) + HoleText(h) + [b];
    assert forall f | f in front :: f in fs;
    assert Derives(EndValue, k[..|k| - 1], front, done, t + [b]);
    if |fs| == 1 {
      NoFrames(front);
      assert t + [b] == top.lead + ValueText(v);
    }
  }

  lemma NoFrames(fs: seq<Frame>)
    requires fs == []
    ensures FramesText(fs) + [] == [] && forall t: bytes :: FramesText(fs) + t == t
  {
    assert forall t: bytes :: [] + t == t;
  }

  lemma DoneText(h: Hole)
    requires h.Complete? && h.after == []
    ensures HoleText(h) == h.ws + ValueText(h.value)
  {
    hide ValueText;
  }

  lemma EmptyListText(lead: bytes, ws: bytes)
    ensures lead + ValueText(List(ws, [])) == FrameText(InList(lead, [])) + ws + [CLOSE_LIST]
  {
    assert lead + ([OPEN_LIST] + ws + [CLOSE_LIST]) == lead + [OPEN_LIST] + [] + ws + [CLOSE_LIST];
  }

  lemma EmptyObjectText(lead: bytes, ws: bytes)
    ensures lead + ValueText(Object(ws, [])) == FrameText(InKey(lead, [])) + ws + [CLOSE_OBJECT]
  {
    assert lead + ([OPEN_OBJECT] + ws + [CLOSE_OBJECT]) == lead + [OPEN_OBJECT] + [] + ws + [CLOSE_OBJECT];
  }

  lemma ListItemsOk(items: seq<Item>, h: Hole)
    requires (forall i | i in items :: ItemOk(i)) && h.Complete? && Ws(h.ws) && Ws(h.after) && ValueOk(h.value)
    ensures ValueOk(List([], items + [Item(h.ws, h.value, h.after)]))
  {
    var i := Item(h.ws, h.value, h.after);
    assert ItemOk(i);
    hide ItemOk;
    assert forall j | j in items + [i] :: j in items || j == i;
  }

  lemma ItemIsHole(h: Hole)
    requires h.Complete?
    ensures ItemText(Item(h.ws, h.value, h.after)) == HoleText(h)
  {
    hide ValueText;
  }

  lemma ListText(f: Frame, h: Hole)
    requires f.InList? && FrameOk(f) && h.Complete? && Ws(h.ws) && Ws(h.after) && ValueOk(h.value)
    ensures var v := List([], f.items + [Item(h.ws, h.value, h.after)]);
            ValueOk(v) && f.lead + ValueText(v) == FrameText(f) + HoleText(h) + [CLOSE_LIST]
  {
    hide ValueOk, ItemOk, ItemsText, Listed, HoleText, ItemText, ValueText;
    var i := Item(h.ws, h.value, h.after);
    ListItemsOk(f.items, h);
    ListOfText(f.items + [i]);
    ItemsSnoc(f.items, i);
    ItemIsHole(h);
    assert f.lead + ([OPEN_LIST] + (Listed(f.items) + HoleText(h)) + [CLOSE_LIST])
        == f.lead + [OPEN_LIST] + Listed(f.items) + HoleText(h) + [CLOSE_LIST];
  }

  lemma ListOfText(items: seq<Item>)
    requires items != []
    ensures ValueText(List([], items)) == [OPEN_LIST] + ItemsText(items) + [CLOSE_LIST]
  {}

  lemma ObjectOfText(members: seq<Member>)
    requires members != []
    ensures ValueText(Object([], members)) == [OPEN_OBJECT] + MembersText(members) + [CLOSE_OBJECT]
  {}

  lemma ObjectText(f: Frame, h: Hole)
    requires f.InMember? && FrameOk(f) && h.Complete? && Ws(h.ws) && Ws(h.after) && ValueOk(h.value)
    ensures var v := Object([], f.members + [MemberOf(f, h)]);
            ValueOk(v) && f.lead + ValueText(v) == FrameText(f) + HoleText(h) + [CLOSE_OBJECT]
  {
    hide MemberOk, HoleText, MembersText, MemberOf, FrameText, ValueText;
    MemberDone(f, h);
    ObjectOfText(f.members + [MemberOf(f, h)]);
    var all := MembersText(f.members + [MemberOf(f, h)]);
    assert f.lead + ([OPEN_OBJECT] + all + [CLOSE_OBJECT]) == f.lead + [OPEN_OBJECT] + all + [CLOSE_OBJECT];
  }

  /** A number that may end here has ended. */
  lemma Settled(s: State, k: seq<Parse>, fs: seq<Frame>, h: Hole, t: bytes) returns (g: Hole)
    requires Derives(s, k, fs, h, t) && AfterValue(s) && (h.Complete? || h.MidNumber?)
    ensures g.Complete? && Derives(EndValue, k, fs, g, t)
  {
    if h.Complete? {
      g := h;
    } else {
      g := Complete(h.ws, Number(h.num), []);
      NumberDone(h.ws, NumText(h.num));
    }
  }

  lemma NumberDone(ws: bytes, text: bytes)
    ensures ws + (text + []) == ws + text + []
  {}

  // ----- one byte -----

  lemma ValueByte(k: seq<Parse>, fs: seq<Frame>, h: Hole, t: bytes, b: byte)
    requires Derives(EndValue, k, fs, h, t) && h.Complete? && k != []
    ensures EndOf(b, k).Continue? ==> Explained(EndOf(b, k).state, EndOf(b, k).stack, t + [b])
    ensures EndOf(b, k).Closed? ==> Explained(EndValue, EndOf(b, k).stack, t + [b])
    ensures EndOf(b, k).Closed? && EndOf(b, k).stack == [] ==> IsText(t + [b])
  {
    hide FramesText, FrameText, HoleText, ValueText, ValueOk, MemberOk, ItemOk, StringText;
    var top := fs[|fs| - 1];
    assert top in fs && FrameOk(top) && KindOf(top) == Top(k);
    if IsSpace(b) {
      var g := Complete(h.ws, h.value, h.after + [b]);
      SpaceAfter(h, b);
      HoleStep(EndValue, k, fs, h, t, EndValue, g, b);
      assert Derives(EndValue, k, fs, g, t + [b]);
    } else {
      match top
      case InList(lead, items) =>
        if b == COMMA {
          var g := InList(lead, items + [Item(h.ws, h.value, h.after)]);
          NextItem(top, h);
          assert Retop(k, ArrayValue) == k;
          Replaced(k, fs, h, t, b, g, BeginValue, k);
        } else if b == CLOSE_LIST {
          ListText(top, h);
          Closed(EndValue, k, fs, h, t, b, List([], items + [Item(h.ws, h.value, h.after)]));
        }
      case InKey(lead, members) =>
        if b == COLON {
          NextColon(top, h);
          Replaced(k, fs, h, t, b, InMember(lead, members, h.ws, h.value.chars, h.after), BeginValue, Retop(k, ObjectValue));
        }
      case InMember(lead, members, before, key, after) =>
        if b == COMMA {
          NextMember(top, h);
          Replaced(k, fs, h, t, b, InKey(lead, members + [MemberOf(top, h)]), BeginString, Retop(k, ObjectKey));
        } else if b == CLOSE_OBJECT {
          ObjectText(top, h);
          Closed(EndValue, k, fs, h, t, b, Object([], members + [MemberOf(top, h)]));
        }
    }
  }

  lemma SpaceAfter(h: Hole, b: byte)
    requires h.Complete?
    ensures HoleText(Complete(h.ws, h.value, h.after + [b])) == HoleText(h) + [b]
  {
    hide ValueText;
    assert h.ws + ValueText(h.value) + (h.after + [b]) == h.ws + ValueText(h.value) + h.after + [b];
  }

  lemma WantByte(s: State, k: seq<Parse>, fs: seq<Frame>, h: Hole, t: bytes, b: byte)
    requires Derives(s, k, fs, h, t) && h.Want? && StateOk(s)
    ensures Step(s, k, b).Continue? ==> Explained(Step(s, k, b).state, Step(s, k, b).stack, t + [b])
    ensures Step(s, k, b).Closed? ==> Explained(EndValue, Step(s, k, b).stack, t + [b])
    ensures Step(s, k, b).Closed? && Step(s, k, b).stack == [] ==> IsText(t + [b])
  {
    if IsSpace(b) {
      SpaceStep(s, fs, h, b);
      HoleStep(s, k, fs, h, t, s, Want(h.ws + [b]), b);
      assert Derives(s, k, fs, Want(h.ws + [b]), t + [b]);
    } else if (s.BeginValue? || s.BeginValueOrEmpty?) && (b == OPEN_LIST || b == OPEN_OBJECT) {
      OpenStep(s, k, fs, h, t, b);
    } else {
      WantToken(s, k, fs, h, t, b);
    }
  }

  lemma WantToken(s: State, k: seq<Parse>, fs: seq<Frame>, h: Hole, t: bytes, b: byte)
    requires Derives(s, k, fs, h, t) && h.Want? && StateOk(s) && !IsSpace(b)
    requires (s.BeginValue? || s.BeginValueOrEmpty?) ==> b != OPEN_LIST && b != OPEN_OBJECT
    ensures Step(s, k, b).Continue? ==> Explained(Step(s, k, b).state, Step(s, k, b).stack, t + [b])
    ensures Step(s, k, b).Closed? ==> Explained(EndValue, Step(s, k, b).stack, t + [b])
    ensures Step(s, k, b).Closed? && Step(s, k, b).stack == [] ==> IsText(t + [b])
  {
    hide FramesText, FrameText, FrameOk, HoleText;
    if Step(s, k, b).Continue? {
      var g := TokenBegins(s, fs, h, b, k);
      HoleStep(s, k, fs, h, t, Step(s, k, b).state, g, b);
      assert Derives(Step(s, k, b).state, k, fs, g, t + [b]);
    } else if Step(s, k, b).Closed? {
      var top := fs[|fs| - 1];
      WantText(h);
      if b == CLOSE_LIST {
        EmptyListText(top.lead, h.ws);
        Closed(s, k, fs, h, t, b, List(h.ws, []));
      } else {
        EmptyObjectText(top.lead, h.ws);
        Closed(s, k, fs, h, t, b, Object(h.ws, []));
      }
    }
  }

  lemma WantText(h: Hole)
    requires h.Want?
    ensures HoleText(h) == h.ws
  {}

  lemma TokenByte(s: State, k: seq<Parse>, fs: seq<Frame>, h: Hole, t: bytes, b: byte)
    requires Derives(s, k, fs, h, t) && StateOk(s) && !h.Want? && !h.Complete?
    requires Step(s, k, b).Continue? && (!AfterValue(s) || Continues(s, b))
    ensures Explained(Step(s, k, b).state, Step(s, k, b).stack, t + [b])
  {
    var g: Hole;
    match h {
      case MidWord(_, _, _) => g := WordStep(s, fs, h, b, k);
      case MidString(_, _, _) => g := StringStep(s, fs, h, b, k);
      case MidMinus(_) => g := MinusStep(s, fs, h, b, k);
      case MidNumber(_, _, _) => g := NumberStep(s, fs, h, b, k);
    }
    HoleStep(s, k, fs, h, t, Step(s, k, b).state, g, b);
    assert Derives(Step(s, k, b).state, k, fs, g, t + [b]);
  }

  /** Each step leaves an explained state, or a text complete with this byte or with the one before it. */
  lemma StepSound(s: State, k: seq<Parse>, t: bytes, b: byte)
    requires StateOk(s) && Explained(s, k, t)
    ensures match Step(s, k, b)
            case Continue(u, m) => Explained(u, m, t + [b])
            case Closed(m) => Explained(EndValue, m, t + [b]) && (m == [] ==> IsText(t + [b]))
            case TopEnd => IsText(t)
            case Bad(_) => true
  {
    hide Derives, EndOf;
    var fs, h :| Derives(s, k, fs, h, t);
    HoleShape(s, k, fs, h, t);
    if AfterValue(s) && !Continues(s, b) {
      AfterByte(s, k, b);
      var g := Settled(s, k, fs, h, t);
      if k == [] {
        TopText(fs, g, t);
        EndTop(b);
      } else {
        ValueByte(k, fs, g, t, b);
        EndNotTop(b, k);
      }
    } else if h.Want? {
      WantByte(s, k, fs, h, t, b);
    } else if Step(s, k, b).Continue? {
      TokenByte(s, k, fs, h, t, b);
    }
  }

  lemma EndTop(b: byte)
    ensures EndOf(b, []) == TopEnd
  {}

  lemma EndNotTop(b: byte, k: seq<Parse>)
    requires k != []
    ensures !EndOf(b, k).TopEnd?
  {}

  lemma HoleShape(s: State, k: seq<Parse>, fs: seq<Frame>, h: Hole, t: bytes)
    requires Derives(s, k, fs, h, t)
    ensures AfterValue(s) <==> h.Complete? || (h.MidNumber? && h.pending == [])
    ensures h.Want? <==> BeginsValue(s) || BeginsKey(s)
    ensures h.Complete? ==> s.EndValue?
  {
    hide FramesText, HoleText;
  }

  lemma TopText(fs: seq<Frame>, h: Hole, t: bytes)
    requires Derives(EndValue, [], fs, h, t) && h.Complete?
    ensures IsText(t)
  {
    hide ValueText, ValueOk;
    assert fs == [] && h.after == [];
    NoFrames(fs);
    DoneText(h);
    assert t == h.ws + ValueText(h.value);
  }

  // ----- whole inputs -----

  lemma {:induction false} FeedSound(s: State, k: seq<Parse>, t: bytes, input: bytes)
    requires StateOk(s) && Explained(s, k, t)
    ensures match Feed(s, k, input)
            case Still(u, m) => Explained(u, m, t + input)
            case Ended(n) => n <= |input| && IsText(t + input[..n])
            case Failed(_) => true
    decreases |input|
  {
    hide Step, Explained, IsText;
    if input == [] {
      assert t + [] == t;
    } else {
      var b := input[0];
      StepSound(s, k, t, b);
      assert t + [b] + input[1..] == t + input;
      assert input[..0] == [] && t + [] == t && input[..1] == [b];
      match Step(s, k, b)
      case Continue(u, m) =>
        FeedSound(u, m, t + [b], input[1..]);
        PrefixMoves(t, input, Feed(u, m, input[1..]));
      case Closed(m) =>
        if m != [] {
          FeedSound(EndValue, m, t + [b], input[1..]);
          PrefixMoves(t, input, Feed(EndValue, m, input[1..]));
        }
      case TopEnd =>
      case Bad(_) =>
    }
  }

  lemma PrefixMoves(t: bytes, input: bytes, f: Fed)
    requires input != []
    ensures f.Ended? && f.n < |input| ==> t + [input[0]] + input[1..][..f.n] == t + input[..f.n + 1]
  {
    if f.Ended? && f.n < |input| {
      assert input[..f.n + 1] == [input[0]] + input[1..][..f.n];
    }
  }

  lemma StartExplained()
    ensures Explained(BeginValue, [], [])
  {
    assert Derives(BeginValue, [], [], Want([]), []);
  }

  /** Whatever is accepted up to `n` is blanks and one JSON value. */
  lemma ScanIsSound(input: bytes)
    ensures ScanOf(input).Ok? ==> ScanOf(input).end <= |input| && IsText(input[..ScanOf(input).end])
  {
    hide Explained, IsText;
    StartExplained();
    FeedSound(BeginValue, [], [], input);
    assert [] + input == input && input[..|input|] == input;
    match Feed(BeginValue, [], input)
    case Ended(n) => assert [] + input[..n] == input[..n];
    case Failed(_) =>
    case Still(s, k) => if AfterValue(s) && k == [] { StillText(s, input); }
  }

  lemma StillText(s: State, t: bytes)
    requires AfterValue(s) && Explained(s, [], t)
    ensures IsText(t)
  {
    hide Derives, IsText;
    var fs, h :| Derives(s, [], fs, h, t);
    HoleShape(s, [], fs, h, t);
    var g := Settled(s, [], fs, h, t);
    TopText(fs, g, t);
  }

  // ----- what is missing -----

  /** The shortest way out of a token. */
  function FinishToken(s: State): bytes
    requires StateOk(s)
  {
    match s
    case BeginString => [QUOTE, QUOTE]
    case BeginStringOrEmpty => [QUOTE, QUOTE]
    case InString => [QUOTE]
    case InStringEsc => [110, QUOTE]
    case InStringEscU(digits) => seq(4 - digits, _ => 48) + [QUOTE]
    case Literal(word, seen) => WordText(word)[seen..]
    case EndValue => []
    case One => []
    case Zero => []
    case Dot0 => []
    case E0 => []
    case _ => [48]
  }

  lemma HexFill(i: nat, k: seq<Parse>)
    requires i <= 3
    ensures Feed(InStringEscU(i), k, seq(4 - i, _ => 48) + [QUOTE]) == Still(EndValue, k)
  {
    var hex := seq(4, _ => 48);
    HexFeeds(hex, i, k);
    assert hex[i..] == seq(4 - i, _ => 48);
    OneByte(InString, k, QUOTE);
    Through(InStringEscU(i), k, hex[i..], [QUOTE], InString, k);
  }

  lemma TokenFinishes(s: State, k: seq<Parse>)
    requires StateOk(s)
    ensures var f := Feed(s, k, FinishToken(s)); f.Still? && f.stack == k && AfterValue(f.state)
  {
    match s
    case BeginString => StringFeeds([], k, s); assert StringText([]) == [QUOTE, QUOTE];
    case BeginStringOrEmpty => StringFeeds([], k, s); assert StringText([]) == [QUOTE, QUOTE];
    case InString => OneByte(s, k, QUOTE);
    case InStringEsc =>
      OneByte(s, k, 110);
      OneByte(InString, k, QUOTE);
      Through(s, k, [110], [QUOTE], InString, k);
      assert [110] + [QUOTE] == [110, QUOTE];
    case InStringEscU(digits) => HexFill(digits, k);
    case Literal(word, seen) => WordRest(word, seen, k);
    case BeginValue => OneByte(s, k, 48);
    case BeginValueOrEmpty => OneByte(s, k, 48);
    case Neg => OneByte(s, k, 48);
    case Dot => OneByte(s, k, 48);
    case E => OneByte(s, k, 48);
    case ESign => OneByte(s, k, 48);
    case _ =>
  }

  function CloseOne(p: Parse): bytes {
    match p
    case ObjectKey => [COLON, 48, CLOSE_OBJECT]
    case ObjectValue => [CLOSE_OBJECT]
    case ArrayValue => [CLOSE_LIST]
  }

  /** Every open bracket closed, from a value on. */
  function CloseAll(k: seq<Parse>): bytes
    decreases |k|
  {
    if k == [] then [] else CloseOne(Top(k)) + CloseAll(k[..|k| - 1])
  }

  /** The input is accepted here or would be if it ended here. */
  predicate Accepted(f: Fed) { f.Ended? || (f.Still? && f.stack == [] && AfterValue(f.state)) }

  lemma OneCloses(t: State, k: seq<Parse>)
    requires AfterValue(t) && k != []
    ensures var left := k[..|k| - 1];
            var f := Feed(t, k, CloseOne(Top(k)));
            if left == [] then f.Ended? else f == Still(EndValue, left)
  {
    var left := k[..|k| - 1];
    assert k == left + [Top(k)];
    match Top(k)
    case ArrayValue => Closes(t, left, ArrayValue, CLOSE_LIST);
    case ObjectValue => Closes(t, left, ObjectValue, CLOSE_OBJECT);
    case ObjectKey =>
      var m := left + [ObjectValue];
      PunctuationAfter(t, k, COLON);
      assert Retop(k, ObjectValue) == m;
      OneByte(t, k, COLON);
      OneByte(BeginValue, m, 48);
      Through(t, k, [COLON], [48], BeginValue, m);
      Closes(Zero, left, ObjectValue, CLOSE_OBJECT);
      Through(t, k, [COLON] + [48], [CLOSE_OBJECT], Zero, m);
      assert [COLON] + [48] + [CLOSE_OBJECT] == CloseOne(ObjectKey);
  }

  lemma {:induction false} AllClose(t: State, k: seq<Parse>)
    requires AfterValue(t)
    ensures Accepted(Feed(t, k, CloseAll(k)))
    decreases |k|
  {
    hide CloseOne, Feed;
    if k == [] {
      NothingFed(t, k);
    } else {
      var left := k[..|k| - 1];
      OneCloses(t, k);
      FeedAppend(t, k, CloseOne(Top(k)), CloseAll(left));
      if left != [] { AllClose(EndValue, left); }
    }
  }

  lemma NothingFed(t: State, k: seq<Parse>)
    requires StateOk(t)
    ensures Feed(t, k, []) == Still(t, k)
  {}

  /** From every state some bytes lead to acceptance. */
  lemma Completes(s: State, k: seq<Parse>)
    requires StateOk(s)
    ensures Accepted(Feed(s, k, FinishToken(s) + CloseAll(k)))
  {
    hide FinishToken, CloseAll, Feed;
    TokenFinishes(s, k);
    var t := Feed(s, k, FinishToken(s)).state;
    AllClose(t, k);
    FeedAppend(s, k, FinishToken(s), CloseAll(k));
  }

  lemma AcceptedIsOk(input: bytes)
    requires Accepted(Feed(BeginValue, [], input)) && !Blank(input)
    ensures ScanOf(input).Ok?
  {}

  /**
   * "unexpected EOF" is answered exactly for inputs that are not blank, not accepted as they stand, and accepted with
   * something more behind them; "EOF" exactly for blank ones.
   */
  lemma CutShort(input: bytes)
    ensures ScanOf(input) == Err(UnexpectedEof) <==>
              !Blank(input) && !ScanOf(input).Ok? && exists more :: ScanOf(input + more).Ok?
    ensures ScanOf(input) == Err(Eof) <==> Blank(input)
  {
    hide Feed, Blank;
    if Blank(input) {
      BlankStays(input);
    } else {
      match Feed(BeginValue, [], input)
      case Ended(_) =>
      case Failed(e) =>
        FailureIsInvalid(BeginValue, [], input);
        forall more ensures !ScanOf(input + more).Ok? { FeedAppend(BeginValue, [], input, more); }
      case Still(s, k) =>
        var more := FinishToken(s) + CloseAll(k);
        Completes(s, k);
        FeedAppend(BeginValue, [], input, more);
        StillNotBlank(input, more);
        AcceptedIsOk(input + more);
    }
  }

  lemma StillNotBlank(a: bytes, b: bytes)
    requires !Blank(a)
    ensures !Blank(a + b)
  {
    var x :| x in a && !IsSpace(x);
    assert x in a + b;
  }

  lemma BlankStays(input: bytes)
    requires Blank(input)
    ensures Feed(BeginValue, [], input) == Still(BeginValue, [])
  {
    SpacesStay(BeginValue, [], input);
  }

  lemma {:induction false} FailureIsInvalid(s: State, k: seq<Parse>, input: bytes)
    requires StateOk(s)
    ensures Feed(s, k, input).Failed? ==> Feed(s, k, input).error.Invalid?
    decreases |input|
  {
    if input != [] {
      match Step(s, k, input[0])
      case Continue(t, m) => FailureIsInvalid(t, m, input[1..]);
      case Closed(m) => if m != [] { FailureIsInvalid(EndValue, m, input[1..]); }
      case TopEnd =>
      case Bad(_) =>
    }
  }
}
