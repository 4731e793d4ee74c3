/** Every JSON text is accepted, up to exactly its end, whatever follows it. */
module JsonComplete {
  import opened Bytes
  import opened JsonScan
  import opened JsonGrammar

  predicate BeginsValue(s: State) { s.BeginValue? || s.BeginValueOrEmpty? }

  predicate BeginsKey(s: State) { s.BeginString? || s.BeginStringOrEmpty? }

  /** A stretch that is read to its end. */
  lemma Through(s: State, k: seq<Parse>, a: bytes, b: bytes, t: State, left: seq<Parse>)
    requires StateOk(s) && Feed(s, k, a) == Still(t, left)
    ensures Feed(s, k, a + b) == Later(|a|, Feed(t, left, b))
  {
    FeedAppend(s, k, a, b);
  }

  lemma OneByte(s: State, k: seq<Parse>, b: byte)
    requires StateOk(s)
    ensures Step(s, k, b).Continue? ==> Feed(s, k, [b]) == Still(Step(s, k, b).state, Step(s, k, b).stack)
    ensures Step(s, k, b).Closed? && Step(s, k, b).stack != [] ==> Feed(s, k, [b]) == Still(EndValue, Step(s, k, b).stack)
    ensures Step(s, k, b).Closed? && Step(s, k, b).stack == [] ==> Feed(s, k, [b]) == Ended(1)
  {
    hide Step;
    assert [b][1..] == [];
  }

  // ----- blanks and digits -----

  lemma {:induction false} SpacesStay(s: State, k: seq<Parse>, ws: bytes)
    requires BeginsValue(s) || BeginsKey(s) || (s.EndValue? && k != [])
    requires Ws(ws)
    ensures Feed(s, k, ws) == Still(s, k)
    decreases |ws|
  {
    if ws != [] {
      assert ws[0] in ws && forall b | b in ws[1..] :: b in ws;
      SpacesStay(s, k, ws[1..]);
    }
  }

  lemma {:induction false} DigitsStay(s: State, k: seq<Parse>, ds: bytes)
    requires (s.One? || s.Dot0? || s.E0?) && Digits(ds)
    ensures Feed(s, k, ds) == Still(s, k)
    decreases |ds|
  {
    if ds != [] {
      assert ds[0] in ds && forall b | b in ds[1..] :: b in ds;
      DigitsStay(s, k, ds[1..]);
    }
  }

  // ----- names -----

  lemma {:induction false} WordRest(w: Word, seen: nat, k: seq<Parse>)
    requires 1 <= seen < |WordText(w)|
    ensures Feed(Literal(w, seen), k, WordText(w)[seen..]) == Still(EndValue, k)
    decreases |WordText(w)| - seen
  {
    hide WordText;
    assert WordText(w)[seen..][1..] == WordText(w)[seen + 1..];
    if seen + 1 < |WordText(w)| {
      WordRest(w, seen + 1, k);
    }
  }

  lemma WordFeeds(w: Word, k: seq<Parse>, s: State)
    requires BeginsValue(s)
    ensures Feed(s, k, WordText(w)) == Still(EndValue, k)
  {
    WordRest(w, 1, k);
    assert Step(s, k, WordText(w)[0]) == Continue(Literal(w, 1), k);
  }

  // ----- numbers -----

  /** The state a number ends in. */
  function WholeState(w: bytes): State { if w == [48] then Zero else One }

  function NumState(n: Num): State {
    if n.exponent.Exponent? then E0 else if n.fraction != [] then Dot0 else WholeState(n.whole)
  }

  lemma WholeFeeds(w: bytes, k: seq<Parse>, s: State)
    requires WholeOk(w) && (BeginsValue(s) || s.Neg?)
    ensures Feed(s, k, w) == Still(WholeState(w), k)
  {
    if w == [48] {
      OneByte(s, k, 48);
    } else {
      assert w == [w[0]] + w[1..];
      assert forall b | b in w[1..] :: b in w;
      OneByte(s, k, w[0]);
      DigitsStay(One, k, w[1..]);
      Through(s, k, [w[0]], w[1..], One, k);
    }
  }

  lemma FractionFeeds(f: bytes, k: seq<Parse>, s: State)
    requires Digits(f) && (s.Zero? || s.One?)
    ensures Feed(s, k, FractionText(f)) == Still(if f == [] then s else Dot0, k)
  {
    if f != [] {
      assert [POINT] + f == [POINT] + [f[0]] + f[1..];
      assert f[0] in f && forall b | b in f[1..] :: b in f;
      OneByte(s, k, POINT);
      OneByte(Dot, k, f[0]);
      DigitsStay(Dot0, k, f[1..]);
      Through(s, k, [POINT], [f[0]], Dot, k);
      Through(s, k, [POINT] + [f[0]], f[1..], Dot0, k);
    }
  }

  lemma MarkFeeds(e: Exponent, k: seq<Parse>, s: State)
    requires ExponentOk(e) && e.Exponent? && (s.Zero? || s.One? || s.Dot0?)
    ensures Feed(s, k, [e.mark] + e.sign) == Still(if e.sign == [] then E else ESign, k)
  {
    OneByte(s, k, e.mark);
    if e.sign == [] {
      assert [e.mark] + e.sign == [e.mark];
    } else {
      OneByte(E, k, e.sign[0]);
      Through(s, k, [e.mark], e.sign, E, k);
    }
  }

  lemma PowerFeeds(digits: bytes, k: seq<Parse>, s: State)
    requires digits != [] && Digits(digits) && (s.E? || s.ESign?)
    ensures Feed(s, k, digits) == Still(E0, k)
  {
    assert digits[0] in digits && forall b | b in digits[1..] :: b in digits;
    OneByte(s, k, digits[0]);
    DigitsStay(E0, k, digits[1..]);
    assert [digits[0]] + digits[1..] == digits;
    Through(s, k, [digits[0]], digits[1..], E0, k);
  }

  lemma ExponentFeeds(e: Exponent, k: seq<Parse>, s: State)
    requires ExponentOk(e) && (s.Zero? || s.One? || s.Dot0?)
    ensures Feed(s, k, ExponentText(e)) == Still(if e.NoExponent? then s else E0, k)
  {
    if e.Exponent? {
      var t := if e.sign == [] then E else ESign;
      MarkFeeds(e, k, s);
      PowerFeeds(e.digits, k, t);
      hide Feed;
      Through(s, k, [e.mark] + e.sign, e.digits, t, k);
    }
  }

  lemma NumberEnds(n: Num)
    ensures AfterValue(NumState(n))
  {}

  lemma NumberFeeds(n: Num, k: seq<Parse>, s: State)
    requires NumOk(n) && BeginsValue(s)
    ensures Feed(s, k, NumText(n)) == Still(NumState(n), k)
  {
    hide WholeOk, ExponentOk, Step, Feed, FractionText, ExponentText;
    var t := if n.minus then Neg else s;
    SignFeeds(n.minus, k, s);
    WholeFeeds(n.whole, k, t);
    Through(s, k, Sign(n.minus), n.whole, t, k);
    FractionFeeds(n.fraction, k, WholeState(n.whole));
    Through(s, k, Sign(n.minus) + n.whole, FractionText(n.fraction), WholeState(n.whole), k);
    var u := if n.fraction == [] then WholeState(n.whole) else Dot0;
    ExponentFeeds(n.exponent, k, u);
    Through(s, k, Sign(n.minus) + n.whole + FractionText(n.fraction), ExponentText(n.exponent), u, k);
  }

  lemma SignFeeds(minus: bool, k: seq<Parse>, s: State)
    requires BeginsValue(s)
    ensures Feed(s, k, Sign(minus)) == Still(if minus then Neg else s, k)
  {
    if minus { OneByte(s, k, MINUS); }
  }

  // ----- strings -----

  lemma CharFeeds(c: Char, k: seq<Parse>)
    requires CharOk(c)
    ensures Feed(InString, k, CharText(c)) == Still(InString, k)
  {
    match c
    case Plain(b) => OneByte(InString, k, b);
    case Escaped(b) =>
      OneByte(InString, k, ESCAPE);
      OneByte(InStringEsc, k, b);
      Through(InString, k, [ESCAPE], [b], InStringEsc, k);
      assert [ESCAPE] + [b] == [ESCAPE, b];
    case Unicode(hex) =>
      OneByte(InString, k, ESCAPE);
      OneByte(InStringEsc, k, 117);
      Through(InString, k, [ESCAPE], [117], InStringEsc, k);
      assert [ESCAPE] + [117] == [ESCAPE, 117];
      HexFeeds(hex, 0, k);
      assert hex[0..] == hex;
      Through(InString, k, [ESCAPE, 117], hex, InStringEscU(0), k);
  }

  lemma {:induction false} HexFeeds(hex: bytes, i: nat, k: seq<Parse>)
    requires |hex| == 4 && i <= 3 && forall b | b in hex :: IsHex(b)
    ensures Feed(InStringEscU(i), k, hex[i..]) == Still(InString, k)
    decreases 4 - i
  {
    assert hex[i..][1..] == hex[i + 1..] && hex[i] in hex;
    if i < 3 { HexFeeds(hex, i + 1, k); }
  }

  lemma {:induction false} CharsFeed(cs: seq<Char>, k: seq<Parse>)
    requires CharsOk(cs)
    ensures Feed(InString, k, CharsText(cs)) == Still(InString, k)
  {
    if cs != [] {
      var n := |cs| - 1;
      assert cs[n] in cs && forall c | c in cs[..n] :: c in cs;
      CharsFeed(cs[..n], k);
      CharFeeds(cs[n], k);
      Through(InString, k, CharsText(cs[..n]), CharText(cs[n]), InString, k);
    }
  }

  lemma StringFeeds(cs: seq<Char>, k: seq<Parse>, s: State)
    requires CharsOk(cs) && (BeginsValue(s) || BeginsKey(s))
    ensures Feed(s, k, StringText(cs)) == Still(EndValue, k)
  {
    OneByte(s, k, QUOTE);
    CharsFeed(cs, k);
    Through(s, k, [QUOTE], CharsText(cs), InString, k);
    OneByte(InString, k, QUOTE);
    Through(s, k, [QUOTE] + CharsText(cs), [QUOTE], InString, k);
  }

  // ----- after a value -----

  /** A byte that goes on with a number that could end in `t`. */
  predicate Continues(t: State, b: byte) {
    match t
    case One => IsDigit(b) || b == POINT || IsExponent(b)
    case Zero => b == POINT || IsExponent(b)
    case Dot0 => IsDigit(b) || IsExponent(b)
    case E0 => IsDigit(b)
    case _ => false
  }

  lemma AfterByte(t: State, k: seq<Parse>, b: byte)
    requires AfterValue(t) && !Continues(t, b)
    ensures Step(t, k, b) == EndOf(b, k)
  {}

  lemma SpacesAfter(t: State, k: seq<Parse>, ws: bytes)
    requires AfterValue(t) && k != [] && Ws(ws)
    ensures Feed(t, k, ws) == Still(if ws == [] then t else EndValue, k)
  {
    if ws != [] {
      assert ws[0] in ws && forall b | b in ws[1..] :: b in ws;
      AfterByte(t, k, ws[0]);
      SpacesStay(EndValue, k, ws[1..]);
    }
  }

  /** A separator or bracket after a value, blanks perhaps between. */
  lemma PunctuationAfter(t: State, k: seq<Parse>, b: byte)
    requires AfterValue(t) && k != [] && b in {COMMA, COLON, CLOSE_LIST, CLOSE_OBJECT}
    ensures Step(t, k, b) == EndOf(b, k)
  {}

  // ----- values -----

  predicate Compound(v: Value) { v.List? || v.Object? }

  /** How a whole value reads, started where a value may begin. */
  ghost predicate Reads(v: Value, k: seq<Parse>, f: Fed) {
    if Compound(v) && k == [] then f == Ended(|ValueText(v)|)
    else f.Still? && f.stack == k && AfterValue(f.state) && (v.Number? ==> f.state == NumState(v.num)) && (!v.Number? ==> f.state.EndValue?)
  }

  lemma {:induction false} ValueFeeds(v: Value, k: seq<Parse>, s: State)
    requires ValueOk(v) && BeginsValue(s)
    ensures Reads(v, k, Feed(s, k, ValueText(v)))
    decreases v, 0
  {
    hide NumState, NumText, StringText, WordText, Feed, Step;
    match v
    case Name(w) => WordFeeds(w, k, s);
    case Number(n) => NumberFeeds(n, k, s); NumberEnds(n);
    case String(cs) => StringFeeds(cs, k, s);
    case List(blank, items) =>
      if items == [] {
        SpacesStay(BeginValueOrEmpty, k + [ArrayValue], blank);
        Bracketed(s, k, OPEN_LIST, blank, CLOSE_LIST, BeginValueOrEmpty, ArrayValue, ArrayValue, BeginValueOrEmpty);
      } else {
        ItemsFeed(items, k + [ArrayValue], BeginValueOrEmpty);
        Bracketed(s, k, OPEN_LIST, ItemsText(items), CLOSE_LIST, BeginValueOrEmpty, ArrayValue, ArrayValue,
                  Feed(BeginValueOrEmpty, k + [ArrayValue], ItemsText(items)).state);
      }
    case Object(blank, members) =>
      if members == [] {
        SpacesStay(BeginStringOrEmpty, k + [ObjectKey], blank);
        Bracketed(s, k, OPEN_OBJECT, blank, CLOSE_OBJECT, BeginStringOrEmpty, ObjectKey, ObjectKey, BeginStringOrEmpty);
      } else {
        MembersFeed(members, k, BeginStringOrEmpty);
        Bracketed(s, k, OPEN_OBJECT, MembersText(members), CLOSE_OBJECT, BeginStringOrEmpty, ObjectKey, ObjectValue,
                  Feed(BeginStringOrEmpty, k + [ObjectKey], MembersText(members)).state);
      }
  }

  /** What is read between an opening bracket and its closing one. */
  lemma Bracketed(s: State, k: seq<Parse>, open: byte, inner: bytes, close: byte, u: State, p: Parse, q: Parse, t: State)
    requires StateOk(s) && StateOk(u) && BeginsValue(s)
    requires (open == OPEN_LIST && u.BeginValueOrEmpty? && p.ArrayValue?) || (open == OPEN_OBJECT && u.BeginStringOrEmpty? && p.ObjectKey?)
    requires Feed(u, k + [p], inner) == Still(t, k + [q])
    requires (close == CLOSE_LIST && q.ArrayValue? && (t.BeginValueOrEmpty? || AfterValue(t)))
             || (close == CLOSE_OBJECT && ((q.ObjectKey? && t.BeginStringOrEmpty?) || (q.ObjectValue? && AfterValue(t))))
    ensures var text := [open] + inner + [close];
            Feed(s, k, text) == if k == [] then Ended(|text|) else Still(EndValue, k)
  {
    Opens(s, k, open);
    hide Feed;
    Through(s, k, [open], inner, u, k + [p]);
    Closes(t, k, q, close);
    Through(s, k, [open] + inner, [close], t, k + [q]);
  }

  lemma Opens(s: State, k: seq<Parse>, open: byte)
    requires BeginsValue(s)
    ensures open == OPEN_LIST ==> Feed(s, k, [open]) == Still(BeginValueOrEmpty, k + [ArrayValue])
    ensures open == OPEN_OBJECT ==> Feed(s, k, [open]) == Still(BeginStringOrEmpty, k + [ObjectKey])
  {
    OneByte(s, k, open);
  }

  lemma Closes(t: State, k: seq<Parse>, p: Parse, b: byte)
    requires (b == CLOSE_LIST && p.ArrayValue? && (t.BeginValueOrEmpty? || AfterValue(t)))
             || (b == CLOSE_OBJECT && ((p.ObjectKey? && t.BeginStringOrEmpty?) || (p.ObjectValue? && AfterValue(t))))
    ensures Feed(t, k + [p], [b]) == if k == [] then Ended(1) else Still(EndValue, k)
  {
    assert (k + [p])[..|k|] == k;
    if AfterValue(t) { PunctuationAfter(t, k + [p], b); }
    OneByte(t, k + [p], b);
  }

  lemma {:induction false} ItemFeeds(i: Item, k: seq<Parse>, s: State)
    requires ItemOk(i) && k != [] && BeginsValue(s)
    ensures var f := Feed(s, k, ItemText(i)); f.Still? && f.stack == k && AfterValue(f.state)
    decreases i, 1
  {
    hide ValueText, NumState;
    SpacesStay(s, k, i.before);
    ValueFeeds(i.value, k, s);
    var t := Feed(s, k, ValueText(i.value)).state;
    Through(s, k, i.before, ValueText(i.value), s, k);
    SpacesAfter(t, k, i.after);
    Through(s, k, i.before + ValueText(i.value), i.after, t, k);
  }

  lemma {:induction false} ItemsFeed(items: seq<Item>, k: seq<Parse>, s: State)
    requires items != [] && (forall i | i in items :: ItemOk(i)) && BeginsValue(s)
    requires k != [] && Top(k).ArrayValue?
    ensures var f := Feed(s, k, ItemsText(items)); f.Still? && f.stack == k && AfterValue(f.state)
    decreases items
  {
    hide ItemOk, ItemText, Step;
    var n := |items| - 1;
    assert items[n] in items;
    if n == 0 {
      ItemFeeds(items[0], k, s);
    } else {
      assert forall i | i in items[..n] :: i in items;
      ItemsFeed(items[..n], k, s);
      var t := Feed(s, k, ItemsText(items[..n])).state;
      PunctuationAfter(t, k, COMMA);
      OneByte(t, k, COMMA);
      Through(s, k, ItemsText(items[..n]), [COMMA], t, k);
      ItemFeeds(items[n], k, BeginValue);
      Through(s, k, ItemsText(items[..n]) + [COMMA], ItemText(items[n]), BeginValue, k);
    }
  }

  lemma {:induction false} MemberFeeds(m: Member, k: seq<Parse>, s: State)
    requires MemberOk(m) && BeginsKey(s)
    ensures var f := Feed(s, k + [ObjectKey], MemberText(m));
            f.Still? && f.stack == k + [ObjectValue] && AfterValue(f.state)
    decreases m, 2
  {
    hide StringText, ItemText, CharsOk, ItemOk, Step;
    var k1, k2 := k + [ObjectKey], k + [ObjectValue];
    SpacesStay(s, k1, m.before);
    StringFeeds(m.key, k1, s);
    Through(s, k1, m.before, StringText(m.key), s, k1);
    SpacesAfter(EndValue, k1, m.after);
    Through(s, k1, m.before + StringText(m.key), m.after, EndValue, k1);
    PunctuationAfter(EndValue, k1, COLON);
    OneByte(EndValue, k1, COLON);
    assert Retop(k1, ObjectValue) == k2;
    Through(s, k1, m.before + StringText(m.key) + m.after, [COLON], EndValue, k1);
    ItemFeeds(m.item, k2, BeginValue);
    Through(s, k1, m.before + StringText(m.key) + m.after + [COLON], ItemText(m.item), BeginValue, k2);
  }

  lemma {:induction false} MembersFeed(members: seq<Member>, k: seq<Parse>, s: State)
    requires members != [] && (forall m | m in members :: MemberOk(m)) && BeginsKey(s)
    ensures var f := Feed(s, k + [ObjectKey], MembersText(members));
            f.Still? && f.stack == k + [ObjectValue] && AfterValue(f.state)
    decreases members
  {
    hide MemberOk, MemberText, Step;
    var n := |members| - 1;
    var k1, k2 := k + [ObjectKey], k + [ObjectValue];
    assert members[n] in members;
    if n == 0 {
      MemberFeeds(members[0], k, s);
    } else {
      assert forall m | m in members[..n] :: m in members;
      MembersFeed(members[..n], k, s);
      var t := Feed(s, k1, MembersText(members[..n])).state;
      PunctuationAfter(t, k2, COMMA);
      assert Retop(k2, ObjectKey) == k1;
      OneByte(t, k2, COMMA);
      Through(s, k1, MembersText(members[..n]), [COMMA], t, k2);
      MemberFeeds(members[n], k, BeginString);
      Through(s, k1, MembersText(members[..n]) + [COMMA], MemberText(members[n]), BeginString, k1);
    }
  }

  // ----- whole texts -----

  /** What follows a value leaves it alone: only a number could go on. */
  predicate LeavesAlone(v: Value, tail: bytes) {
    v.Number? && tail != [] ==> !Continues(NumState(v.num), tail[0])
  }

  lemma {:induction false} TextNotBlank(v: Value)
    requires ValueOk(v)
    ensures !Blank(ValueText(v))
  {
    match v
    case Name(w) => assert WordText(w)[0] in WordText(w);
    case Number(n) =>
      assert n.whole[0] in NumText(n);
    case String(cs) => assert QUOTE in StringText(cs);
    case List(_, _) => assert OPEN_LIST in ValueText(v);
    case Object(_, _) => assert OPEN_OBJECT in ValueText(v);
  }

  /** The first value is found with exactly its end, for every text and whatever comes behind it. */
  lemma ScanAccepts(ws: bytes, v: Value, tail: bytes)
    requires Ws(ws) && ValueOk(v) && LeavesAlone(v, tail)
    ensures ScanOf(ws + ValueText(v) + tail) == Ok(|ws| + |ValueText(v)|)
  {
    hide ValueText, NumState, ValueOk;
    var text := ws + ValueText(v);
    SpacesStay(BeginValue, [], ws);
    ValueFeeds(v, [], BeginValue);
    var f := Feed(BeginValue, [], ValueText(v));
    Through(BeginValue, [], ws, ValueText(v), BeginValue, []);
    TextNotBlank(v);
    NotBlankAround(ws, ValueText(v), tail);
    FeedAppend(BeginValue, [], text, tail);
    if f.Still? && tail != [] {
      AfterByte(f.state, [], tail[0]);
    }
  }

  lemma NotBlankAround(a: bytes, b: bytes, c: bytes)
    requires !Blank(b)
    ensures !Blank(a + b + c)
  {
    var x :| x in b && !IsSpace(x);
    assert x in a + b + c;
  }
}
