/** JSON texts as sections 2 to 7 of RFC 8259 define them, byte by byte, as trees that know their own text. */
module JsonGrammar {
  import opened Bytes
  import opened JsonScan

  predicate Ws(s: bytes) { forall b | b in s :: IsSpace(b) }

  predicate Digits(s: bytes) { forall b | b in s :: IsDigit(b) }

  // ----- numbers -----

  datatype Exponent = NoExponent | Exponent(mark: byte, sign: bytes, digits: bytes)

  /** An absent fraction is empty. */
  datatype Num = Num(minus: bool, whole: bytes, fraction: bytes, exponent: Exponent)

  predicate WholeOk(w: bytes) { w == [48] || (w != [] && 49 <= w[0] <= 57 && Digits(w)) }

  predicate ExponentOk(e: Exponent) {
    e.Exponent? ==> IsExponent(e.mark) && e.digits != [] && Digits(e.digits) && (e.sign == [] || e.sign == [PLUS] || e.sign == [MINUS])
  }

  predicate NumOk(n: Num) { WholeOk(n.whole) && Digits(n.fraction) && ExponentOk(n.exponent) }

  function Sign(minus: bool): bytes { if minus then [MINUS] else [] }

  function FractionText(fraction: bytes): bytes { if fraction == [] then [] else [POINT] + fraction }

  function ExponentText(e: Exponent): bytes {
    match e
    case NoExponent => []
    case Exponent(mark, sign, digits) => [mark] + sign + digits
  }

  function NumText(n: Num): bytes { Sign(n.minus) + n.whole + FractionText(n.fraction) + ExponentText(n.exponent) }

  // ----- strings -----

  datatype Char = Plain(b: byte) | Escaped(b: byte) | Unicode(hex: bytes)

  predicate CharOk(c: Char) {
    match c
    case Plain(b) => b >= 0x20 && b != QUOTE && b != ESCAPE
    case Escaped(b) => IsEscape(b)
    case Unicode(hex) => |hex| == 4 && forall b | b in hex :: IsHex(b)
  }

  function CharText(c: Char): bytes {
    match c
    case Plain(b) => [b]
    case Escaped(b) => [ESCAPE, b]
    case Unicode(hex) => [ESCAPE, 117] + hex
  }

  predicate CharsOk(cs: seq<Char>) { forall c | c in cs :: CharOk(c) }

  function CharsText(cs: seq<Char>): bytes {
    if cs == [] then [] else CharsText(cs[..|cs| - 1]) + CharText(cs[|cs| - 1])
  }

  function StringText(cs: seq<Char>): bytes { [QUOTE] + CharsText(cs) + [QUOTE] }

  // ----- values -----

  datatype Value =
    | Name(word: Word)
    | Number(num: Num)
    | String(chars: seq<Char>)
    | List(blank: bytes, items: seq<Item>)
    | Object(blank: bytes, members: seq<Member>)

  /** A value with the blanks around it. */
  datatype Item = Item(before: bytes, value: Value, after: bytes)

  datatype Member = Member(before: bytes, key: seq<Char>, after: bytes, item: Item)

  predicate ValueOk(v: Value) {
    match v
    case Name(_) => true
    case Number(n) => NumOk(n)
    case String(cs) => CharsOk(cs)
    case List(blank, items) => Ws(blank) && forall i | i in items :: ItemOk(i)
    case Object(blank, members) => Ws(blank) && forall m | m in members :: MemberOk(m)
  }

  predicate ItemOk(i: Item) { Ws(i.before) && ValueOk(i.value) && Ws(i.after) }

  predicate MemberOk(m: Member) { Ws(m.before) && CharsOk(m.key) && Ws(m.after) && ItemOk(m.item) }

  function ValueText(v: Value): bytes
    decreases v, 0
  {
    match v
    case Name(w) => WordText(w)
    case Number(n) => NumText(n)
    case String(cs) => StringText(cs)
    case List(blank, items) => [OPEN_LIST] + (if items == [] then blank else ItemsText(items)) + [CLOSE_LIST]
    case Object(blank, members) => [OPEN_OBJECT] + (if members == [] then blank else MembersText(members)) + [CLOSE_OBJECT]
  }

  function ItemText(i: Item): bytes { i.before + ValueText(i.value) + i.after }

  /** Items with commas between them. */
  function ItemsText(items: seq<Item>): bytes
    requires items != []
    decreases items
  {
    if |items| == 1 then ItemText(items[0])
    else ItemsText(items[..|items| - 1]) + [COMMA] + ItemText(items[|items| - 1])
  }

  function MemberText(m: Member): bytes { m.before + StringText(m.key) + m.after + [COLON] + ItemText(m.item) }

  function MembersText(members: seq<Member>): bytes
    requires members != []
    decreases members
  {
    if |members| == 1 then MemberText(members[0])
    else MembersText(members[..|members| - 1]) + [COMMA] + MemberText(members[|members| - 1])
  }
}
