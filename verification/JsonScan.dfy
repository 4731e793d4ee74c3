/** The first-value scanner as the code runs it: a state, a stack of open brackets, one byte at a time. */
module JsonScan {
  import opened Bytes

  datatype Parse = ObjectKey | ObjectValue | ArrayValue

  datatype Word = True | False | Null

  datatype State =
    | BeginValue | BeginValueOrEmpty | BeginStringOrEmpty | BeginString | EndValue
    | InString | InStringEsc | InStringEscU(digits: nat)
    | Neg | One | Zero | Dot | Dot0 | E | ESign | E0
    | Literal(word: Word, seen: nat)

  /** Where a byte was not expected; the message quotes the byte and names the place. */
  datatype Place =
    | AtValue | AtKey | InText | InEscape | InHex | InNumber | AfterPoint | InExponent
    | InLiteral(word: Word, expected: byte) | AfterKey | AfterPair | AfterElement

  datatype Error = Invalid(b: byte, place: Place) | UnexpectedEof | Eof

  datatype Result = Ok(end: nat) | Err(error: Error)

  datatype Stepped = Continue(state: State, stack: seq<Parse>) | Closed(stack: seq<Parse>) | TopEnd | Bad(error: Error)

  const QUOTE: byte := 34
  const ESCAPE: byte := 92
  const COMMA: byte := 44
  const COLON: byte := 58
  const OPEN_LIST: byte := 91
  const CLOSE_LIST: byte := 93
  const OPEN_OBJECT: byte := 123
  const CLOSE_OBJECT: byte := 125
  const MINUS: byte := 45
  const PLUS: byte := 43
  const POINT: byte := 46

  predicate IsSpace(b: byte) { b == 32 || b == 9 || b == 13 || b == 10 }

  predicate IsDigit(b: byte) { 48 <= b <= 57 }

  predicate IsHex(b: byte) { IsDigit(b) || 65 <= b <= 70 || 97 <= b <= 102 }

  predicate IsExponent(b: byte) { b == 101 || b == 69 }

  /** The bytes that may follow a backslash, apart from `u`. */
  predicate IsEscape(b: byte) { b == 98 || b == 102 || b == 110 || b == 114 || b == 116 || b == 92 || b == 47 || b == 34 }

  function WordText(w: Word): (r: bytes)
    ensures |r| >= 4
  {
    match w
    case True => [116, 114, 117, 101]
    case False => [102, 97, 108, 115, 101]
    case Null => [110, 117, 108, 108]
  }

  predicate StateOk(s: State) {
    (s.Literal? ==> 1 <= s.seen < |WordText(s.word)|) && (s.InStringEscU? ==> s.digits <= 3)
  }

  /** `close`: the bracket on top of the stack is gone. */
  function Close(stack: seq<Parse>): Stepped {
    Closed(if stack == [] then [] else stack[..|stack| - 1])
  }

  function Top(stack: seq<Parse>): Parse
    requires stack != []
  {
    stack[|stack| - 1]
  }

  function Retop(stack: seq<Parse>, p: Parse): (r: seq<Parse>)
    requires stack != []
    ensures |r| == |stack|
  {
    stack[|stack| - 1 := p]
  }

  /** `end_value`: a byte after a complete value. */
  function EndOf(b: byte, stack: seq<Parse>): Stepped {
    if stack == [] then TopEnd
    else if IsSpace(b) then Continue(EndValue, stack)
    else
      match Top(stack)
      case ObjectKey => if b == COLON then Continue(BeginValue, Retop(stack, ObjectValue)) else Bad(Invalid(b, AfterKey))
      case ObjectValue =>
        if b == COMMA then Continue(BeginString, Retop(stack, ObjectKey))
        else if b == CLOSE_OBJECT then Close(stack) else Bad(Invalid(b, AfterPair))
      case ArrayValue =>
        if b == CLOSE_LIST then Close(stack)
        else if b == COMMA then Continue(BeginValue, stack) else Bad(Invalid(b, AfterElement))
  }

  function BeginOf(b: byte, stack: seq<Parse>): Stepped {
    if IsSpace(b) then Continue(BeginValue, stack)
    else if b == OPEN_OBJECT then Continue(BeginStringOrEmpty, stack + [ObjectKey])
    else if b == OPEN_LIST then Continue(BeginValueOrEmpty, stack + [ArrayValue])
    else if b == QUOTE then Continue(InString, stack)
    else if b == MINUS then Continue(Neg, stack)
    else if b == 48 then Continue(Zero, stack)
    else if 49 <= b <= 57 then Continue(One, stack)
    else if b == 116 then Continue(Literal(True, 1), stack)
    else if b == 102 then Continue(Literal(False, 1), stack)
    else if b == 110 then Continue(Literal(Null, 1), stack)
    else Bad(Invalid(b, AtValue))
  }

  /** `step`. */
  function Step(s: State, stack: seq<Parse>, b: byte): (r: Stepped)
    requires StateOk(s)
    ensures r.Continue? ==> StateOk(r.state)
  {
    match s
    case BeginValueOrEmpty =>
      if IsSpace(b) then Continue(BeginValueOrEmpty, stack)
      else if b == CLOSE_LIST then Close(stack) else BeginOf(b, stack)
    case BeginValue => BeginOf(b, stack)
    case BeginStringOrEmpty =>
      if IsSpace(b) then Continue(BeginStringOrEmpty, stack)
      else if b == CLOSE_OBJECT then Close(stack)
      else if b == QUOTE then Continue(InString, stack) else Bad(Invalid(b, AtKey))
    case BeginString =>
      if IsSpace(b) then Continue(BeginString, stack)
      else if b == QUOTE then Continue(InString, stack) else Bad(Invalid(b, AtKey))
    case EndValue => EndOf(b, stack)
    case InString =>
      if b == QUOTE then Continue(EndValue, stack)
      else if b == ESCAPE then Continue(InStringEsc, stack)
      else if b < 0x20 then Bad(Invalid(b, InText)) else Continue(InString, stack)
    case InStringEsc =>
      if IsEscape(b) then Continue(InString, stack)
      else if b == 117 then Continue(InStringEscU(0), stack) else Bad(Invalid(b, InEscape))
    case InStringEscU(digits) =>
      if !IsHex(b) then Bad(Invalid(b, InHex))
      else if digits == 3 then Continue(InString, stack) else Continue(InStringEscU(digits + 1), stack)
    case Neg =>
      if b == 48 then Continue(Zero, stack)
      else if 49 <= b <= 57 then Continue(One, stack) else Bad(Invalid(b, InNumber))
    case One => if IsDigit(b) then Continue(One, stack) else AfterWhole(b, stack)
    case Zero => AfterWhole(b, stack)
    case Dot => if IsDigit(b) then Continue(Dot0, stack) else Bad(Invalid(b, AfterPoint))
    case Dot0 =>
      if IsDigit(b) then Continue(Dot0, stack)
      else if IsExponent(b) then Continue(E, stack) else EndOf(b, stack)
    case E =>
      if b == PLUS || b == MINUS then Continue(ESign, stack)
      else if IsDigit(b) then Continue(E0, stack) else Bad(Invalid(b, InExponent))
    case ESign => if IsDigit(b) then Continue(E0, stack) else Bad(Invalid(b, InExponent))
    case E0 => if IsDigit(b) then Continue(E0, stack) else EndOf(b, stack)
    case Literal(word, seen) =>
      if b != WordText(word)[seen] then Bad(Invalid(b, InLiteral(word, WordText(word)[seen])))
      else if seen + 1 == |WordText(word)| then Continue(EndValue, stack) else Continue(Literal(word, seen + 1), stack)
  }

  function AfterWhole(b: byte, stack: seq<Parse>): Stepped {
    if b == POINT then Continue(Dot, stack)
    else if IsExponent(b) then Continue(E, stack) else EndOf(b, stack)
  }

  // ----- whole inputs -----

  /** What a run over some bytes comes to: still scanning, ended after `n` of them, or an error. */
  datatype Fed = Still(state: State, stack: seq<Parse>) | Ended(n: nat) | Failed(error: Error)

  function Later(k: nat, f: Fed): Fed { if f.Ended? then Ended(k + f.n) else f }

  function Feed(s: State, stack: seq<Parse>, input: bytes): (r: Fed)
    requires StateOk(s)
    ensures r.Still? ==> StateOk(r.state)
    decreases |input|
  {
    if input == [] then Still(s, stack) else
    match Step(s, stack, input[0])
    case Continue(t, more) => Later(1, Feed(t, more, input[1..]))
    case Closed(left) => if left == [] then Ended(1) else Later(1, Feed(EndValue, left, input[1..]))
    case TopEnd => Ended(0)
    case Bad(e) => Failed(e)
  }

  predicate Blank(input: bytes) { forall b | b in input :: IsSpace(b) }

  /** A state in which a value just ended or, for a number, may end here. */
  predicate AfterValue(s: State) { s.EndValue? || s.One? || s.Zero? || s.Dot0? || s.E0? }

  function Finish(f: Fed, input: bytes): Result {
    match f
    case Ended(n) => Ok(n)
    case Failed(e) => Err(e)
    case Still(s, stack) =>
      if s.EndValue? && stack == [] && !Blank(input) then Ok(|input|)
      else if (s.One? || s.Zero? || s.Dot0? || s.E0?) && stack == [] then Ok(|input|)
      else if !Blank(input) then Err(UnexpectedEof) else Err(Eof)
  }

  function ScanOf(input: bytes): Result { Finish(Feed(BeginValue, [], input), input) }

  /** `scan`. */
  method Scan(input: bytes) returns (r: Result)
    ensures r == ScanOf(input)
  {
    var stack: seq<Parse> := [];
    var state := BeginValue;
    var started := false;
    assert input[0..] == input;
    for index := 0 to |input|
      invariant StateOk(state) && (started <==> !Blank(input[..index]))
      invariant Feed(BeginValue, [], input) == Later(index, Feed(state, stack, input[index..]))
    {
      hide Step, Feed, Blank;
      var b := input[index];
      BlankNext(input, index);
      FeedNext(state, stack, input, index);
      started := started || !IsSpace(b);
      match Step(state, stack, b) {
        case Continue(next, left) => state, stack := next, left;
        case Closed(left) =>
          stack := left;
          if stack == [] { return Ok(index + 1); }
          state := EndValue;
        case TopEnd => return Ok(index);
        case Bad(e) => return Err(e);
      }
    }
    assert input[..|input|] == input && input[|input|..] == [];
    match state {
      case EndValue =>
        if stack == [] && started { return Ok(|input|); }
      case One => if stack == [] { return Ok(|input|); }
      case Zero => if stack == [] { return Ok(|input|); }
      case Dot0 => if stack == [] { return Ok(|input|); }
      case E0 => if stack == [] { return Ok(|input|); }
      case _ =>
    }
    return Err(if started then UnexpectedEof else Eof);
  }

  lemma BlankNext(input: bytes, i: nat)
    requires i < |input|
    ensures Blank(input[..i + 1]) <==> Blank(input[..i]) && IsSpace(input[i])
  {
    assert input[..i + 1] == input[..i] + [input[i]];
  }

  lemma FeedNext(s: State, stack: seq<Parse>, input: bytes, i: nat)
    requires StateOk(s) && i < |input|
    ensures match Step(s, stack, input[i])
            case Continue(t, more) => Feed(s, stack, input[i..]) == Later(1, Feed(t, more, input[i + 1..]))
            case Closed(left) =>
              Feed(s, stack, input[i..]) == if left == [] then Ended(1) else Later(1, Feed(EndValue, left, input[i + 1..]))
            case TopEnd => Feed(s, stack, input[i..]) == Ended(0)
            case Bad(e) => Feed(s, stack, input[i..]) == Failed(e)
  {
    hide Step;
    assert input[i..][1..] == input[i + 1..];
  }

  /** Reading two stretches one after the other. */
  lemma {:induction false} FeedAppend(s: State, stack: seq<Parse>, a: bytes, b: bytes)
    requires StateOk(s)
    ensures Feed(s, stack, a + b) == Onward(Feed(s, stack, a), |a|, b)
    decreases |a|
  {
    hide Step;
    if a == [] {
      assert a + b == b;
    } else {
      assert (a + b)[0] == a[0] && (a + b)[1..] == a[1..] + b;
      match Step(s, stack, a[0])
      case Continue(t, more) =>
        FeedAppend(t, more, a[1..], b);
        OnwardLater(Feed(t, more, a[1..]), |a| - 1, b);
      case Closed(left) =>
        if left != [] {
          FeedAppend(EndValue, left, a[1..], b);
          OnwardLater(Feed(EndValue, left, a[1..]), |a| - 1, b);
        }
      case TopEnd =>
      case Bad(_) =>
    }
  }

  /** What follows after `n` bytes came to `f`. */
  function Onward(f: Fed, n: nat, b: bytes): Fed
    requires f.Still? ==> StateOk(f.state)
  {
    if f.Still? then Later(n, Feed(f.state, f.stack, b)) else f
  }

  lemma OnwardLater(f: Fed, n: nat, b: bytes)
    requires f.Still? ==> StateOk(f.state)
    ensures Later(1, f).Still? ==> StateOk(Later(1, f).state)
    ensures Later(1, Onward(f, n, b)) == Onward(Later(1, f), n + 1, b)
  {
    hide Feed;
  }

}
