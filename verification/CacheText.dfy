/** Decimal numbers, lists and lines as the cache manifest prints and parses them. */
module CacheText {
  import opened Bytes

  function IndexOf(s: string, c: char): (i: nat)
    ensures i <= |s| && (i < |s| ==> s[i] == c)
    ensures forall j | 0 <= j < i :: s[j] != c
  {
    if s == [] || s[0] == c then 0 else
    var i := IndexOf(s[1..], c);
    assert forall j | 0 < j < i + 1 :: s[j] == s[1..][j - 1];
    i + 1
  }

  lemma IndexOfFirst(a: string, c: char, rest: string)
    requires c !in a
    ensures IndexOf(a + [c] + rest, c) == |a|
  {
    var s := a + [c] + rest;
    assert forall j | 0 <= j < |a| :: s[j] == a[j] && a[j] in a;
    assert s[|a|] == c;
  }

  lemma IndexOfNone(a: string, c: char)
    requires c !in a
    ensures IndexOf(a, c) == |a|
  {}

  /** The text before and after the first `c`. */
  function SplitOnce(s: string, c: char): Option<(string, string)> {
    var i := IndexOf(s, c);
    if i == |s| then None else Some((s[..i], s[i + 1..]))
  }

  lemma SplitOnceInverts(a: string, c: char, b: string)
    requires c !in a
    ensures SplitOnce(a + [c] + b, c) == Some((a, b))
  {
    IndexOfFirst(a, c, b);
    var s := a + [c] + b;
    assert s[..|a|] == a && s[|a| + 1..] == b;
  }

  /** The parts between every `c`; there is always at least one. */
  function SplitOn(s: string, c: char): (parts: seq<string>)
    ensures parts != []
    decreases |s|
  {
    var i := IndexOf(s, c);
    if i == |s| then [s] else [s[..i]] + SplitOn(s[i + 1..], c)
  }

  function Join(parts: seq<string>, c: char): string {
    if parts == [] then "" else
    if |parts| == 1 then parts[0] else parts[0] + [c] + Join(parts[1..], c)
  }

  lemma {:induction false} SplitOnInverts(parts: seq<string>, c: char)
    requires parts != [] && forall p | p in parts :: c !in p
    ensures SplitOn(Join(parts, c), c) == parts
  {
    assert parts[0] in parts;
    if |parts| == 1 {
      IndexOfNone(parts[0], c);
    } else {
      var rest := Join(parts[1..], c);
      assert forall p | p in parts[1..] :: p in parts;
      SplitOnInverts(parts[1..], c);
      IndexOfFirst(parts[0], c, rest);
      var s := parts[0] + [c] + rest;
      assert s[..|parts[0]|] == parts[0] && s[|parts[0]| + 1..] == rest;
    }
  }

  function WithoutReturn(line: string): string {
    if line != [] && line[|line| - 1] == '\r' then line[..|line| - 1] else line
  }

  /** Lines end at a line feed, with or without a carriage return before it; a last empty one does not count. */
  function Lines(s: string): seq<string>
    decreases |s|
  {
    if s == [] then [] else
    var i := IndexOf(s, '\n');
    if i == |s| then [s] else [WithoutReturn(s[..i])] + Lines(s[i + 1..])
  }

  function Unlines(lines: seq<string>): string {
    if lines == [] then "" else lines[0] + ['\n'] + Unlines(lines[1..])
  }

  predicate Plain(line: string) { '\n' !in line && '\r' !in line }

  lemma LinesStep(line: string, rest: string)
    requires Plain(line)
    ensures Lines(line + ['\n'] + rest) == [line] + Lines(rest)
  {
    var s := line + ['\n'] + rest;
    IndexOfFirst(line, '\n', rest);
    assert s[..|line|] == line && s[|line| + 1..] == rest;
    assert line != [] ==> line[|line| - 1] in line;
    assert WithoutReturn(line) == line;
  }

  lemma {:induction false} LinesInverts(lines: seq<string>)
    requires forall l | l in lines :: Plain(l)
    ensures Lines(Unlines(lines)) == lines
  {
    hide Lines, Plain;
    if lines == [] {
      NoLines();
    } else {
      assert lines[0] in lines;
      assert forall l | l in lines[1..] :: l in lines;
      LinesInverts(lines[1..]);
      LinesStep(lines[0], Unlines(lines[1..]));
      assert lines == [lines[0]] + lines[1..];
    }
  }

  lemma NoLines()
    ensures Lines([]) == []
  {}

  // ----- numbers -----

  predicate IsDigit(c: char) { '0' <= c <= '9' }

  function Digit(d: nat): (c: char)
    requires d < 10
    ensures IsDigit(c)
  {
    ('0' as int + d) as char
  }

  function Decimal(n: nat): (s: string)
    ensures s != [] && forall c | c in s :: IsDigit(c)
  {
    if n < 10 then [Digit(n)] else Decimal(n / 10) + [Digit(n % 10)]
  }

  /** The value of a string of digits, `None` when another character occurs. */
  function DigitsValue(s: string): Option<nat> {
    if s == [] then Some(0) else
    var last := s[|s| - 1];
    match DigitsValue(s[..|s| - 1])
    case None => None
    case Some(v) => if IsDigit(last) then Some(v * 10 + (last as int - '0' as int)) else None
  }

  /** `str::parse::<u64>`: an optional plus sign, at least one digit, and a value that fits. */
  function ParseU64(s: string): Option<u64> {
    var digits := if s != [] && s[0] == '+' then s[1..] else s;
    if digits == [] then None else
    match DigitsValue(digits)
    case None => None
    case Some(v) => if v <= U64_MAX then Some(v) else None
  }

  lemma {:induction false} DecimalValue(n: nat)
    ensures DigitsValue(Decimal(n)) == Some(n)
  {
    var s := Decimal(n);
    if n < 10 {
      assert s[..0] == [];
    } else {
      DecimalValue(n / 10);
      assert s[..|s| - 1] == Decimal(n / 10);
    }
  }

  lemma ParseInverts(n: u64)
    ensures ParseU64(Decimal(n)) == Some(n)
  {
    DecimalValue(n);
    assert Decimal(n)[0] in Decimal(n);
  }

  lemma DecimalInjective(m: nat, n: nat)
    requires Decimal(m) == Decimal(n)
    ensures m == n
  {
    DecimalValue(m);
    DecimalValue(n);
  }

  /** Every part parsed, or nothing. */
  function ParseAll(parts: seq<string>): Option<seq<u64>> {
    if parts == [] then Some([]) else
    match (ParseU64(parts[0]), ParseAll(parts[1..]))
    case (Some(v), Some(rest)) => Some([v] + rest)
    case _ => None
  }

  function Decimals(values: seq<nat>): (r: seq<string>)
    ensures |r| == |values| && forall i | 0 <= i < |values| :: r[i] == Decimal(values[i])
  {
    seq(|values|, i requires 0 <= i < |values| => Decimal(values[i]))
  }

  function JoinedNumbers(values: seq<nat>): string { Join(Decimals(values), ',') }

  function ParseNumbers(s: string): Option<seq<u64>> {
    if s == "" then Some([]) else ParseAll(SplitOn(s, ','))
  }

  lemma {:induction false} ParseAllInverts(values: seq<u64>)
    ensures ParseAll(Decimals(values)) == Some(values)
  {
    if values != [] {
      ParseInverts(values[0]);
      ParseAllInverts(values[1..]);
      assert Decimals(values)[1..] == Decimals(values[1..]);
      assert values == [values[0]] + values[1..];
    }
  }

  lemma ParseNumbersInverts(values: seq<u64>)
    ensures ParseNumbers(JoinedNumbers(values)) == Some(values)
  {
    if values != [] {
      var parts := Decimals(values);
      forall p | p in parts ensures ',' !in p && p != [] {
        var i :| 0 <= i < |parts| && parts[i] == p;
      }
      JoinNotEmpty(parts, ',');
      SplitOnInverts(parts, ',');
      ParseAllInverts(values);
    }
  }

  lemma JoinNotEmpty(parts: seq<string>, c: char)
    requires parts != [] && parts[0] != []
    ensures Join(parts, c) != []
  {}

  /** Joining keeps out every character that is not in a part. */
  lemma {:induction false} JoinAvoids(parts: seq<string>, c: char, x: char)
    requires x != c && forall p | p in parts :: x !in p
    ensures x !in Join(parts, c)
  {
    if |parts| > 0 {
      assert parts[0] in parts;
      assert forall p | p in parts[1..] :: p in parts;
      JoinAvoids(parts[1..], c, x);
    }
  }
}
