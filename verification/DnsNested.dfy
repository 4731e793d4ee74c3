/** Packets that are not read back: names shortened in so many steps that the reader's limit ends them. */
module DnsNested {
  import opened Bytes
  import opened Dns
  import opened DnsRoundTrip

  /** `n` labels of the one letter a. */
  function Letters(n: nat): (r: seq<bytes>)
    ensures |r| == n && forall l | l in r :: l == [97]
  {
    if n == 0 then [] else [[97]] + Letters(n - 1)
  }

  function Nested(n: nat): bytes { Join(Letters(n)) }

  lemma LettersRest(n: nat)
    requires n > 0
    ensures Letters(n)[0] == [97] && Letters(n)[1..] == Letters(n - 1)
  {}

  lemma LettersGood(n: nat)
    ensures Good(Letters(n))
  {}

  lemma {:induction false} NoneEmpty(parts: seq<bytes>)
    requires forall p | p in parts :: p != []
    ensures NonEmpty(parts) == parts
  {
    if parts != [] {
      assert parts[0] in parts && forall p | p in parts[1..] :: p in parts;
      NoneEmpty(parts[1..]);
    }
  }

  lemma {:induction false} JoinEnds(n: nat)
    requires n > 0
    ensures Join(Letters(n)) != [] && Join(Letters(n))[|Join(Letters(n))| - 1] == 97
  {
    LettersRest(n);
    if n > 1 { JoinEnds(n - 1); }
  }

  lemma NestedLabels(n: nat)
    requires n > 0
    ensures Labels(Nested(n)) == Letters(n)
  {
    hide Join, Split, Letters;
    JoinEnds(n);
    assert TrimDots(Nested(n)) == Nested(n);
    assert forall l | l in Letters(n) :: DOT !in l;
    SplitJoin(Letters(n));
    NoneEmpty(Letters(n));
  }

  /** Keys of different lengths differ. */
  lemma LetterKeys(m: nat, n: nat)
    requires 0 < m && 0 < n && Key(Letters(m)) == Key(Letters(n))
    ensures m == n
  {
    hide Key, Split;
    LettersGood(m);
    LettersGood(n);
    KeyLabels(Letters(m));
    KeyLabels(Letters(n));
  }

  /** Exactly the names of 1 to `k` letters are filed, each reached through all shorter ones. */
  ghost predicate Chain(f: Filing, k: nat) {
    && f.names.Some?
    && (forall key | key in f.names.value :: exists j :: 1 <= j <= k && key == Key(Letters(j)))
    && (forall j | 1 <= j <= k :: Key(Letters(j)) in f.names.value && Hops(f, Key(Letters(j))) == j - 1)
  }

  lemma NotYetFiled(f: Filing, k: nat)
    requires Chain(f, k)
    ensures Key(Letters(k + 1)) !in f.names.value
  {
    hide Key, Letters;
    if Key(Letters(k + 1)) in f.names.value {
      var j :| 1 <= j <= k && Key(Letters(k + 1)) == Key(Letters(j));
      LetterKeys(k + 1, j);
    }
  }

  /** What writing the next name does. */
  lemma NextName(f: Filing, pos: nat, k: nat)
    requires Chain(f, k) && pos < SHARE_LIMIT
    ensures var w := WriteLabels(f.names, pos, Letters(k + 1), true);
            w.names == Some(f.names.value[Key(Letters(k + 1)) := pos]) && |w.bytes| <= 4
    ensures NameHops(f, Letters(k + 1), true) == k
  {
    hide Key, Letters, Hops;
    var labels := Letters(k + 1);
    NotYetFiled(f, k);
    LettersRest(k + 1);
    var more := Registered(f.names, Key(labels), pos);
    assert more == Some(f.names.value[Key(labels) := pos]);
    assert |LabelBytes(labels[0])| == 2;
    if k == 0 {
      assert labels[1..] == [];
    } else {
      assert Key(labels[1..]) in more.value;
      assert StartsShort(more, labels[1..], true) && StartsShort(f.names, labels[1..], true);
      assert WriteLabels(more, pos + 2, labels[1..], true).names == more;
    }
  }

  lemma NextChain(f: Filing, pos: nat, k: nat)
    requires Chain(f, k) && pos < SHARE_LIMIT
    ensures Steps(f, Labels(Nested(k + 1)), true) == 2 * (k + 1)
    ensures Chain(AfterName(f, pos, Nested(k + 1), true), k + 1)
    ensures |WriteQuestion(f.names, pos, Question(Nested(k + 1), 1, 1)).bytes| <= 8
  {
    hide Key, Letters, WriteLabels, NameHops, Labels, Nested;
    NestedLabels(k + 1);
    NextName(f, pos, k);
    NotYetFiled(f, k);
    var g := AfterName(f, pos, Nested(k + 1), true);
    forall j | 1 <= j <= k + 1 ensures Key(Letters(j)) in g.names.value && Hops(g, Key(Letters(j))) == j - 1 {
      if j <= k { assert Key(Letters(j)) in f.names.value; }
    }
    forall key | key in g.names.value ensures exists j :: 1 <= j <= k + 1 && key == Key(Letters(j)) {
      if key in f.names.value {
        var j :| 1 <= j <= k && key == Key(Letters(j));
      } else {
        assert key == Key(Letters(k + 1));
      }
    }
  }

  /** Questions for the names of `k + 1` to `n` letters. */
  function Questions(k: nat, n: nat): (r: seq<Question>)
    requires k <= n
    ensures |r| == n - k && forall q | q in r :: exists j :: k < j <= n && q == Question(Nested(j), 1, 1)
    decreases n - k
  {
    if k == n then [] else [Question(Nested(k + 1), 1, 1)] + Questions(k + 1, n)
  }

  lemma {:induction false} NestedSteps(f: Filing, pos: nat, k: nat, n: nat)
    requires k <= n && Chain(f, k) && pos + 8 * (n - k) <= SHARE_LIMIT
    ensures forall i | 0 <= i < n - k :: QuestionSteps(f, pos, Questions(k, n))[i] == 2 * (k + 1 + i)
    decreases n - k
  {
    hide Chain, Steps, AfterName, WriteQuestion, Labels, Nested;
    if k < n {
      var q := Question(Nested(k + 1), 1, 1);
      NextChain(f, pos, k);
      var next := pos + |WriteQuestion(f.names, pos, q).bytes|;
      NestedSteps(AfterName(f, pos, q.name, true), next, k + 1, n);
      assert Questions(k, n)[1..] == Questions(k + 1, n) && Questions(k, n)[0] == q;
      StepsNext(f, pos, Questions(k, n), next);
      var steps := QuestionSteps(f, pos, Questions(k, n));
      forall i | 0 <= i < n - k ensures steps[i] == 2 * (k + 1 + i) {
        if i > 0 { assert steps[i] == steps[1..][i - 1]; }
      }
    }
  }

  function NestedMessage(n: nat): Message {
    Message(0, Flags(false, 0, false, false, false), Questions(0, n), [], [], [])
  }

  /**
   * Questions for names of 1 to `n` letters: every name has few enough labels to be read if it were written in full, but
   * the last takes `2 * n` steps, so 64 of them are read back and 65 are not.
   */
  lemma NestedNamesAreLost(n: nat)
    requires n <= 2000
    ensures Parse(Pack(NestedMessage(n), true)).Some? <==> n <= 64
    ensures n <= 127 ==> Parse(Pack(NestedMessage(n), false)).Some?
  {
    hide Parse, Pack, QuestionSteps, Labels, Letters, Nested;
    var m := NestedMessage(n);
    forall q | q in m.questions ensures NameShaped(q.name) && |Labels(q.name)| <= n {
      var j :| 0 < j <= n && q == Question(Nested(j), 1, 1);
      NestedLabels(j);
    }
    assert Chain(StartOf(true), 0);
    NestedSteps(StartOf(true), 12, 0, n);
    PackParses(m, true);
    var steps := QuestionSteps(StartOf(true), 12, m.questions);
    if n > 64 { assert steps[64] == 130; }
    if n <= 127 { ShortNamesParse(m, false); }
  }
}
