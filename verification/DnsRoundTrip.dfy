/** What is packed parses back, names equal up to the case of ASCII letters, whether or not suffixes are shared. */
module DnsRoundTrip {
  import opened Bytes
  import opened Dns

  // ----- reading is stable -----

  /** Bytes behind a name do not change how it reads. */
  lemma {:induction false} ReadStable(d: bytes, more: bytes, offset: nat, fuel: nat)
    requires ReadFrom(d, offset, fuel).Some?
    ensures ReadFrom(d + more, offset, fuel) == ReadFrom(d, offset, fuel)
    decreases fuel
  {
    hide Resumed;
    var length := d[offset];
    assert (d + more)[offset] == length;
    NoneResumed();
    if length >= 0xC0 {
      ReadStable(d, more, PointerAt(d, offset), fuel - 1);
      assert PointerAt(d + more, offset) == PointerAt(d, offset);
    } else if length != 0 {
      ReadStable(d, more, offset + 1 + length, fuel - 1);
      assert (d + more)[offset + 1..offset + 1 + length] == d[offset + 1..offset + 1 + length];
    }
  }

  lemma NoneResumed()
    ensures forall labels, end :: Resumed(labels, end, None) == None
  {}

  /** More steps allowed do not change what was read. */
  lemma {:induction false} ReadLonger(d: bytes, offset: nat, fuel: nat, more: nat)
    requires ReadFrom(d, offset, fuel).Some? && fuel <= more
    ensures ReadFrom(d, offset, more) == ReadFrom(d, offset, fuel)
    decreases fuel
  {
    hide Resumed;
    var length := d[offset];
    NoneResumed();
    if length >= 0xC0 {
      ReadLonger(d, PointerAt(d, offset), fuel - 1, more - 1);
    } else if length != 0 {
      ReadLonger(d, offset + 1 + length, fuel - 1, more - 1);
    }
  }

  /** Bytes behind a name do not change how many steps it takes either. */
  lemma {:induction false} StepsStable(d: bytes, more: bytes, offset: nat, fuel: nat, fewer: nat)
    requires ReadFrom(d, offset, fuel).Some?
    ensures ReadFrom(d + more, offset, fewer).Some? <==> ReadFrom(d, offset, fewer).Some?
    decreases fuel
  {
    assert fuel > 0 && offset < |d|;
    if fewer > 0 {
      hide Resumed, ReadFrom, PointerAt;
      ResumedSome();
      OneStep(d, offset, fuel);
      OneStep(d, offset, fewer);
      OneStep(d + more, offset, fewer);
      var length := d[offset];
      assert (d + more)[offset] == length;
      if length >= 0xC0 {
        assert PointerAt(d + more, offset) == PointerAt(d, offset) by { SamePointer(d, more, offset); }
        StepsStable(d, more, PointerAt(d, offset), fuel - 1, fewer - 1);
      } else if length != 0 {
        StepsStable(d, more, offset + 1 + length, fuel - 1, fewer - 1);
      }
    }
  }

  lemma SamePointer(d: bytes, more: bytes, offset: nat)
    requires offset + 1 < |d| && d[offset] >= 0xC0
    ensures PointerAt(d + more, offset) == PointerAt(d, offset)
  {}

  lemma ResumedSome()
    ensures forall labels, end, rest :: Resumed(labels, end, rest).Some? <==> rest.Some?
  {}

  // ----- keys of suffixes -----

  predicate GoodLabel(l: bytes) { l != [] && |l| <= 63 && DOT !in l }

  predicate Good(labels: seq<bytes>) { forall l | l in labels :: GoodLabel(l) }

  lemma IndexOfDot(a: bytes, rest: bytes)
    requires DOT !in a
    ensures IndexOf(a + [DOT] + rest, DOT) == |a| && IndexOf(a, DOT) == |a|
  {
    var s := a + [DOT] + rest;
    var i, j := IndexOf(s, DOT), IndexOf(a, DOT);
    assert s[|a|] == DOT;
    assert forall k | 0 <= k < |a| :: s[k] == a[k] && a[k] in a;
    assert forall k | 0 <= k < i :: s[k] in s[..i];
  }

  lemma {:induction false} SplitJoin(labels: seq<bytes>)
    requires labels != [] && forall l | l in labels :: DOT !in l
    ensures Split(Join(labels)) == labels
  {
    assert labels[0] in labels;
    if |labels| == 1 {
      IndexOfDot(labels[0], []);
    } else {
      var rest := Join(labels[1..]);
      SplitJoin(labels[1..]);
      IndexOfDot(labels[0], rest);
      var s := labels[0] + [DOT] + rest;
      assert s[..|labels[0]|] == labels[0] && s[|labels[0]| + 1..] == rest;
    }
  }

  lemma LowerConcat(a: bytes, b: bytes)
    ensures Lower(a + b) == Lower(a) + Lower(b)
  {}

  lemma LowerDot(l: bytes)
    ensures DOT in Lower(l) <==> DOT in l
  {
    if DOT in l {
      var i :| 0 <= i < |l| && l[i] == DOT;
      assert Lower(l)[i] == DOT;
    }
    if DOT in Lower(l) {
      var i :| 0 <= i < |l| && Lower(l)[i] == DOT;
      assert l[i] == DOT;
    }
  }

  lemma {:induction false} LowerJoin(labels: seq<bytes>)
    ensures Lower(Join(labels)) == Join(LowerAll(labels))
  {
    if |labels| > 1 {
      LowerJoin(labels[1..]);
      assert LowerAll(labels)[1..] == LowerAll(labels[1..]);
      LowerConcat(labels[0] + [DOT], Join(labels[1..]));
      LowerConcat(labels[0], [DOT]);
      assert Lower([DOT]) == [DOT];
    }
  }

  /** A key gives back its labels in lower case; so two suffixes share one only if they agree up to case. */
  lemma KeyLabels(labels: seq<bytes>)
    requires labels != [] && Good(labels)
    ensures Split(Key(labels)) == LowerAll(labels)
  {
    LowerJoin(labels);
    forall l | l in LowerAll(labels) ensures DOT !in l {
      var i :| 0 <= i < |labels| && LowerAll(labels)[i] == l;
      assert labels[i] in labels;
      LowerDot(labels[i]);
    }
    SplitJoin(LowerAll(labels));
  }

  // ----- the file of suffixes -----

  /** What has been filed: where each suffix starts, and how many pointers reading it follows. */
  datatype Filing = Filing(names: Names, hops: map<bytes, nat>)

  function Hops(f: Filing, key: bytes): nat { if key in f.hops then f.hops[key] else 0 }

  /** A name is shortened before its first label already. */
  predicate StartsShort(names: Names, labels: seq<bytes>, compressible: bool) {
    compressible && names.Some? && labels != [] && Key(labels) in names.value
  }

  /** How many pointers reading a name with these labels follows, if it is written now. */
  function NameHops(f: Filing, labels: seq<bytes>, compressible: bool): nat
    decreases |labels|
  {
    if labels == [] then 0
    else if StartsShort(f.names, labels, compressible) then 1 + Hops(f, Key(labels))
    else NameHops(f, labels[1..], compressible)
  }

  /** A step for every label, every pointer and the end. */
  function Steps(f: Filing, labels: seq<bytes>, compressible: bool): nat {
    |labels| + 1 + NameHops(f, labels, compressible)
  }

  /** At `pos` a name starts whose labels are those of the key, up to case; it takes exactly as many steps as counted. */
  ghost predicate EntryOk(d: bytes, pos: nat, key: bytes, hops: nat) {
    var labels := Split(key);
    var steps := |labels| + 1 + hops;
    var r := ReadFrom(d, pos, steps);
    hops < |labels| && r.Some? && ReadFrom(d, pos, steps - 1).None? && LowerAll(r.value.labels) == labels
  }

  ghost predicate FileOk(d: bytes, f: Filing) {
    f.names.Some? ==> forall k | k in f.names.value :: EntryOk(d, f.names.value[k], k, Hops(f, k))
  }

  /** Only the suffixes of `labels` matter. */
  ghost predicate FileOkFor(d: bytes, f: Filing, labels: seq<bytes>) {
    f.names.Some? ==> forall j | 0 <= j < |labels| && Key(labels[j..]) in f.names.value ::
      EntryOk(d, f.names.value[Key(labels[j..])], Key(labels[j..]), Hops(f, Key(labels[j..])))
  }

  lemma EntryStable(d: bytes, more: bytes, pos: nat, key: bytes, hops: nat)
    requires EntryOk(d, pos, key, hops)
    ensures EntryOk(d + more, pos, key, hops)
  {
    var steps := |Split(key)| + 1 + hops;
    ReadStable(d, more, pos, steps);
    StepsStable(d, more, pos, steps, steps - 1);
  }

  /** Everything filed before stays filed, and what was filed since is right. */
  ghost predicate Filed(d: bytes, names: Names, more: Names, hops: nat) {
    && (names.Some? <==> more.Some?)
    && (names.Some? ==>
          && (forall k | k in names.value :: k in more.value && more.value[k] == names.value[k])
          && (forall k | k in more.value && k !in names.value :: EntryOk(d, more.value[k], k, hops)))
  }

  /** How a written name reads back, and in how many steps. */
  ghost predicate ReadsBack(d: bytes, pos: nat, next: nat, labels: seq<bytes>, steps: nat, exact: bool) {
    var r := ReadFrom(d, pos, steps);
    && steps > 0 && r.Some? && ReadFrom(d, pos, steps - 1).None?
    && r.value.next == next && LowerAll(r.value.labels) == LowerAll(labels)
    && (exact ==> r.value.labels == labels)
  }

  lemma PointerReads(d: bytes, pos: nat, fuel: nat)
    requires pos < SHARE_LIMIT && fuel > 0 && ReadFrom(d, pos, fuel).Some? && ReadFrom(d, pos, fuel - 1).None?
    ensures var p := d + Be16(0xC000 + pos);
            && ReadFrom(p, |d|, fuel + 1) == Some(ReadLabels(ReadFrom(d, pos, fuel).value.labels, |d| + 2))
            && ReadFrom(p, |d|, fuel).None?
  {
    var p := d + Be16(0xC000 + pos);
    assert p[|d|] == (0xC000 + pos) / 0x100 && p[|d| + 1] == (0xC000 + pos) % 0x100;
    assert p[|d|] == 0xC0 + pos / 0x100 && p[|d| + 1] == pos % 0x100;
    assert PointerAt(p, |d|) == pos;
    ReadStable(d, Be16(0xC000 + pos), pos, fuel);
    StepsStable(d, Be16(0xC000 + pos), pos, fuel, fuel - 1);
    assert [] + ReadFrom(d, pos, fuel).value.labels == ReadFrom(d, pos, fuel).value.labels;
  }

  lemma LabelReads(p: bytes, d: bytes, l: bytes, fuel: nat)
    requires GoodLabel(l) && |d| + 1 + |l| <= |p| && p[|d|..|d| + 1 + |l|] == LabelBytes(l)
    ensures ReadFrom(p, |d|, fuel + 1) == Resumed([l], None, ReadFrom(p, |d| + |LabelBytes(l)|, fuel))
  {
    hide Resumed;
    var s := p[|d|..|d| + 1 + |l|];
    assert s[0] == |l| && p[|d|] == s[0];
    assert p[|d| + 1..|d| + 1 + |l|] == s[1..] == l;
  }

  lemma LowerFirst(l: bytes, a: seq<bytes>, b: seq<bytes>)
    requires LowerAll(a) == LowerAll(b)
    ensures LowerAll([l] + a) == LowerAll([l] + b)
  {
    assert forall i | 0 <= i < |a| :: LowerAll(a)[i] == LowerAll(b)[i];
  }

  /** A label in front of a name that reads back takes one more step. */
  lemma LabelInFront(p: bytes, d: bytes, labels: seq<bytes>, steps: nat, exact: bool, next: nat)
    requires labels != [] && GoodLabel(labels[0]) && |d| + |LabelBytes(labels[0])| <= |p|
    requires p[|d|..|d| + |LabelBytes(labels[0])|] == LabelBytes(labels[0])
    requires ReadsBack(p, |d| + |LabelBytes(labels[0])|, next, labels[1..], steps, exact)
    ensures ReadsBack(p, |d|, next, labels, steps + 1, exact)
  {
    var l := labels[0];
    LabelReads(p, d, l, steps);
    LabelReads(p, d, l, steps - 1);
    var rest := ReadFrom(p, |d| + |LabelBytes(l)|, steps).value.labels;
    LowerFirst(l, rest, labels[1..]);
    assert labels == [l] + labels[1..];
  }

  /** A suffix of a name is never filed under the key of the whole name. */
  lemma ShorterKey(labels: seq<bytes>, j: nat)
    requires Good(labels) && j < |labels| - 1
    ensures labels[1..][j..] == labels[j + 1..] && Key(labels[j + 1..]) != Key(labels)
  {
    hide Key, Split;
    var suffix := labels[j + 1..];
    assert forall l | l in suffix :: l in labels;
    KeyLabels(labels);
    KeyLabels(suffix);
    assert |Split(Key(labels))| != |Split(Key(suffix))|;
  }

  lemma RestFile(d: bytes, lb: bytes, f: Filing, pos: nat, labels: seq<bytes>)
    requires labels != [] && Good(labels) && FileOkFor(d, f, labels)
    ensures FileOkFor(d + lb, f.(names := Registered(f.names, Key(labels), pos)), labels[1..])
  {
    hide Key, Split, EntryOk;
    var g := f.(names := Registered(f.names, Key(labels), pos));
    if g.names.Some? {
      forall j | 0 <= j < |labels[1..]| && Key(labels[1..][j..]) in g.names.value
        ensures EntryOk(d + lb, g.names.value[Key(labels[1..][j..])], Key(labels[1..][j..]), Hops(g, Key(labels[1..][j..])))
      {
        ShorterKey(labels, j);
        var key := Key(labels[j + 1..]);
        assert key in f.names.value;
        EntryStable(d, lb, f.names.value[key], key, Hops(f, key));
      }
    }
  }

  /** Filing the whole name does not change how its rest is shortened. */
  lemma RestHops(f: Filing, pos: nat, labels: seq<bytes>, compressible: bool)
    requires labels != [] && Good(labels)
    ensures NameHops(f.(names := Registered(f.names, Key(labels), pos)), labels[1..], compressible)
         == NameHops(f, labels[1..], compressible)
  {
    hide Key;
    forall j | 0 <= j < |labels| - 1 ensures Key(labels[1..][j..]) != Key(labels) { ShorterKey(labels, j); }
    HopsOfOthers(f, Key(labels), pos, labels[1..], compressible);
  }

  lemma {:induction false} HopsOfOthers(f: Filing, key: bytes, pos: nat, labels: seq<bytes>, compressible: bool)
    requires forall j | 0 <= j < |labels| :: Key(labels[j..]) != key
    ensures NameHops(f.(names := Registered(f.names, key, pos)), labels, compressible) == NameHops(f, labels, compressible)
    decreases |labels|
  {
    hide Key;
    if labels != [] {
      assert labels[0..] == labels;
      forall j | 0 <= j < |labels[1..]| ensures Key(labels[1..][j..]) != key { assert labels[1..][j..] == labels[j + 1..]; }
      HopsOfOthers(f, key, pos, labels[1..], compressible);
    }
  }

  /** A filed suffix follows fewer pointers than it has labels. */
  lemma {:induction false} HopsAtMost(d: bytes, f: Filing, labels: seq<bytes>, compressible: bool)
    requires Good(labels) && FileOkFor(d, f, labels)
    ensures NameHops(f, labels, compressible) <= |labels|
    ensures labels != [] && !StartsShort(f.names, labels, compressible) ==> NameHops(f, labels, compressible) < |labels|
    decreases |labels|
  {
    hide Key, Split, ReadFrom;
    if StartsShort(f.names, labels, compressible) {
      assert labels[0..] == labels;
      KeyLabels(labels);
    } else if labels != [] {
      forall j | 0 <= j < |labels[1..]| ensures labels[1..][j..] == labels[j + 1..] {}
      assert FileOkFor(d, f, labels[1..]);
      assert forall l | l in labels[1..] :: l in labels;
      HopsAtMost(d, f, labels[1..], compressible);
    }
  }

  /** The name between `pos` and `next` reads back, and everything it filed is right. */
  ghost predicate NameOk(d: bytes, pos: nat, next: nat, f: Filing, more: Names, labels: seq<bytes>, compressible: bool) {
    && ReadsBack(d, pos, next, labels, Steps(f, labels, compressible), f.names.None? || !compressible)
    && Filed(d, f.names, more, NameHops(f, labels, compressible))
  }

  /** Whatever is written reads back. */
  lemma {:induction false} NameWritten(d: bytes, f: Filing, labels: seq<bytes>, compressible: bool)
    requires Good(labels) && FileOkFor(d, f, labels)
    ensures var w := WriteLabels(f.names, |d|, labels, compressible);
            NameOk(d + w.bytes, |d|, |d| + |w.bytes|, f, w.names, labels, compressible)
    decreases |labels|
  {
    if labels == [] {
      EmptyName(d, f, compressible);
    } else if StartsShort(f.names, labels, compressible) {
      ShortNameReads(d, f, labels);
    } else {
      hide Key, LabelBytes, NameOk, WriteLabels, FileOkFor, Registered, GoodLabel, StartsShort;
      var lb := LabelBytes(labels[0]);
      assert labels[0] in labels && Good(labels[1..]) by { assert forall l | l in labels[1..] :: l in labels; }
      RestFile(d, lb, f, |d|, labels);
      NameWritten(d + lb, f.(names := Registered(f.names, Key(labels), |d|)), labels[1..], compressible);
      HopsAtMost(d, f, labels, compressible);
      LongNameReads(d, f, labels, compressible);
    }
  }

  lemma EmptyName(d: bytes, f: Filing, compressible: bool)
    ensures NameOk(d + [0], |d|, |d| + 1, f, f.names, [], compressible)
  {}

  lemma ShortNameReads(d: bytes, f: Filing, labels: seq<bytes>)
    requires Good(labels) && FileOkFor(d, f, labels) && StartsShort(f.names, labels, true)
    ensures var w := WriteLabels(f.names, |d|, labels, true);
            NameOk(d + w.bytes, |d|, |d| + |w.bytes|, f, w.names, labels, true)
  {
    hide ReadFrom, Split, Key, LabelBytes, Registered;
    var pos := f.names.value[Key(labels)];
    assert labels[0..] == labels;
    assert EntryOk(d, pos, Key(labels), Hops(f, Key(labels)));
    KeyLabels(labels);
    PointerReads(d, pos, |labels| + 1 + Hops(f, Key(labels)));
  }

  lemma LongNameReads(d: bytes, f: Filing, labels: seq<bytes>, compressible: bool)
    requires labels != [] && Good(labels) && !StartsShort(f.names, labels, compressible)
    requires NameHops(f, labels, compressible) < |labels|
    requires var lb := LabelBytes(labels[0]);
             var g := f.(names := Registered(f.names, Key(labels), |d|));
             var rest := WriteLabels(g.names, |d + lb|, labels[1..], compressible);
             NameOk(d + lb + rest.bytes, |d + lb|, |d + lb| + |rest.bytes|, g, rest.names, labels[1..], compressible)
    ensures var w := WriteLabels(f.names, |d|, labels, compressible);
            NameOk(d + w.bytes, |d|, |d| + |w.bytes|, f, w.names, labels, compressible)
  {
    hide Key, LabelBytes, ReadFrom, Split;
    var lb := LabelBytes(labels[0]);
    var g := f.(names := Registered(f.names, Key(labels), |d|));
    var rest := WriteLabels(g.names, |d + lb|, labels[1..], compressible);
    var w := WriteLabels(f.names, |d|, labels, compressible);
    var p := d + lb + rest.bytes;
    assert w == Written(lb + rest.bytes, rest.names) && d + w.bytes == p;
    assert p[|d|..|d| + |lb|] == lb;
    assert labels[0] in labels;
    RestHops(f, |d|, labels, compressible);
    var steps := Steps(f, labels, compressible);
    assert Steps(g, labels[1..], compressible) == steps - 1;
    LabelInFront(p, d, labels, steps - 1, f.names.None? || !compressible, |p|);
    if f.names.Some? {
      Pending(p, |d|, labels, NameHops(f, labels, compressible), !compressible);
    }
  }

  lemma Pending(p: bytes, pos: nat, labels: seq<bytes>, hops: nat, exact: bool)
    requires labels != [] && Good(labels) && hops < |labels|
    requires ReadsBack(p, pos, |p|, labels, |labels| + 1 + hops, exact)
    ensures EntryOk(p, pos, Key(labels), hops)
  {
    hide Key, ReadFrom, Split;
    KeyLabels(labels);
  }

  // ----- shown names -----

  lemma EscapeLower(b: byte)
    ensures Lower(EscapeByte(b)) == EscapeByte(LowerByte(b))
  {
    var e, f := Lower(EscapeByte(b)), EscapeByte(LowerByte(b));
    assert |e| == |f| && forall i | 0 <= i < |e| :: e[i] == f[i];
  }

  lemma {:induction false} EscapeFolds(l: bytes)
    ensures Lower(Escape(l)) == Escape(Lower(l))
  {
    if l != [] {
      EscapeFolds(l[1..]);
      EscapeLower(l[0]);
      LowerConcat(EscapeByte(l[0]), Escape(l[1..]));
      assert Lower(l)[1..] == Lower(l[1..]);
    }
  }

  lemma ShownFolds(labels: seq<bytes>)
    ensures Lower(Shown(labels)) == Shown(LowerAll(labels))
  {
    LowerJoin(EscapeAll(labels));
    LowerConcat(Join(EscapeAll(labels)), [DOT]);
    assert Lower([DOT]) == [DOT];
    forall i | 0 <= i < |labels| ensures LowerAll(EscapeAll(labels))[i] == EscapeAll(LowerAll(labels))[i] {
      EscapeFolds(labels[i]);
    }
    assert LowerAll(EscapeAll(labels)) == EscapeAll(LowerAll(labels));
  }

  /** A name as it is shown, exactly or up to the case of ASCII letters. */
  predicate SameName(shown: bytes, name: bytes, exact: bool) {
    && Lower(shown) == Lower(Shown(Labels(name)))
    && (exact ==> shown == Shown(Labels(name)))
  }

  /** Labels of at most 63 bytes; none is empty anyway. */
  predicate NameShaped(name: bytes) { forall l | l in Labels(name) :: |l| <= 63 }

  lemma ShapedIsGood(name: bytes)
    requires NameShaped(name)
    ensures Good(Labels(name))
  {}

  /** What is filed once a name is written: the suffixes it adds follow as many pointers as it does. */
  function Refiled(f: Filing, more: Names, hops: nat): Filing {
    Filing(more, if more.None? then map[] else
           map k | k in more.value :: if f.names.Some? && k in f.names.value then Hops(f, k) else hops)
  }

  function AfterName(f: Filing, pos: nat, name: bytes, compressible: bool): Filing {
    Refiled(f, WriteLabels(f.names, pos, Labels(name), compressible).names, NameHops(f, Labels(name), compressible))
  }

  lemma FileIsFiledFor(d: bytes, f: Filing, labels: seq<bytes>)
    requires FileOk(d, f)
    ensures FileOkFor(d, f, labels)
  {
    hide EntryOk, Key;
  }

  lemma FileStays(d: bytes, b: bytes, f: Filing, more: Names, hops: nat)
    requires FileOk(d, f) && Filed(d + b, f.names, more, hops)
    ensures FileOk(d + b, Refiled(f, more, hops))
  {
    hide EntryOk;
    var g := Refiled(f, more, hops);
    if more.Some? {
      forall k | k in more.value ensures EntryOk(d + b, more.value[k], k, Hops(g, k)) {
        if k in f.names.value { EntryStable(d, b, f.names.value[k], k, Hops(f, k)); }
      }
    }
  }

  lemma FileExtends(d: bytes, b: bytes, f: Filing)
    requires FileOk(d, f)
    ensures FileOk(d + b, f)
  {
    hide EntryOk;
    if f.names.Some? {
      forall k | k in f.names.value ensures EntryOk(d + b, f.names.value[k], k, Hops(f, k)) {
        EntryStable(d, b, f.names.value[k], k, Hops(f, k));
      }
    }
  }

  /** Within the limit a name that reads back is read; beyond it, it is not. */
  lemma StepLimit(d: bytes, more: bytes, pos: nat, next: nat, labels: seq<bytes>, steps: nat, exact: bool)
    requires ReadsBack(d, pos, next, labels, steps, exact)
    ensures ReadFrom(d + more, pos, STEP_LIMIT).Some? <==> steps <= STEP_LIMIT
    ensures steps <= STEP_LIMIT ==> ReadFrom(d + more, pos, STEP_LIMIT) == ReadFrom(d, pos, steps)
  {
    hide ReadFrom;
    StepsStable(d, more, pos, steps, STEP_LIMIT);
    if steps <= STEP_LIMIT {
      ReadLonger(d, pos, steps, STEP_LIMIT);
      ReadStable(d, more, pos, STEP_LIMIT);
    } else if ReadFrom(d, pos, STEP_LIMIT).Some? {
      ReadLonger(d, pos, STEP_LIMIT, steps - 1);
    }
  }

  /** The name at `pos` is read exactly when it takes few enough steps. */
  ghost predicate NameReads(p: bytes, pos: nat, next: nat, name: bytes, steps: nat, exact: bool) {
    var r := NameAt(p, pos);
    && (r.Some? <==> steps <= STEP_LIMIT)
    && (r.Some? ==> r.value.next == next && SameName(r.value.name, name, exact))
  }

  /** Pointers at most double the steps; without them there is one for each label and the end. */
  predicate StepsBounded(steps: nat, name: bytes, shared: bool) {
    steps <= if shared then 2 * |Labels(name)| + 1 else |Labels(name)| + 1
  }

  /** A name in a packet: how it reads there, and the file of suffixes stays right. */
  lemma NameInPacket(p: bytes, d: bytes, f: Filing, name: bytes, compressible: bool, more: bytes)
    requires FileOk(d, f) && NameShaped(name)
    requires p == d + WriteLabels(f.names, |d|, Labels(name), compressible).bytes + more
    ensures var w := WriteLabels(f.names, |d|, Labels(name), compressible);
            var steps := Steps(f, Labels(name), compressible);
            && FileOk(d + w.bytes, AfterName(f, |d|, name, compressible)) && (f.names.Some? <==> w.names.Some?)
            && NameReads(p, |d|, |d| + |w.bytes|, name, steps, f.names.None?)
            && StepsBounded(steps, name, f.names.Some?)
  {
    hide ReadFrom, WriteLabels, EntryOk, Key, Labels, Shown, NameHops;
    var labels := Labels(name);
    var w := WriteLabels(f.names, |d|, labels, compressible);
    ShapedIsGood(name);
    FileIsFiledFor(d, f, labels);
    NameWritten(d, f, labels, compressible);
    FileStays(d, w.bytes, f, w.names, NameHops(f, labels, compressible));
    var steps := Steps(f, labels, compressible);
    StepLimit(d + w.bytes, more, |d|, |d| + |w.bytes|, labels, steps, f.names.None? || !compressible);
    HopsAtMost(d, f, labels, compressible);
    if f.names.None? { NoHops(f, labels, compressible); }
    if steps <= STEP_LIMIT {
      ShownFolds(ReadFrom(p, |d|, STEP_LIMIT).value.labels);
      ShownFolds(labels);
    }
  }

  lemma {:induction false} NoHops(f: Filing, labels: seq<bytes>, compressible: bool)
    requires f.names.None?
    ensures NameHops(f, labels, compressible) == 0
    decreases |labels|
  {
    if labels != [] { NoHops(f, labels[1..], compressible); }
  }

  // ----- questions -----

  lemma ReadsFields(p: bytes, d: bytes, name: bytes, kind: u16, classCode: u16, more: bytes)
    requires p == d + (name + Be16(kind) + Be16(classCode)) + more
    ensures var at := |d| + |name|;
            at + 4 <= |p| && ReadBe16(p, at) == kind && ReadBe16(p, at + 2) == classCode
  {
    var at := |d| + |name|;
    assert p[at..at + 2] == Be16(kind);
    assert p[at + 2..at + 4] == Be16(classCode);
    ReadBe16Inverts(p, at, kind);
    ReadBe16Inverts(p, at + 2, classCode);
  }

  predicate SameQuestion(r: Question, q: Question, exact: bool) {
    SameName(r.name, q.name, exact) && r.kind == q.kind && r.classCode == q.classCode
  }

  lemma QuestionInPacket(p: bytes, d: bytes, f: Filing, q: Question, more: bytes)
    requires FileOk(d, f) && NameShaped(q.name)
    requires p == d + WriteQuestion(f.names, |d|, q).bytes + more
    ensures var w := WriteQuestion(f.names, |d|, q);
            var steps := Steps(f, Labels(q.name), true);
            var r := QuestionAt(p, |d|);
            && FileOk(d + w.bytes, AfterName(f, |d|, q.name, true)) && (f.names.Some? <==> w.names.Some?)
            && (r.Some? <==> steps <= STEP_LIMIT) && StepsBounded(steps, q.name, f.names.Some?)
            && (r.Some? ==> r.value.next == |d| + |w.bytes| && SameQuestion(r.value.question, q, f.names.None?))
  {
    hide WriteLabels, FileOk, SameName, NameAt, Be16, ReadBe16, Labels, Steps, StepsBounded, AfterName;
    var name := WriteLabels(f.names, |d|, Labels(q.name), true);
    var w := WriteQuestion(f.names, |d|, q);
    var tail := Be16(q.kind) + Be16(q.classCode);
    assert w.bytes == name.bytes + tail;
    assert p == d + name.bytes + (tail + more);
    assert p == d + (name.bytes + Be16(q.kind) + Be16(q.classCode)) + more;
    NameInPacket(p, d, f, q.name, true, tail + more);
    ReadsFields(p, d, name.bytes, q.kind, q.classCode, more);
    FileExtends(d + name.bytes, tail, AfterName(f, |d|, q.name, true));
    assert d + name.bytes + tail == d + w.bytes;
  }

  /** The steps reading each question name takes. */
  function QuestionSteps(f: Filing, pos: nat, qs: seq<Question>): (r: seq<nat>)
    ensures |r| == |qs|
    decreases |qs|
  {
    if qs == [] then [] else
    [Steps(f, Labels(qs[0].name), true)]
    + QuestionSteps(AfterName(f, pos, qs[0].name, true), pos + |WriteQuestion(f.names, pos, qs[0]).bytes|, qs[1..])
  }

  function AfterQuestions(f: Filing, pos: nat, qs: seq<Question>): Filing
    decreases |qs|
  {
    if qs == [] then f else
    AfterQuestions(AfterName(f, pos, qs[0].name, true), pos + |WriteQuestion(f.names, pos, qs[0]).bytes|, qs[1..])
  }

  ghost predicate SameQuestions(rs: seq<Question>, qs: seq<Question>, exact: bool) {
    |rs| == |qs| && forall i | 0 <= i < |qs| :: SameQuestion(rs[i], qs[i], exact)
  }

  predicate AllWithin(steps: seq<nat>) { forall i | 0 <= i < |steps| :: steps[i] <= STEP_LIMIT }

  /** What reading questions gives. */
  ghost predicate QuestionsRead(r: Option<ReadQuestions>, next: nat, qs: seq<Question>, steps: seq<nat>, shared: bool) {
    && |steps| == |qs| && (r.Some? <==> AllWithin(steps))
    && (forall i | 0 <= i < |qs| :: StepsBounded(steps[i], qs[i].name, shared))
    && (r.Some? ==> r.value.next == next && SameQuestions(r.value.questions, qs, !shared))
  }

  /** One question more in front. */
  lemma QuestionInFront(
    p: bytes, at: nat, next: nat, qs: seq<Question>, steps: seq<nat>, shared: bool)
    requires qs != [] && |steps| == |qs| && StepsBounded(steps[0], qs[0].name, shared)
    requires QuestionAt(p, at).Some? <==> steps[0] <= STEP_LIMIT
    requires QuestionAt(p, at).Some? ==>
               && SameQuestion(QuestionAt(p, at).value.question, qs[0], !shared)
               && QuestionsRead(QuestionsAt(p, QuestionAt(p, at).value.next, |qs| - 1), next, qs[1..], steps[1..], shared)
    requires forall i | 0 <= i < |qs| - 1 :: StepsBounded(steps[1..][i], qs[1..][i].name, shared)
    ensures QuestionsRead(QuestionsAt(p, at, |qs|), next, qs, steps, shared)
  {
    hide QuestionAt, SameQuestion, StepsBounded;
    forall i | 0 <= i < |qs| ensures StepsBounded(steps[i], qs[i].name, shared) {
      if i > 0 { assert steps[i] == steps[1..][i - 1] && qs[i] == qs[1..][i - 1]; }
    }
    assert AllWithin(steps) <==> steps[0] <= STEP_LIMIT && AllWithin(steps[1..]) by {
      if AllWithin(steps[1..]) { forall i | 0 < i < |steps| ensures steps[i] <= STEP_LIMIT { assert steps[i] == steps[1..][i - 1]; } }
    }
  }

  /** The first question and the bytes behind it. */
  lemma QuestionsParts(p: bytes, d: bytes, names: Names, qs: seq<Question>, more: bytes)
    requires qs != [] && p == d + WriteQuestions(names, |d|, qs).bytes + more
    ensures var first := WriteQuestion(names, |d|, qs[0]);
            var e := d + first.bytes;
            var rest := WriteQuestions(first.names, |e|, qs[1..]);
            && p == d + first.bytes + (rest.bytes + more) && p == e + rest.bytes + more
            && d + WriteQuestions(names, |d|, qs).bytes == e + rest.bytes
            && WriteQuestions(names, |d|, qs).names == rest.names && |e| == |d| + |first.bytes|
  {
    hide WriteQuestion;
  }

  lemma {:induction false} QuestionsFiled(d: bytes, f: Filing, qs: seq<Question>)
    requires FileOk(d, f) && forall q | q in qs :: NameShaped(q.name)
    ensures var w := WriteQuestions(f.names, |d|, qs);
            && FileOk(d + w.bytes, AfterQuestions(f, |d|, qs)) && AfterQuestions(f, |d|, qs).names == w.names
            && (f.names.Some? <==> w.names.Some?)
    decreases |qs|
  {
    hide WriteQuestion, FileOk, NameShaped, AfterName, QuestionAt, Steps, StepsBounded;
    if qs == [] {
      assert d + [] == d;
    } else {
      hide WriteQuestions;
      var w := WriteQuestions(f.names, |d|, qs);
      var first := WriteQuestion(f.names, |d|, qs[0]);
      FirstQuestion(f, |d|, qs[0]);
      assert qs[0] in qs && forall q | q in qs[1..] :: q in qs;
      assert d + w.bytes + [] == d + w.bytes && d + first.bytes + [] == d + first.bytes;
      QuestionsParts(d + w.bytes, d, f.names, qs, []);
      QuestionInPacket(d + first.bytes, d, f, qs[0], []);
      QuestionsFiled(d + first.bytes, AfterName(f, |d|, qs[0].name, true), qs[1..]);
    }
  }

  lemma {:induction false} QuestionsInPacket(p: bytes, d: bytes, f: Filing, qs: seq<Question>, more: bytes, next: nat)
    requires FileOk(d, f) && forall q | q in qs :: NameShaped(q.name)
    requires p == d + WriteQuestions(f.names, |d|, qs).bytes + more && next + |more| == |p|
    ensures QuestionsRead(QuestionsAt(p, |d|, |qs|), next, qs, QuestionSteps(f, |d|, qs), f.names.Some?)
    decreases |qs|
  {
    hide WriteQuestion, FileOk, SameQuestion, QuestionAt, NameShaped, Steps, StepsBounded, AfterName;
    if qs != [] {
      hide QuestionsRead, QuestionsAt, WriteQuestions, QuestionSteps;
      var first := WriteQuestion(f.names, |d|, qs[0]);
      var g := AfterName(f, |d|, qs[0].name, true);
      var e := d + first.bytes;
      FirstQuestion(f, |d|, qs[0]);
      var rest := WriteQuestions(first.names, |e|, qs[1..]);
      assert qs[0] in qs && forall q | q in qs[1..] :: q in qs;
      QuestionsParts(p, d, f.names, qs, more);
      QuestionInPacket(p, d, f, qs[0], rest.bytes + more);
      QuestionsInPacket(p, e, g, qs[1..], more, next);
      var steps := QuestionSteps(f, |d|, qs);
      StepsNext(f, |d|, qs, |e|);
      BoundsRead(QuestionsAt(p, |e|, |qs| - 1), next, qs[1..], steps[1..], f.names.Some?);
      QuestionInFront(p, |d|, next, qs, steps, f.names.Some?);
    }
  }

  lemma StepsNext(f: Filing, pos: nat, qs: seq<Question>, next: nat)
    requires qs != [] && next == pos + |WriteQuestion(f.names, pos, qs[0]).bytes|
    ensures var steps := QuestionSteps(f, pos, qs);
            && |steps| == |qs| && steps[0] == Steps(f, Labels(qs[0].name), true)
            && steps[1..] == QuestionSteps(AfterName(f, pos, qs[0].name, true), next, qs[1..])
  {
    hide WriteQuestion, Steps, AfterName;
  }

  lemma BoundsRead(r: Option<ReadQuestions>, next: nat, qs: seq<Question>, steps: seq<nat>, shared: bool)
    requires QuestionsRead(r, next, qs, steps, shared)
    ensures |steps| == |qs| && forall i | 0 <= i < |qs| :: StepsBounded(steps[i], qs[i].name, shared)
  {
    hide StepsBounded;
  }

  lemma FirstQuestion(f: Filing, pos: nat, q: Question)
    ensures AfterName(f, pos, q.name, true).names == WriteQuestion(f.names, pos, q).names
  {}

  // ----- records -----

  /** What a record must satisfy to be read past: labels that fit, and data whose length the field can hold. */
  predicate RecordShaped(r: Record) { NameShaped(r.name) && DataShaped(r.data) }

  predicate DataShaped(d: Data) {
    match d
    case Ptr(target) => NameShaped(target) && NameSize(Labels(target)) <= 0xFFFF
    case Srv(_, server) => NameShaped(server) && 6 + NameSize(Labels(server)) <= 0xFFFF
    case Txt(strings) => |WriteTexts(strings)| <= 0xFFFF
    case A(octets) => |octets| == 4
    case Aaaa(octets) => |octets| == 16
  }

  /** The bytes of a name written in full. */
  function NameSize(labels: seq<bytes>): nat {
    if labels == [] then 1 else 1 + |labels[0]| + NameSize(labels[1..])
  }

  /** Shortening never makes a name longer. */
  lemma {:induction false} NameLength(names: Names, pos: nat, labels: seq<bytes>, compressible: bool)
    requires forall l | l in labels :: l != []
    ensures |WriteLabels(names, pos, labels, compressible).bytes| <= NameSize(labels)
    decreases |labels|
  {
    hide Key;
    if labels != [] {
      assert labels[0] in labels && forall l | l in labels[1..] :: l in labels;
      NameLength(Registered(names, Key(labels), pos), pos + |LabelBytes(labels[0])|, labels[1..], compressible);
    }
  }

  lemma DataLength(names: Names, pos: nat, d: Data)
    requires DataShaped(d)
    ensures |WriteData(names, pos, d).bytes| <= 0xFFFF
  {
    hide WriteLabels, NameSize;
    match d
    case Ptr(target) => NameLength(names, pos, Labels(target), true);
    case Srv(_, server) => NameLength(names, pos + 6, Labels(server), false);
    case _ =>
  }

  function AfterData(f: Filing, pos: nat, d: Data): Filing {
    match d
    case Ptr(target) => AfterName(f, pos, target, true)
    case Srv(_, server) => AfterName(f, pos + 6, server, false)
    case _ => f
  }

  /** The file of suffixes stays right behind any record data. */
  lemma DataFiled(d: bytes, f: Filing, data: Data)
    requires FileOk(d, f) && DataShaped(data)
    ensures var w := WriteData(f.names, |d|, data);
            && FileOk(d + w.bytes, AfterData(f, |d|, data)) && AfterData(f, |d|, data).names == w.names
            && (f.names.Some? <==> w.names.Some?)
  {
    hide WriteLabels, FileOk, SameName, NameAt, Labels, NameShaped, WriteTexts, Be16, NameSize, NameHops;
    var w := WriteData(f.names, |d|, data);
    match data
    case Ptr(target) =>
      assert d + w.bytes + [] == d + w.bytes;
      NameInPacket(d + w.bytes, d, f, target, true, []);
    case Srv(port, server) =>
      var head := [0, 0, 0, 0] + Be16(port);
      var name := WriteLabels(f.names, |d| + 6, Labels(server), false);
      FileExtends(d, head, f);
      assert |d + head| == |d| + 6;
      assert d + w.bytes == d + head + name.bytes && d + head + name.bytes + [] == d + head + name.bytes;
      NameInPacket(d + head + name.bytes, d + head, f, server, false, []);
    case _ => FileExtends(d, w.bytes, f);
  }

  /** The steps reading a record's name and, for a pointer record, its target takes. */
  datatype RecordSteps = RecordSteps(name: nat, target: nat)

  function StepsOfRecord(f: Filing, pos: nat, r: Record): RecordSteps {
    RecordSteps(Steps(f, Labels(r.name), true),
                if r.data.Ptr? then Steps(AfterName(f, pos, r.name, true), Labels(r.data.target), true) else 0)
  }

  function AfterRecord(f: Filing, pos: nat, r: Record): Filing {
    var name := WriteLabels(f.names, pos, Labels(r.name), true);
    AfterData(AfterName(f, pos, r.name, true), pos + |name.bytes| + 10, r.data)
  }

  /** Only pointer records whose target can be read are kept; every other one leaves a placeholder. */
  predicate SameRecord(r: Record, w: Record, steps: RecordSteps, exact: bool) {
    if w.data.Ptr? && steps.target <= STEP_LIMIT then
      && r.data.Ptr? && SameName(r.name, w.name, exact) && r.classCode == w.classCode && r.ttl == w.ttl
      && SameName(r.data.target, w.data.target, exact)
    else r == OTHER
  }

  predicate RecordStepsBounded(steps: RecordSteps, r: Record, shared: bool) {
    && StepsBounded(steps.name, r.name, shared)
    && (r.data.Ptr? ==> StepsBounded(steps.target, r.data.target, shared))
  }

  /** The fixed fields of a record. */
  function Fixed(kind: u16, classCode: u16, ttl: u32, length: u16): (r: bytes)
    ensures |r| == 10
  {
    Be16(kind) + Be16(classCode) + Be32(ttl) + Be16(length)
  }

  lemma ReadsFixed(p: bytes, front: bytes, kind: u16, classCode: u16, ttl: u32, length: u16, more: bytes)
    requires p == front + Fixed(kind, classCode, ttl, length) + more
    ensures var at := |front|;
            && at + 10 <= |p| && ReadBe16(p, at) == kind && ReadBe16(p, at + 2) == classCode
            && ReadBe32(p, at + 4) == ttl && ReadBe16(p, at + 8) == length
  {
    var at := |front|;
    assert p[at..at + 2] == Be16(kind);
    assert p[at + 2..at + 4] == Be16(classCode);
    assert p[at + 4..at + 8] == Be32(ttl);
    assert p[at + 8..at + 10] == Be16(length);
    ReadBe16Inverts(p, at, kind);
    ReadBe16Inverts(p, at + 2, classCode);
    ReadBe32Inverts(p, at + 4, ttl);
    ReadBe16Inverts(p, at + 8, length);
  }

  lemma RecordParts(names: Names, d: bytes, r: Record)
    ensures var name := WriteLabels(names, |d|, Labels(r.name), true);
            var data := WriteData(name.names, |d| + |name.bytes| + 10, r.data);
            var w := WriteRecord(names, |d|, r);
            && d + w.bytes == d + name.bytes + Fixed(Kind(r.data), r.classCode, r.ttl, Saturated(|data.bytes|)) + data.bytes
            && w.names == data.names && |w.bytes| == |name.bytes| + 10 + |data.bytes|
  {
    hide WriteLabels, WriteData, Labels, Kind, Be16, Be32;
  }

  lemma RecordInPacket(p: bytes, d: bytes, f: Filing, r: Record, more: bytes)
    requires FileOk(d, f) && RecordShaped(r)
    requires p == d + WriteRecord(f.names, |d|, r).bytes + more
    ensures var w := WriteRecord(f.names, |d|, r);
            var steps := StepsOfRecord(f, |d|, r);
            var read := RecordAt(p, |d|);
            && FileOk(d + w.bytes, AfterRecord(f, |d|, r)) && AfterRecord(f, |d|, r).names == w.names
            && (f.names.Some? <==> w.names.Some?)
            && (read.Some? <==> steps.name <= STEP_LIMIT) && RecordStepsBounded(steps, r, f.names.Some?)
            && (read.Some? ==> read.value.next == |d| + |w.bytes| && SameRecord(read.value.record, r, steps, f.names.None?))
  {
    hide WriteLabels, FileOk, SameName, NameAt, Fixed, ReadBe16, ReadBe32, Labels, NameShaped, WriteRecord, WriteTexts,
      DataShaped, AfterName, AfterData, Steps, StepsBounded, WriteData;
    var name := WriteLabels(f.names, |d|, Labels(r.name), true);
    var g := AfterName(f, |d|, r.name, true);
    AfterNameNames(f, |d|, r.name, true);
    var data := WriteData(g.names, |d| + |name.bytes| + 10, r.data);
    var fixed := Fixed(Kind(r.data), r.classCode, r.ttl, Saturated(|data.bytes|));
    RecordParts(f.names, d, r);
    assert p == d + name.bytes + (fixed + data.bytes + more);
    NameInPacket(p, d, f, r.name, true, fixed + data.bytes + more);
    var front := d + name.bytes;
    FileExtends(front, fixed, g);
    DataLength(g.names, |front + fixed|, r.data);
    DataFiled(front + fixed, g, r.data);
    assert p == front + fixed + (data.bytes + more);
    ReadsFixed(p, front, Kind(r.data), r.classCode, r.ttl, |data.bytes|, data.bytes + more);
    if r.data.Ptr? {
      TargetShaped(g.names, |front + fixed|, r);
      assert p == front + fixed + data.bytes + more;
      NameInPacket(p, front + fixed, g, r.data.target, true, more);
    }
  }

  lemma AfterNameNames(f: Filing, pos: nat, name: bytes, compressible: bool)
    ensures AfterName(f, pos, name, compressible).names == WriteLabels(f.names, pos, Labels(name), compressible).names
  {}

  lemma TargetShaped(names: Names, pos: nat, r: Record)
    requires RecordShaped(r) && r.data.Ptr?
    ensures NameShaped(r.data.target)
    ensures WriteData(names, pos, r.data) == WriteLabels(names, pos, Labels(r.data.target), true)
  {}

  function AllRecordSteps(f: Filing, pos: nat, rs: seq<Record>): (r: seq<RecordSteps>)
    ensures |r| == |rs|
    decreases |rs|
  {
    if rs == [] then [] else
    [StepsOfRecord(f, pos, rs[0])]
    + AllRecordSteps(AfterRecord(f, pos, rs[0]), pos + |WriteRecord(f.names, pos, rs[0]).bytes|, rs[1..])
  }

  predicate NamesWithin(steps: seq<RecordSteps>) { forall i | 0 <= i < |steps| :: steps[i].name <= STEP_LIMIT }

  ghost predicate SameRecords(rs: seq<Record>, ws: seq<Record>, steps: seq<RecordSteps>, exact: bool) {
    |rs| == |ws| == |steps| && forall i | 0 <= i < |ws| :: SameRecord(rs[i], ws[i], steps[i], exact)
  }

  lemma {:induction false} RecordsInPacket(p: bytes, d: bytes, f: Filing, rs: seq<Record>)
    requires FileOk(d, f) && forall r | r in rs :: RecordShaped(r)
    requires p == d + WriteRecords(f.names, |d|, rs).bytes
    ensures var steps := AllRecordSteps(f, |d|, rs);
            var r := RecordsAt(p, |d|, |rs|);
            && (r.Some? <==> NamesWithin(steps))
            && (forall i | 0 <= i < |rs| :: RecordStepsBounded(steps[i], rs[i], f.names.Some?))
            && (r.Some? ==> SameRecords(r.value.records, rs, steps, f.names.None?))
    decreases |rs|
  {
    hide WriteRecord, FileOk, SameRecord, RecordAt, RecordShaped, StepsOfRecord, RecordStepsBounded, AfterRecord;
    if rs != [] {
      var first := WriteRecord(f.names, |d|, rs[0]);
      var g := AfterRecord(f, |d|, rs[0]);
      var rest := WriteRecords(first.names, |d| + |first.bytes|, rs[1..]);
      assert rs[0] in rs && forall r | r in rs[1..] :: r in rs;
      assert d + (first.bytes + rest.bytes) == d + first.bytes + rest.bytes;
      RecordInPacket(p, d, f, rs[0], rest.bytes);
      RecordsInPacket(p, d + first.bytes, g, rs[1..]);
      var steps := AllRecordSteps(f, |d|, rs);
      assert steps[1..] == AllRecordSteps(g, |d + first.bytes|, rs[1..]);
      assert NamesWithin(steps) <==> steps[0].name <= STEP_LIMIT && NamesWithin(steps[1..]);
    }
  }

  /** Records read in two stretches. */
  lemma {:induction false} RecordsAtSplit(d: bytes, at: nat, m: nat, n: nat)
    ensures RecordsAt(d, at, m + n) ==
            match RecordsAt(d, at, m)
            case None => None
            case Some(first) =>
              match RecordsAt(d, first.next, n)
              case None => None
              case Some(rest) => Some(ReadRecords(first.records + rest.records, rest.next))
    ensures RecordsAt(d, at, m).Some? ==> |RecordsAt(d, at, m).value.records| == m
    decreases m
  {
    hide RecordAt;
    if m == 0 {
      if RecordsAt(d, at, n).Some? { assert [] + RecordsAt(d, at, n).value.records == RecordsAt(d, at, n).value.records; }
    } else if RecordAt(d, at).Some? {
      var r := RecordAt(d, at).value;
      RecordsAtSplit(d, r.next, m - 1, n);
      if RecordsAt(d, at, m + n).Some? {
        var first := RecordsAt(d, r.next, m - 1).value;
        var rest := RecordsAt(d, first.next, n).value;
        assert [r.record] + (first.records + rest.records) == [r.record] + first.records + rest.records;
      }
    }
  }

  // ----- whole messages -----

  lemma FlagFields(w: int, a: int, o: int, c: int, d: int, e: int)
    requires 0 <= a <= 1 && 0 <= o < 16 && 0 <= c <= 1 && 0 <= d <= 1 && 0 <= e <= 1
    requires w == a * 0x8000 + o * 0x800 + c * 0x400 + d * 0x100 + e * 0x10
    ensures w / 0x8000 == a && w / 0x800 == a * 16 + o && w / 0x400 == a * 32 + o * 2 + c
    ensures w / 0x100 == a * 128 + o * 8 + c * 4 + d && w / 0x10 == a * 2048 + o * 128 + c * 64 + d * 16 + e
  {}

  lemma FieldsParse(w: u16, a: int, o: byte, c: int, d: int, e: int)
    requires 0 <= a <= 1 && o < 16 && 0 <= c <= 1 && 0 <= d <= 1 && 0 <= e <= 1
    requires w / 0x8000 == a && w / 0x800 == a * 16 + o && w / 0x400 == a * 32 + o * 2 + c
    requires w / 0x100 == a * 128 + o * 8 + c * 4 + d && w / 0x10 == a * 2048 + o * 128 + c * 64 + d * 16 + e
    ensures ParseFlags(w) == Flags(a == 1, o, c == 1, d == 1, e == 1)
  {
    assert (a * 16 + o) % 16 == o;
  }

  lemma FlagsInvert(f: Flags)
    requires f.opcode < 16
    ensures ParseFlags(FlagWord(f)) == f
  {
    hide ParseFlags;
    var a, c, d, e := FlagBit(f.response, 1), FlagBit(f.authoritative, 1), FlagBit(f.recursionDesired, 1), FlagBit(f.checkingDisabled, 1);
    FlagSum(f);
    hide FlagWord;
    FlagFields(FlagWord(f), a, f.opcode, c, d, e);
    FieldsParse(FlagWord(f), a, f.opcode, c, d, e);
  }

  lemma FlagSum(f: Flags)
    requires f.opcode < 16
    ensures FlagWord(f) as int
         == FlagBit(f.response, 1) * 0x8000 + f.opcode as int * 0x800 + FlagBit(f.authoritative, 1) * 0x400
            + FlagBit(f.recursionDesired, 1) * 0x100 + FlagBit(f.checkingDisabled, 1) * 0x10
  {}

  lemma HeaderReads(m: Message, p: bytes, more: bytes)
    requires p == WriteHeader(m) + more
    ensures |p| >= 12 && ReadBe16(p, 0) == m.id && ReadBe16(p, 2) == FlagWord(m.flags)
    ensures ReadBe16(p, 4) == Saturated(|m.questions|) && ReadBe16(p, 6) == Saturated(|m.answers|)
    ensures ReadBe16(p, 8) == Saturated(|m.authority|) && ReadBe16(p, 10) == Saturated(|m.additional|)
  {
    hide FlagWord, Saturated;
    assert p[0..2] == Be16(m.id);
    assert p[2..4] == Be16(FlagWord(m.flags));
    assert p[4..6] == Be16(Saturated(|m.questions|));
    assert p[6..8] == Be16(Saturated(|m.answers|));
    assert p[8..10] == Be16(Saturated(|m.authority|));
    assert p[10..12] == Be16(Saturated(|m.additional|));
    ReadBe16Inverts(p, 0, m.id);
    ReadBe16Inverts(p, 2, FlagWord(m.flags));
    ReadBe16Inverts(p, 4, Saturated(|m.questions|));
    ReadBe16Inverts(p, 6, Saturated(|m.answers|));
    ReadBe16Inverts(p, 8, Saturated(|m.authority|));
    ReadBe16Inverts(p, 10, Saturated(|m.additional|));
  }

  /** What the format can hold. */
  ghost predicate MessageShaped(m: Message) {
    && m.flags.opcode < 16
    && |m.questions| <= 0xFFFF && |m.answers| <= 0xFFFF && |m.authority| <= 0xFFFF && |m.additional| <= 0xFFFF
    && (forall q | q in m.questions :: NameShaped(q.name))
    && (forall r | r in Records(m) :: RecordShaped(r))
  }

  function Records(m: Message): seq<Record> { m.answers + m.authority + m.additional }

  function StartOf(compress: bool): Filing { Filing(if compress then Some(map[]) else None, map[]) }

  /** The steps each record's names take. */
  function MessageSteps(m: Message, compress: bool): seq<RecordSteps> {
    var f := StartOf(compress);
    AllRecordSteps(AfterQuestions(f, 12, m.questions), 12 + |WriteQuestions(f.names, 12, m.questions).bytes|, Records(m))
  }

  /** No question or record name needs more steps than the reader takes. */
  predicate Readable(m: Message, compress: bool) {
    AllWithin(QuestionSteps(StartOf(compress), 12, m.questions)) && NamesWithin(MessageSteps(m, compress))
  }

  ghost predicate SameMessage(r: Message, m: Message, steps: seq<RecordSteps>, exact: bool) {
    && r.id == m.id && r.flags == m.flags && SameQuestions(r.questions, m.questions, exact)
    && |r.answers| == |m.answers| && |r.authority| == |m.authority| && |r.additional| == |m.additional|
    && SameRecords(Records(r), Records(m), steps, exact)
  }

  /** The three sections are read as one list. */
  lemma ParseIsOneList(p: bytes, qs: ReadQuestions, a: nat, b: nat, c: nat)
    requires |p| >= 12 && QuestionsAt(p, 12, ReadBe16(p, 4)) == Some(qs)
    requires ReadBe16(p, 6) == a && ReadBe16(p, 8) == b && ReadBe16(p, 10) == c
    ensures Parse(p).Some? <==> RecordsAt(p, qs.next, a + b + c).Some?
    ensures Parse(p).Some? ==>
              var r := Parse(p).value;
              && r.id == ReadBe16(p, 0) && r.flags == ParseFlags(ReadBe16(p, 2)) && r.questions == qs.questions
              && |r.answers| == a && |r.authority| == b && |r.additional| == c
              && Records(r) == RecordsAt(p, qs.next, a + b + c).value.records
  {
    hide QuestionsAt, RecordsAt, ReadBe16, ParseFlags;
    RecordsAtSplit(p, qs.next, a + b, c);
    RecordsAtSplit(p, qs.next, a, b);
    if RecordsAt(p, qs.next, a).Some? {
      var first := RecordsAt(p, qs.next, a).value.next;
      RecordsAtSplit(p, first, b, 0);
      if RecordsAt(p, first, b).Some? { RecordsAtSplit(p, RecordsAt(p, first, b).value.next, c, 0); }
    }
  }

  /**
   * Whatever the names, a packed message is parsed exactly when each question and record name takes at most 128 steps:
   * one a label, one a pointer and one for the end. Then the header fields, all questions, the section counts and the
   * pointer records come back, names equal up to the case of ASCII letters - exactly equal when suffixes are not
   * shared; a pointer record whose target takes more steps leaves a placeholder, as other records do.
   */
  lemma PackParses(m: Message, compress: bool)
    requires MessageShaped(m)
    ensures Parse(Pack(m, compress)).Some? <==> Readable(m, compress)
    ensures Readable(m, compress) ==> SameMessage(Parse(Pack(m, compress)).value, m, MessageSteps(m, compress), !compress)
    ensures NamesBounded(m, compress)
  {
    hide WriteHeader, WriteQuestions, WriteRecords, FileOk, QuestionsAt, RecordsAt, ReadBe16, FlagWord, ParseFlags,
      SameQuestions, SameRecords, RecordShaped, NameShaped, QuestionSteps, AllRecordSteps, AfterQuestions, AllWithin,
      NamesWithin, StepsBounded, RecordStepsBounded;
    var p := Pack(m, compress);
    var f := StartOf(compress);
    var head := WriteHeader(m);
    var questions := WriteQuestions(f.names, 12, m.questions);
    var records := WriteRecords(questions.names, 12 + |questions.bytes|, Records(m));
    assert FileOk(head, f) by { EmptyFile(head, compress); }
    assert p == head + (questions.bytes + records.bytes);
    assert p == head + questions.bytes + records.bytes;
    HeaderReads(m, p, questions.bytes + records.bytes);
    FlagsInvert(m.flags);
    QuestionsFiled(head, f, m.questions);
    QuestionsInPacket(p, head, f, m.questions, records.bytes, 12 + |questions.bytes|);
    RecordsInPacket(p, head + questions.bytes, AfterQuestions(f, 12, m.questions), Records(m));
    if QuestionsAt(p, 12, |m.questions|).Some? {
      ParseIsOneList(p, QuestionsAt(p, 12, |m.questions|).value, |m.answers|, |m.authority|, |m.additional|);
    }
  }

  lemma EmptyFile(d: bytes, compress: bool)
    ensures FileOk(d, StartOf(compress))
  {}

  ghost predicate NamesBounded(m: Message, compress: bool) {
    var q, r := QuestionSteps(StartOf(compress), 12, m.questions), MessageSteps(m, compress);
    && (forall i | 0 <= i < |m.questions| :: StepsBounded(q[i], m.questions[i].name, compress))
    && |r| == |Records(m)|
    && (forall i | 0 <= i < |Records(m)| :: RecordStepsBounded(r[i], Records(m)[i], compress))
  }

  /** Few enough labels whatever was written before: 63 when suffixes are shared, 127 when not. */
  predicate FewLabels(name: bytes, shared: bool) { |Labels(name)| <= if shared then 63 else 127 }

  ghost predicate ShortNames(m: Message, shared: bool) {
    && (forall q | q in m.questions :: FewLabels(q.name, shared))
    && (forall r | r in Records(m) :: FewLabels(r.name, shared) && (r.data.Ptr? ==> FewLabels(r.data.target, shared)))
  }

  /** With few enough labels in every name, every message comes back, and every pointer record with it. */
  lemma ShortNamesParse(m: Message, compress: bool)
    requires MessageShaped(m) && ShortNames(m, compress)
    ensures Parse(Pack(m, compress)).Some?
    ensures SameMessage(Parse(Pack(m, compress)).value, m, MessageSteps(m, compress), !compress)
    ensures forall i | 0 <= i < |Records(m)| :: MessageSteps(m, compress)[i].target <= STEP_LIMIT || !Records(m)[i].data.Ptr?
  {
    hide Parse, Pack, SameMessage, MessageShaped, QuestionSteps, AllRecordSteps, MessageSteps, Labels;
    PackParses(m, compress);
    var q, r := QuestionSteps(StartOf(compress), 12, m.questions), MessageSteps(m, compress);
    forall i | 0 <= i < |q| ensures q[i] <= STEP_LIMIT { assert m.questions[i] in m.questions; }
    forall i | 0 <= i < |r| ensures r[i].name <= STEP_LIMIT && (Records(m)[i].data.Ptr? ==> r[i].target <= STEP_LIMIT) {
      assert Records(m)[i] in Records(m);
    }
  }
}
