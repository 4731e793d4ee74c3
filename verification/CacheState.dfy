/** The cache's registry of torrents: recency, pins, byte counts and the choice of torrents to evict. */
module CacheState {
  import opened Bytes
  import opened CacheExtents
  import opened CacheLayout
  import opened Sums

  type InfoHash = bytes

  datatype ReaderRange = ReaderRange(file: u32, start: u64, end: u64)

  datatype Reader = Reader(id: nat, range: ReaderRange)

  datatype Entry = Entry(
    layout: Layout, pieces: seq<bool>, stored: nat, pins: nat, readers: seq<Reader>, demanded: seq<Span>, lastRead: nat)

  /** Everything the lock protects, the pin counter and the cap. */
  datatype State = State(tick: nat, nextPin: nat, cap: nat, torrents: map<InfoHash, Entry>)

  /** What a store proves it kept from an earlier process. */
  datatype Recovered = Recovered(stored: nat, completed: seq<u32>)

  datatype Outcome<+T> = Outcome(state: State, result: Result<T>)

  // ----- the critical sections, as functions -----

  function Ticked(s: State): State { s.(tick := s.tick + 1) }

  function WithEntry(s: State, t: InfoHash, e: Entry): State { s.(torrents := s.torrents[t := e]) }

  /** Recovered pieces marked one by one; an index out of range is an error. */
  function MarkRecovered(completed: seq<u32>, count: nat): (r: Option<seq<bool>>)
    ensures r.Some? ==> |r.value| == count
  {
    if completed == [] then Some(seq(count, _ => false)) else
    match MarkRecovered(completed[..|completed| - 1], count)
    case None => None
    case Some(marked) =>
      var p := completed[|completed| - 1];
      if p < count then Some(marked[p := true]) else None
  }

  lemma {:induction false} MarkingStops(completed: seq<u32>, count: nat, n: nat)
    requires n <= |completed| && MarkRecovered(completed[..n], count).None?
    ensures MarkRecovered(completed, count).None?
    decreases |completed|
  {
    if n == |completed| {
      assert completed[..n] == completed;
    } else {
      assert completed[..|completed| - 1][..n] == completed[..n];
      MarkingStops(completed[..|completed| - 1], count, n);
    }
  }

  function OpenEntry(s: State, t: InfoHash, layout: Layout, recovered: Result<Recovered>): Outcome<()> {
    if t in s.torrents then
      Outcome(s, if s.torrents[t].layout == layout then Ok(()) else Err(LayoutMismatch))
    else
      match recovered
      case Err(e) => Outcome(s, Err(e))
      case Ok(r) =>
        match MarkRecovered(r.completed, layout.pieceCount)
        case None => Outcome(Ticked(s), Err(PieceOutOfRange))
        case Some(pieces) =>
          Outcome(WithEntry(Ticked(s), t, Entry(layout, pieces, r.stored, 0, [], [], s.tick + 1)), Ok(()))
  }

  function FinishWrite(s: State, t: InfoHash, added: nat): State {
    if t !in s.torrents then s else
    WithEntry(s, t, s.torrents[t].(stored := s.torrents[t].stored + added))
  }

  /** The clock moves even when the torrent is unknown. */
  function MarkRead(s: State, t: InfoHash): Outcome<()> {
    if t !in s.torrents then Outcome(Ticked(s), Err(UnknownTorrent)) else
    Outcome(WithEntry(Ticked(s), t, s.torrents[t].(lastRead := s.tick + 1)), Ok(()))
  }

  /** The pin counter moves even when the torrent is unknown. */
  function PinEntry(s: State, t: InfoHash, range: Option<ReaderRange>): Outcome<nat> {
    var s1 := s.(nextPin := s.nextPin + 1);
    if t !in s.torrents then Outcome(s1, Err(UnknownTorrent)) else
    var e := s.torrents[t];
    var readers := match range case None => e.readers case Some(r) => e.readers + [Reader(s.nextPin, r)];
    Outcome(WithEntry(s1, t, e.(pins := e.pins + 1, readers := readers)), Ok(s.nextPin))
  }

  function Retained(readers: seq<Reader>, id: nat): (r: seq<Reader>)
    ensures forall x :: x in r <==> x in readers && x.id != id
  {
    if readers == [] then [] else
    (if readers[0].id == id then [] else [readers[0]]) + Retained(readers[1..], id)
  }

  /** `Pin::drop`; taking one from no pins would wrap around, which `Max` hides here and is proved never to happen. */
  function DropPin(s: State, t: InfoHash, id: nat): State {
    if t !in s.torrents then Ticked(s) else
    var e := s.torrents[t];
    WithEntry(Ticked(s), t, e.(pins := Max(e.pins - 1, 0), readers := Retained(e.readers, id), lastRead := s.tick + 1))
  }

  /** `storeFailed` is the store's own error. */
  function RemoveEntry(s: State, t: InfoHash, storeFailed: bool): Outcome<nat> {
    if t !in s.torrents then Outcome(s, Err(UnknownTorrent)) else
    if s.torrents[t].pins > 0 then Outcome(s, Err(Pinned)) else
    if storeFailed then Outcome(s, Err(StoreFailed)) else
    Outcome(s.(torrents := s.torrents - {t}), Ok(s.torrents[t].stored))
  }

  function CompletePiece(s: State, t: InfoHash, piece: u32): Outcome<()> {
    if t !in s.torrents then Outcome(s, Err(UnknownTorrent)) else
    var e := s.torrents[t];
    if piece as int >= |e.pieces| then Outcome(s, Err(PieceOutOfRange)) else
    Outcome(WithEntry(s, t, e.(pieces := e.pieces[piece := true])), Ok(()))
  }

  function Demand(s: State, t: InfoHash, file: u32, offset: u64, length: u64): Outcome<()> {
    if t !in s.torrents then Outcome(s, Err(UnknownTorrent)) else
    var e := s.torrents[t];
    match DemandSpan(e.layout, file, offset, length)
    case Err(error) => Outcome(s, Err(error))
    case Ok(span) => Outcome(WithEntry(s, t, e.(demanded := Joined(e.demanded, span))), Ok(()))
  }

  // ----- eviction -----

  /** Torrents that hold something and that nobody watches. */
  function Idle(s: State): set<InfoHash> {
    set t | t in s.torrents && s.torrents[t].pins == 0 && s.torrents[t].stored > 0
  }

  ghost function StoredOf(s: State): InfoHash -> nat {
    t => if t in s.torrents then s.torrents[t].stored else 0
  }

  /** Bytes stored for some of the torrents. */
  ghost function StoredIn(s: State, some: set<InfoHash>): nat { SumOf(some, StoredOf(s)) }

  function Elements<T>(xs: seq<T>): set<T> { set x | x in xs }

  ghost predicate Distinct<T(!new)>(xs: seq<T>) { forall i, j | 0 <= i < j < |xs| :: xs[i] != xs[j] }

  /** Never read at the same time: recency is a total order. */
  ghost predicate DistinctTicks(s: State) {
    forall t, u | t in s.torrents && u in s.torrents && t != u :: s.torrents[t].lastRead != s.torrents[u].lastRead
  }

  ghost predicate SortedByRead(s: State, xs: seq<InfoHash>) {
    && (forall t | t in xs :: t in s.torrents)
    && (forall i, j | 0 <= i < j < |xs| :: s.torrents[xs[i]].lastRead <= s.torrents[xs[j]].lastRead)
  }

  /**
   * The victims are the least recently read of the idle torrents; without them the cache is at its cap or nothing
   * idle is left, and without any but the last it is still over.
   */
  ghost predicate Evicts(s: State, victims: seq<InfoHash>) {
    && Distinct(victims) && SortedByRead(s, victims) && Elements(victims) <= Idle(s)
    && (forall v, t | v in victims && t in Idle(s) && t !in victims :: s.torrents[v].lastRead <= s.torrents[t].lastRead)
    && (StoredIn(s, s.torrents.Keys - Elements(victims)) <= s.cap || Elements(victims) == Idle(s))
    && (victims != [] ==> StoredIn(s, s.torrents.Keys - Elements(victims[..|victims| - 1])) > s.cap)
  }

  class Cache {
    var tick: nat
    var nextPin: nat
    var capBytes: nat
    var torrents: map<InfoHash, Entry>

    function View(): State
      reads this
    {
      State(tick, nextPin, capBytes, torrents)
    }

    constructor (capBytes: nat)
      ensures View() == State(0, 1, capBytes, map[])
    {
      this.capBytes := capBytes;
      tick, nextPin, torrents := 0, 1, map[];
    }

    method NextTick() returns (t: nat)
      modifies this`tick
      ensures tick == old(tick) + 1 == t
    {
      tick := tick + 1;
      t := tick;
    }

    /** Attaches to a torrent already open with the same layout, or registers it with what its store recovered. */
    method Open(torrent: InfoHash, layout: Layout, recovered: Result<Recovered>) returns (r: Result<()>)
      modifies this`tick, this`torrents
      ensures Outcome(View(), r) == OpenEntry(old(View()), torrent, layout, recovered)
    {
      if torrent in torrents {
        return if torrents[torrent].layout == layout then Ok(()) else Err(LayoutMismatch);
      }
      if recovered.Err? { return Err(recovered.error); }
      var lastRead := NextTick();
      var pieces: seq<bool> := seq(layout.pieceCount as int, _ => false);
      var completed := recovered.value.completed;
      for i := 0 to |completed|
        invariant |pieces| == layout.pieceCount as int && MarkRecovered(completed[..i], layout.pieceCount) == Some(pieces)
      {
        assert completed[..i + 1][..i] == completed[..i];
        if completed[i] >= layout.pieceCount {
          MarkingStops(completed, layout.pieceCount, i + 1);
          return Err(PieceOutOfRange);
        }
        pieces := pieces[completed[i] := true];
      }
      assert completed[..|completed|] == completed;
      torrents := torrents[torrent := Entry(layout, pieces, recovered.value.stored, 0, [], [], lastRead)];
      return Ok(());
    }

    /** The second critical section of `write`, after the store took the bytes. */
    method AddStored(torrent: InfoHash, added: nat)
      modifies this`torrents
      ensures View() == FinishWrite(old(View()), torrent, added)
    {
      if torrent in torrents {
        torrents := torrents[torrent := torrents[torrent].(stored := torrents[torrent].stored + added)];
      }
    }

    /** The critical section of `read`, before the store is asked. */
    method Touch(torrent: InfoHash) returns (r: Result<()>)
      modifies this`tick, this`torrents
      ensures Outcome(View(), r) == MarkRead(old(View()), torrent)
    {
      var now := NextTick();
      if torrent !in torrents { return Err(UnknownTorrent); }
      torrents := torrents[torrent := torrents[torrent].(lastRead := now)];
      return Ok(());
    }

    method Pin(torrent: InfoHash, range: Option<ReaderRange>) returns (r: Result<nat>)
      modifies this`nextPin, this`torrents
      ensures Outcome(View(), r) == PinEntry(old(View()), torrent, range)
    {
      var id := nextPin;
      nextPin := nextPin + 1;
      if torrent !in torrents { return Err(UnknownTorrent); }
      var e := torrents[torrent];
      e := e.(pins := e.pins + 1);
      if range.Some? { e := e.(readers := e.readers + [Reader(id, range.value)]); }
      torrents := torrents[torrent := e];
      return Ok(id);
    }

    /** Dropping a pin; the count is never zero here while the pin is alive. */
    method Unpin(torrent: InfoHash, id: nat)
      requires torrent in torrents ==> torrents[torrent].pins > 0
      modifies this`tick, this`torrents
      ensures View() == DropPin(old(View()), torrent, id)
    {
      var now := NextTick();
      if torrent in torrents {
        var e := torrents[torrent];
        var kept := Retain(e.readers, id);
        torrents := torrents[torrent := e.(pins := e.pins - 1, readers := kept, lastRead := now)];
      }
    }

    static method Retain(readers: seq<Reader>, id: nat) returns (kept: seq<Reader>)
      ensures kept == Retained(readers, id)
    {
      hide Retained;
      kept := [];
      assert readers[0..] == readers && readers[|readers|..] == [];
      NothingRetained(id);
      for i := 0 to |readers|
        invariant Retained(readers, id) == kept + Retained(readers[i..], id)
      {
        RetainedNext(readers, i, id);
        if readers[i].id != id { kept := kept + [readers[i]]; }
      }
    }

    method Remove(torrent: InfoHash, storeFailed: bool) returns (r: Result<nat>)
      modifies this`torrents
      ensures Outcome(View(), r) == RemoveEntry(old(View()), torrent, storeFailed)
    {
      if torrent !in torrents { return Err(UnknownTorrent); }
      if torrents[torrent].pins > 0 { return Err(Pinned); }
      if storeFailed { return Err(StoreFailed); }
      var freed := torrents[torrent].stored;
      torrents := torrents - {torrent};
      return Ok(freed);
    }

    /** The bytes stored for all torrents, as `stats` reports them. */
    method StoredBytes() returns (stored: nat)
      ensures stored == StoredIn(View(), torrents.Keys)
    {
      stored := 0;
      var left := torrents.Keys;
      while left != {}
        invariant left <= torrents.Keys && stored + StoredIn(View(), left) == StoredIn(View(), torrents.Keys)
        decreases |left|
      {
        var t :| t in left;
        SumTakes(left, StoredOf(View()), t);
        stored := stored + torrents[t].stored;
        left := left - {t};
      }
    }

    /** The idle torrents, least recently read first. */
    method IdleByRead() returns (idle: seq<InfoHash>)
      ensures Elements(idle) == Idle(View()) && Distinct(idle) && SortedByRead(View(), idle)
    {
      idle := [];
      var left := Idle(View());
      while left != {}
        invariant left <= Idle(View()) && Elements(idle) == Idle(View()) - left
        invariant Distinct(idle) && SortedByRead(View(), idle)
        decreases |left|
      {
        var t :| t in left;
        assert t !in Elements(idle);
        idle := Place(idle, t);
        left := left - {t};
      }
    }

    /** `t` put behind every torrent read no later. */
    method Place(idle: seq<InfoHash>, t: InfoHash) returns (r: seq<InfoHash>)
      requires Distinct(idle) && SortedByRead(View(), idle) && t !in idle && t in torrents
      ensures Elements(r) == Elements(idle) + {t} && Distinct(r) && SortedByRead(View(), r)
    {
      var at := 0;
      while at < |idle| && torrents[idle[at]].lastRead <= torrents[t].lastRead
        invariant at <= |idle|
        invariant forall i | 0 <= i < at :: torrents[idle[i]].lastRead <= torrents[t].lastRead
      {
        at := at + 1;
      }
      r := idle[..at] + [t] + idle[at..];
      PlacedElements(idle, at, t);
      PlacedSorted(View(), idle, at, t);
    }

    /** `eviction_candidates`. */
    method EvictionCandidates() returns (victims: seq<InfoHash>)
      ensures Evicts(View(), victims)
    {
      var stored := StoredBytes();
      var excess := Max(stored - capBytes, 0);
      var idle := IdleByRead();
      victims := [];
      assert torrents.Keys - Elements([]) == torrents.Keys;
      while |victims| < |idle| && excess != 0
        invariant |victims| <= |idle| && victims == idle[..|victims|]
        invariant excess == Max(StoredIn(View(), torrents.Keys - Elements(victims)) - capBytes, 0)
        invariant victims != [] ==> StoredIn(View(), torrents.Keys - Elements(victims[..|victims| - 1])) > capBytes
        decreases |idle| - |victims|
      {
        var t := idle[|victims|];
        NextVictim(View(), idle, |victims|);
        assert (victims + [t])[..|victims|] == victims;
        victims := victims + [t];
        excess := Max(excess - torrents[t].stored, 0);
      }
      VictimsAreFirst(View(), idle, |victims|);
    }
  }

  lemma NothingRetained(id: nat)
    ensures Retained([], id) == []
  {}

  lemma RetainedNext(readers: seq<Reader>, i: nat, id: nat)
    requires i < |readers|
    ensures Retained(readers[i..], id) == (if readers[i].id != id then [readers[i]] else []) + Retained(readers[i + 1..], id)
  {
    assert readers[i..][1..] == readers[i + 1..];
  }

  // ----- what eviction rests on -----

  lemma PlacedElements(idle: seq<InfoHash>, at: nat, t: InfoHash)
    requires at <= |idle| && Distinct(idle) && t !in idle
    ensures var r := idle[..at] + [t] + idle[at..];
            Elements(r) == Elements(idle) + {t} && Distinct(r)
  {
    var r := idle[..at] + [t] + idle[at..];
    assert idle == idle[..at] + idle[at..];
    assert forall x :: x in r <==> x in idle[..at] || x == t || x in idle[at..];
    assert forall x :: x in idle <==> x in idle[..at] || x in idle[at..];
    forall i, j | 0 <= i < j < |r| ensures r[i] != r[j] {
      assert r[i] == if i < at then idle[i] else if i == at then t else idle[i - 1];
      assert r[j] == if j < at then idle[j] else if j == at then t else idle[j - 1];
    }
  }

  lemma PlacedSorted(s: State, idle: seq<InfoHash>, at: nat, t: InfoHash)
    requires at <= |idle| && SortedByRead(s, idle) && t in s.torrents
    requires forall i | 0 <= i < at :: s.torrents[idle[i]].lastRead <= s.torrents[t].lastRead
    requires at < |idle| ==> s.torrents[t].lastRead < s.torrents[idle[at]].lastRead
    ensures SortedByRead(s, idle[..at] + [t] + idle[at..])
  {
    var r := idle[..at] + [t] + idle[at..];
    forall i | 0 <= i < |r| ensures r[i] == if i < at then idle[i] else if i == at then t else idle[i - 1] {}
    forall i, j | 0 <= i < j < |r| ensures s.torrents[r[i]].lastRead <= s.torrents[r[j]].lastRead {
      if i == at {
        assert s.torrents[idle[at]].lastRead <= s.torrents[idle[j - 1]].lastRead;
      }
    }
  }

  lemma NextVictim(s: State, idle: seq<InfoHash>, n: nat)
    requires n < |idle| && Distinct(idle) && Elements(idle) == Idle(s)
    ensures var left := s.torrents.Keys - Elements(idle[..n]);
            idle[n] in left && left - {idle[n]} == s.torrents.Keys - Elements(idle[..n] + [idle[n]])
            && StoredIn(s, left) == s.torrents[idle[n]].stored + StoredIn(s, left - {idle[n]})
  {
    assert idle[n] in idle && idle[n] in Elements(idle);
    assert idle[n] !in idle[..n];
    SumTakes(s.torrents.Keys - Elements(idle[..n]), StoredOf(s), idle[n]);
    assert forall x :: x in idle[..n] + [idle[n]] <==> x in idle[..n] || x == idle[n];
  }

  lemma VictimsAreFirst(s: State, idle: seq<InfoHash>, n: nat)
    requires n <= |idle| && Distinct(idle) && SortedByRead(s, idle) && Elements(idle) == Idle(s)
    ensures Distinct(idle[..n]) && SortedByRead(s, idle[..n]) && Elements(idle[..n]) <= Idle(s)
    ensures forall v, t | v in idle[..n] && t in Idle(s) && t !in idle[..n] :: s.torrents[v].lastRead <= s.torrents[t].lastRead
    ensures n == |idle| ==> Elements(idle[..n]) == Idle(s)
  {
    assert forall x | x in idle[..n] :: x in idle;
    forall v, t | v in idle[..n] && t in Idle(s) && t !in idle[..n]
      ensures s.torrents[v].lastRead <= s.torrents[t].lastRead
    {
      assert t in Elements(idle);
      var i :| 0 <= i < n && idle[i] == v;
      var j :| 0 <= j < |idle| && idle[j] == t;
      assert forall k | 0 <= k < n :: idle[k] in idle[..n];
    }
    if n == |idle| { assert idle[..n] == idle; }
  }
}
