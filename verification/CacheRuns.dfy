/**
 * The cache and its store as interleaved steps, with the store's own work outside the cache's lock: byte counts,
 * pins and recency at every step of every run. A write never overlaps a remove of its torrent.
 */
module CacheRuns {
  import opened Bytes
  import opened CacheExtents
  import opened CacheLayout
  import opened CacheState
  import opened Sums

  /** The bytes a store holds of each file; `unreported` counts those whose write failed after they were recorded. */
  datatype Holding = Holding(files: seq<set<nat>>, unreported: nat)

  /** A write between its two critical sections; `added` is the store's answer. */
  datatype Flight = Flight(torrent: InfoHash, file: u32, offset: u64, length: u64, added: Option<nat>)

  datatype LivePin = LivePin(torrent: InfoHash, range: Option<ReaderRange>)

  /** `lost` keeps what a store held of a torrent when it forgot it in a remove that failed. */
  datatype World = World(
    state: State, held: map<InfoHash, Holding>, lost: map<InfoHash, Holding>, flights: map<nat, Flight>, pins: map<nat, LivePin>)

  datatype OpenAnswer = OpenFails(error: Error) | Opens(files: seq<set<nat>>, completed: seq<u32>)

  datatype WriteAnswer = Taken | Refused | TakenButFails

  datatype RemoveAnswer = Removed | FailsKeeping | FailsForgetting

  datatype Step =
    | Open(t: InfoHash, layout: Layout, found: OpenAnswer)
    | BeginWrite(w: nat, t: InfoHash, file: u32, offset: u64, length: u64)
    | StoreWrite(w: nat, written: WriteAnswer)
    | EndWrite(w: nat)
    | Read(t: InfoHash)
    | Pin(t: InfoHash, range: Option<ReaderRange>)
    | Unpin(id: nat)
    | Remove(t: InfoHash, removed: RemoveAnswer)
    | PieceDone(t: InfoHash, piece: u32)
    | RecordDemand(t: InfoHash, file: u32, offset: u64, length: u64)
    | SetCap(cap: nat)

  function NewWorld(cap: nat): World { World(State(0, 1, cap, map[]), map[], map[], map[], map[]) }

  // ----- counting -----

  function Sizes(files: seq<set<nat>>): nat {
    if files == [] then 0 else Sizes(files[..|files| - 1]) + |files[|files| - 1]|
  }

  lemma {:induction false} SizesUpdate(files: seq<set<nat>>, i: nat, more: set<nat>)
    requires i < |files|
    ensures Sizes(files[i := files[i] + more]) == Sizes(files) + |more - files[i]|
  {
    var n := |files| - 1;
    var changed := files[i := files[i] + more];
    if i == n {
      assert changed[..n] == files[..n];
      assert files[i] + more == files[i] + (more - files[i]);
    } else {
      SizesUpdate(files[..n], i, more);
      assert changed[..n] == files[..n][i := files[..n][i] + more];
    }
  }

  function Added(flights: map<nat, Flight>, t: InfoHash, w: nat): nat {
    if w in flights && flights[w].torrent == t && flights[w].added.Some? then flights[w].added.value else 0
  }

  ghost function AddedOn(flights: map<nat, Flight>, t: InfoHash): nat -> nat { w => Added(flights, t, w) }

  /** Bytes the store took for a torrent that the cache has not counted yet. */
  ghost function Flying(flights: map<nat, Flight>, t: InfoHash): nat { SumOf(flights.Keys, AddedOn(flights, t)) }

  lemma FlightStarts(flights: map<nat, Flight>, w: nat, f: Flight, t: InfoHash)
    requires w !in flights && f.added.None?
    ensures Flying(flights[w := f], t) == Flying(flights, t)
  {
    var more := flights[w := f];
    SumSame(flights.Keys, AddedOn(flights, t), AddedOn(more, t));
    SumAdds(flights.Keys, AddedOn(more, t), w);
    assert more.Keys == flights.Keys + {w};
  }

  lemma FlightTakes(flights: map<nat, Flight>, w: nat, added: nat, t: InfoHash)
    requires w in flights && flights[w].added.None?
    ensures var g := flights[w := flights[w].(added := Some(added))];
            Flying(g, t) == Flying(flights, t) + if flights[w].torrent == t then added else 0
  {
    var g := flights[w := flights[w].(added := Some(added))];
    assert g.Keys == flights.Keys;
    SumChanges(flights.Keys, AddedOn(flights, t), AddedOn(g, t), w);
  }

  lemma FlightEnds(flights: map<nat, Flight>, w: nat, t: InfoHash)
    requires w in flights
    ensures Flying(flights, t) == Added(flights, t, w) + Flying(flights - {w}, t)
  {
    var g := flights - {w};
    assert g.Keys == flights.Keys - {w};
    SumTakes(flights.Keys, AddedOn(flights, t), w);
    SumSame(g.Keys, AddedOn(flights, t), AddedOn(g, t));
  }

  /** The live pins on a torrent. */
  function PinsOn(pins: map<nat, LivePin>, t: InfoHash): set<nat> { set id | id in pins && pins[id].torrent == t }

  // ----- steps -----

  /** What the store did with the bytes of a write, when it can be asked at all. */
  function Take(w: World, f: Flight): Option<(map<InfoHash, Holding>, nat)> {
    if f.torrent !in w.held || f.torrent !in w.state.torrents then None else
    var h := w.held[f.torrent];
    if CheckRange(w.state.torrents[f.torrent].layout, f.file, f.offset, f.length).Err? || f.file as int >= |h.files| then None else
    var more := Below(f.offset, f.offset as int + f.length as int);
    Some((w.held[f.torrent := h.(files := h.files[f.file := h.files[f.file] + more])], |more - h.files[f.file]|))
  }

  function OpenStep(w: World, t: InfoHash, layout: Layout, found: OpenAnswer): Option<World> {
    if t in w.state.torrents then Some(w) else
    match found
    case OpenFails(e) => Some(w.(state := OpenEntry(w.state, t, layout, Err(e)).state, held := w.held - {t}, lost := w.lost - {t}))
    case Opens(files, completed) =>
      if |files| != |layout.fileLengths| || !Shaped(layout) then None else
      Some(w.(state := OpenEntry(w.state, t, layout, Ok(Recovered(Sizes(files), completed))).state,
              held := w.held[t := Holding(files, 0)], lost := w.lost - {t}))
  }

  function StoreStep(w: World, id: nat, written: WriteAnswer): Option<World> {
    if id !in w.flights || w.flights[id].added.Some? then None else
    var f := w.flights[id];
    if written.Refused? then Some(w.(flights := w.flights - {id})) else
    match Take(w, f)
    case None => None
    case Some((held, added)) =>
      if written.Taken? then Some(w.(held := held, flights := w.flights[id := f.(added := Some(added))])) else
      Some(w.(held := held[f.torrent := held[f.torrent].(unreported := held[f.torrent].unreported + added)],
              flights := w.flights - {id}))
  }

  function RemoveStep(w: World, t: InfoHash, removed: RemoveAnswer): Option<World> {
    if exists id :: id in w.flights && w.flights[id].torrent == t then None else
    var state := RemoveEntry(w.state, t, !removed.Removed?).state;
    if t !in w.state.torrents || w.state.torrents[t].pins > 0 then Some(w.(state := state)) else
    match removed
    case FailsKeeping => Some(w.(state := state))
    case Removed => Some(w.(state := state, held := w.held - {t}, lost := w.lost - {t}))
    case FailsForgetting =>
      Some(w.(state := state, held := w.held - {t}, lost := if t in w.held then w.lost[t := w.held[t]] else w.lost))
  }

  function PinStep(w: World, t: InfoHash, range: Option<ReaderRange>): World {
    var p := PinEntry(w.state, t, range);
    w.(state := p.state, pins := if p.result.Ok? then w.pins[p.result.value := LivePin(t, range)] else w.pins)
  }

  function UnpinStep(w: World, id: nat): Option<World> {
    if id !in w.pins then None else
    Some(w.(state := DropPin(w.state, w.pins[id].torrent, id), pins := w.pins - {id}))
  }

  function Next(w: World, step: Step): Option<World> {
    match step
    case Open(t, layout, found) => OpenStep(w, t, layout, found)
    case BeginWrite(id, t, file, offset, length) =>
      if id in w.flights then None else
      if t !in w.state.torrents then Some(w) else
      Some(w.(flights := w.flights[id := Flight(t, file, offset, length, None)]))
    case StoreWrite(id, written) => StoreStep(w, id, written)
    case EndWrite(id) =>
      if id !in w.flights || w.flights[id].added.None? then None else
      Some(w.(state := FinishWrite(w.state, w.flights[id].torrent, w.flights[id].added.value), flights := w.flights - {id}))
    case Read(t) => Some(w.(state := MarkRead(w.state, t).state))
    case Pin(t, range) => Some(PinStep(w, t, range))
    case Unpin(id) => UnpinStep(w, id)
    case Remove(t, removed) => RemoveStep(w, t, removed)
    case PieceDone(t, piece) => Some(w.(state := CompletePiece(w.state, t, piece).state))
    case RecordDemand(t, file, offset, length) => Some(w.(state := Demand(w.state, t, file, offset, length).state))
    case SetCap(cap) => Some(w.(state := w.state.(cap := cap)))
  }

  // ----- what holds at every step -----

  /** What the store holds of a torrent, or held when it forgot it. */
  function Known(w: World, t: InfoHash): Option<Holding> {
    if t in w.held then Some(w.held[t]) else if t in w.lost then Some(w.lost[t]) else None
  }

  /** Stored, not yet counted and never reported bytes together are what the store holds, or held when it forgot them. */
  ghost predicate BytesOk(w: World) {
    && (forall id | id in w.flights :: w.flights[id].torrent in w.state.torrents)
    && (forall t | t in w.state.torrents ::
          Known(w, t).Some? && w.state.torrents[t].stored + Flying(w.flights, t) + Known(w, t).value.unreported
                               == Sizes(Known(w, t).value.files))
  }

  /** Recency ticks are all different and none lies ahead of the clock. */
  ghost predicate TicksOk(s: State) {
    DistinctTicks(s) && forall t | t in s.torrents :: s.torrents[t].lastRead <= s.tick
  }

  /** The readers of an entry are exactly the live pins on it that have a range. */
  ghost predicate ReadersOk(t: InfoHash, readers: seq<Reader>, pins: map<nat, LivePin>) {
    && (forall r | r in readers :: r.id in pins && pins[r.id] == LivePin(t, Some(r.range)))
    && (forall id | id in pins && pins[id].torrent == t && pins[id].range.Some? :: Reader(id, pins[id].range.value) in readers)
    && DistinctIds(readers)
  }

  /** Pins and readers of every entry agree with the live pins, all of which are on open torrents. */
  ghost predicate PinsOk(w: World) {
    && (forall id | id in w.pins :: id < w.state.nextPin && w.pins[id].torrent in w.state.torrents)
    && (forall t | t in w.state.torrents ::
          w.state.torrents[t].pins == |PinsOn(w.pins, t)| && ReadersOk(t, w.state.torrents[t].readers, w.pins))
  }

  /** Demanded bytes lie inside the torrent, in canonical spans. */
  ghost predicate DemandsOk(s: State) {
    forall t | t in s.torrents :: DemandOk(s.torrents[t].layout, s.torrents[t].demanded)
  }

  ghost predicate DemandOk(l: Layout, demanded: seq<Span>) {
    Shaped(l) && Canonical(demanded) && Covered(demanded) <= Below(0, l.totalLength)
  }

  ghost predicate Inv(w: World) { BytesOk(w) && TicksOk(w.state) && PinsOk(w) && DemandsOk(w.state) }

  lemma NewWorldOk(cap: nat)
    ensures Inv(NewWorld(cap))
  {}

  // ----- recency -----

  lemma TickTaken(s: State, t: InfoHash, e: Entry)
    requires TicksOk(s) && e.lastRead == s.tick + 1
    ensures TicksOk(WithEntry(Ticked(s), t, e))
  {}

  lemma TicksLeft(s: State, v: State)
    requires TicksOk(s) && v.tick >= s.tick && v.torrents.Keys <= s.torrents.Keys
    requires forall t | t in v.torrents :: v.torrents[t].lastRead == s.torrents[t].lastRead
    ensures TicksOk(v)
  {}

  lemma TicksStep(w: World, step: Step)
    requires TicksOk(w.state) && Next(w, step).Some?
    ensures TicksOk(Next(w, step).value.state)
  {
    hide MarkRecovered, Retained, DemandSpan, Take, Sizes, Joined, TicksOk;
    var s, v := w.state, Next(w, step).value.state;
    match step
    case Open(t, layout, found) =>
      if t in v.torrents && t !in s.torrents { TickTaken(s, t, v.torrents[t]); } else { TicksLeft(s, v); }
    case Read(t) =>
      if t in s.torrents { TickTaken(s, t, v.torrents[t]); } else { TicksLeft(s, v); }
    case Unpin(id) =>
      var t := w.pins[id].torrent;
      if t in s.torrents { TickTaken(s, t, v.torrents[t]); } else { TicksLeft(s, v); }
    case _ => TicksLeft(s, v);
  }

  // ----- byte counts -----

  lemma BytesOpen(w: World, step: Step)
    requires BytesOk(w) && step.Open? && Next(w, step).Some?
    ensures BytesOk(Next(w, step).value)
  {
    hide MarkRecovered, Flying, Sizes;
    if step.t !in w.state.torrents {
      NoFlights(w.flights, step.t);
    }
  }

  lemma NoFlights(flights: map<nat, Flight>, t: InfoHash)
    requires forall id | id in flights :: flights[id].torrent != t
    ensures Flying(flights, t) == 0
  {
    SumZero(flights.Keys, AddedOn(flights, t));
  }

  lemma {:induction false} SumZero(s: set<nat>, f: nat -> nat)
    requires forall x | x in s :: f(x) == 0
    ensures SumOf(s, f) == 0
    decreases |s|
  {
    if s != {} {
      var x :| x in s;
      SumTakes(s, f, x);
      SumZero(s - {x}, f);
    }
  }

  lemma BytesBegin(w: World, step: Step)
    requires BytesOk(w) && step.BeginWrite? && Next(w, step).Some?
    ensures BytesOk(Next(w, step).value)
  {
    hide Flying, Sizes;
    if step.t in w.state.torrents {
      forall t ensures Flying(Next(w, step).value.flights, t) == Flying(w.flights, t) {
        FlightStarts(w.flights, step.w, Flight(step.t, step.file, step.offset, step.length, None), t);
      }
    }
  }

  lemma BytesStore(w: World, id: nat, written: WriteAnswer)
    requires BytesOk(w) && StoreStep(w, id, written).Some?
    ensures BytesOk(StoreStep(w, id, written).value)
  {
    hide Flying, Sizes, Below, CheckRange;
    var f := w.flights[id];
    forall t ensures Flying(w.flights, t) == Flying(w.flights - {id}, t) { FlightEnds(w.flights, id, t); }
    if !written.Refused? {
      var h := w.held[f.torrent];
      var (held, added) := Take(w, f).value;
      SizesUpdate(h.files, f.file, Below(f.offset, f.offset as int + f.length as int));
      forall t ensures Flying(w.flights[id := f.(added := Some(added))], t)
                    == Flying(w.flights, t) + if f.torrent == t then added else 0 {
        FlightTakes(w.flights, id, added, t);
      }
    }
  }

  lemma BytesEnd(w: World, id: nat)
    requires BytesOk(w) && Next(w, EndWrite(id)).Some?
    ensures BytesOk(Next(w, EndWrite(id)).value)
  {
    hide Flying, Sizes;
    forall t ensures Flying(w.flights, t) == Added(w.flights, t, id) + Flying(w.flights - {id}, t) {
      FlightEnds(w.flights, id, t);
    }
  }

  lemma BytesStep(w: World, step: Step)
    requires BytesOk(w) && Next(w, step).Some?
    ensures BytesOk(Next(w, step).value)
  {
    match step
    case Open(_, _, _) => BytesOpen(w, step);
    case BeginWrite(_, _, _, _, _) => BytesBegin(w, step);
    case StoreWrite(id, written) => BytesStore(w, id, written);
    case EndWrite(id) => BytesEnd(w, id);
    case Remove(t, removed) => BytesRemove(w, t, removed);
    case _ => BytesElse(w, step);
  }

  lemma BytesRemove(w: World, t: InfoHash, removed: RemoveAnswer)
    requires BytesOk(w) && RemoveStep(w, t, removed).Some?
    ensures BytesOk(RemoveStep(w, t, removed).value)
  {
    hide Flying, Sizes;
  }

  lemma BytesElse(w: World, step: Step)
    requires BytesOk(w) && Next(w, step).Some?
    requires !step.Open? && !step.BeginWrite? && !step.StoreWrite? && !step.EndWrite? && !step.Remove?
    ensures BytesOk(Next(w, step).value)
  {
    hide Flying, Sizes, Retained, DemandSpan, Joined, OpenStep, StoreStep, RemoveStep;
  }

  // ----- pins -----

  /** A step that leaves pins alone: entries keep their pins and readers, torrents with live pins stay. */
  lemma PinsUntouched(w: World, v: World)
    requires PinsOk(w) && v.pins == w.pins && v.state.nextPin >= w.state.nextPin
    requires forall t | t in v.state.torrents && t in w.state.torrents ::
               v.state.torrents[t].pins == w.state.torrents[t].pins && v.state.torrents[t].readers == w.state.torrents[t].readers
    requires forall t | t in v.state.torrents && t !in w.state.torrents ::
               v.state.torrents[t].pins == 0 && v.state.torrents[t].readers == []
    requires forall t | t in w.state.torrents && t !in v.state.torrents :: w.state.torrents[t].pins == 0
    ensures PinsOk(v)
  {
    hide ReadersOk;
    forall id | id in v.pins ensures v.pins[id].torrent in v.state.torrents {
      var t := w.pins[id].torrent;
      assert id in PinsOn(w.pins, t);
      assert |PinsOn(w.pins, t)| > 0;
    }
    forall t | t in v.state.torrents
      ensures v.state.torrents[t].pins == |PinsOn(v.pins, t)| && ReadersOk(t, v.state.torrents[t].readers, v.pins)
    {
      if t !in w.state.torrents { NoPins(w, t); }
    }
  }

  lemma NoPins(w: World, t: InfoHash)
    requires PinsOk(w) && t !in w.state.torrents
    ensures PinsOn(w.pins, t) == {} && ReadersOk(t, [], w.pins)
  {}

  /** Only the entry of `t` and the pins on it changed. */
  lemma PinsChangedOn(w: World, v: World, t: InfoHash)
    requires PinsOk(w) && t in w.state.torrents && v.state.torrents.Keys == w.state.torrents.Keys
    requires forall u | u in w.state.torrents && u != t :: v.state.torrents[u] == w.state.torrents[u]
    requires forall id | id in v.pins :: id < v.state.nextPin && v.pins[id].torrent in w.state.torrents
    requires forall u | u in w.state.torrents && u != t :: PinsOn(v.pins, u) == PinsOn(w.pins, u)
    requires forall u | u in w.state.torrents && u != t :: ReadersOk(u, w.state.torrents[u].readers, v.pins)
    requires v.state.torrents[t].pins == |PinsOn(v.pins, t)| && ReadersOk(t, v.state.torrents[t].readers, v.pins)
    ensures PinsOk(v)
  {
    hide ReadersOk, PinsOn;
  }

  lemma PinsPin(w: World, t: InfoHash, range: Option<ReaderRange>)
    requires PinsOk(w)
    ensures PinsOk(PinStep(w, t, range))
  {
    hide ReadersOk;
    var v := PinStep(w, t, range);
    var id := w.state.nextPin;
    if t !in w.state.torrents {
      PinsUntouched(w, v);
    } else {
      assert id !in w.pins;
      PinEntersSets(w.pins, id, LivePin(t, range));
      PinJoins(t, w.state.torrents[t].readers, w.pins, id, range);
      forall u | u in w.state.torrents && u != t ensures ReadersOk(u, w.state.torrents[u].readers, v.pins) {
        OtherPinJoins(u, w.state.torrents[u].readers, w.pins, id, LivePin(t, range));
      }
      hide PinsOn;
      PinsChangedOn(w, v, t);
    }
  }

  lemma PinEntersSets(pins: map<nat, LivePin>, id: nat, pin: LivePin)
    requires id !in pins
    ensures forall u | u != pin.torrent :: PinsOn(pins[id := pin], u) == PinsOn(pins, u)
    ensures |PinsOn(pins[id := pin], pin.torrent)| == |PinsOn(pins, pin.torrent)| + 1
  {
    assert PinsOn(pins[id := pin], pin.torrent) == PinsOn(pins, pin.torrent) + {id};
    forall u | u != pin.torrent ensures PinsOn(pins[id := pin], u) == PinsOn(pins, u) {}
  }

  lemma PinLeavesSets(pins: map<nat, LivePin>, id: nat)
    requires id in pins
    ensures forall u | u != pins[id].torrent :: PinsOn(pins - {id}, u) == PinsOn(pins, u)
    ensures |PinsOn(pins - {id}, pins[id].torrent)| == |PinsOn(pins, pins[id].torrent)| - 1
  {
    assert PinsOn(pins, pins[id].torrent) == PinsOn(pins - {id}, pins[id].torrent) + {id};
    forall u | u != pins[id].torrent ensures PinsOn(pins - {id}, u) == PinsOn(pins, u) {}
  }

  lemma OtherPinJoins(u: InfoHash, readers: seq<Reader>, pins: map<nat, LivePin>, id: nat, pin: LivePin)
    requires ReadersOk(u, readers, pins) && id !in pins && pin.torrent != u
    ensures ReadersOk(u, readers, pins[id := pin])
  {}

  lemma PinJoins(t: InfoHash, readers: seq<Reader>, pins: map<nat, LivePin>, id: nat, range: Option<ReaderRange>)
    requires ReadersOk(t, readers, pins) && id !in pins
    ensures ReadersOk(t, match range case None => readers case Some(r) => readers + [Reader(id, r)], pins[id := LivePin(t, range)])
  {
    var more := match range case None => readers case Some(r) => readers + [Reader(id, r)];
    var live := pins[id := LivePin(t, range)];
    forall k | k in live && live[k].torrent == t && live[k].range.Some? ensures Reader(k, live[k].range.value) in more {
      if k == id { assert more[|readers|] == Reader(k, live[k].range.value); }
    }
    forall i, j | 0 <= i < j < |more| ensures more[i].id != more[j].id {
      assert more[i] in readers;
    }
  }

  ghost predicate DistinctIds(readers: seq<Reader>) {
    forall i, j | 0 <= i < j < |readers| :: readers[i].id != readers[j].id
  }

  lemma {:induction false} RetainedDistinct(readers: seq<Reader>, id: nat)
    requires DistinctIds(readers)
    ensures DistinctIds(Retained(readers, id))
  {
    if readers != [] {
      var rest := Retained(readers[1..], id);
      RetainedDistinct(readers[1..], id);
      forall x | x in rest ensures x.id != readers[0].id {
        var k :| 0 <= k < |readers[1..]| && readers[1..][k] == x;
        assert readers[k + 1] == x;
      }
      FirstDistinct(readers[0], rest);
      assert [] + rest == rest;
    }
  }

  lemma FirstDistinct(first: Reader, rest: seq<Reader>)
    requires DistinctIds(rest) && forall x | x in rest :: x.id != first.id
    ensures DistinctIds([first] + rest)
  {
    var all := [first] + rest;
    forall i, j | 0 <= i < j < |all| ensures all[i].id != all[j].id {
      assert all[j] == rest[j - 1] && rest[j - 1] in rest;
      if i > 0 { assert all[i] == rest[i - 1]; }
    }
  }

  lemma PinsUnpin(w: World, id: nat)
    requires PinsOk(w) && id in w.pins
    ensures PinsOk(UnpinStep(w, id).value)
  {
    hide Retained, ReadersOk;
    var v := UnpinStep(w, id).value;
    var t := w.pins[id].torrent;
    PinLeavesSets(w.pins, id);
    PinLeaves(t, w.state.torrents[t].readers, w.pins, id);
    forall u | u in w.state.torrents && u != t ensures ReadersOk(u, w.state.torrents[u].readers, v.pins) {
      OtherPinLeaves(u, w.state.torrents[u].readers, w.pins, id);
    }
    hide PinsOn;
    PinsChangedOn(w, v, t);
  }

  lemma PinLeaves(t: InfoHash, readers: seq<Reader>, pins: map<nat, LivePin>, id: nat)
    requires ReadersOk(t, readers, pins)
    ensures ReadersOk(t, Retained(readers, id), pins - {id})
  {
    RetainedDistinct(readers, id);
  }

  lemma OtherPinLeaves(u: InfoHash, readers: seq<Reader>, pins: map<nat, LivePin>, id: nat)
    requires ReadersOk(u, readers, pins) && id in pins && pins[id].torrent != u
    ensures ReadersOk(u, readers, pins - {id})
  {}

  lemma PinsStep(w: World, step: Step)
    requires PinsOk(w) && Next(w, step).Some?
    ensures PinsOk(Next(w, step).value)
  {
    hide PinsOk;
    match step
    case Pin(t, range) => PinsPin(w, t, range);
    case Unpin(id) => PinsUnpin(w, id);
    case _ => StepLeavesPins(w, step); PinsUntouched(w, Next(w, step).value);
  }

  lemma StepLeavesPins(w: World, step: Step)
    requires Next(w, step).Some? && !step.Pin? && !step.Unpin?
    ensures var v := Next(w, step).value;
            && v.pins == w.pins && v.state.nextPin == w.state.nextPin
            && (forall t | t in v.state.torrents && t in w.state.torrents ::
                  v.state.torrents[t].pins == w.state.torrents[t].pins && v.state.torrents[t].readers == w.state.torrents[t].readers)
            && (forall t | t in v.state.torrents && t !in w.state.torrents ::
                  v.state.torrents[t].pins == 0 && v.state.torrents[t].readers == [])
            && (forall t | t in w.state.torrents && t !in v.state.torrents :: w.state.torrents[t].pins == 0)
  {
    hide MarkRecovered, DemandSpan, Take, Sizes, Joined;
  }

  // ----- demands -----

  lemma DemandGrows(l: Layout, demanded: seq<Span>, file: u32, offset: u64, length: u64)
    requires DemandOk(l, demanded) && DemandSpan(l, file, offset, length).Ok?
    ensures DemandOk(l, Joined(demanded, DemandSpan(l, file, offset, length).value))
  {
    hide Shaped, Canonical, Covered, Joined, DemandSpan, Below, Range;
    DemandInside(l, file, offset, length);
    JoinedIsUnion(demanded, DemandSpan(l, file, offset, length).value);
  }

  lemma NoDemandYet(l: Layout)
    requires Shaped(l)
    ensures DemandOk(l, [])
  {
    hide Shaped;
    assert forall x :: !In(x, []);
  }

  lemma DemandsStep(w: World, step: Step)
    requires DemandsOk(w.state) && Next(w, step).Some?
    ensures DemandsOk(Next(w, step).value.state)
  {
    hide MarkRecovered, Retained, DemandSpan, Take, Sizes, Joined, DemandOk, Shaped;
    var s := w.state;
    match step
    case RecordDemand(t, file, offset, length) =>
      if t in s.torrents && DemandSpan(s.torrents[t].layout, file, offset, length).Ok? {
        DemandGrows(s.torrents[t].layout, s.torrents[t].demanded, file, offset, length);
      }
    case Open(t, layout, found) => if Shaped(layout) { NoDemandYet(layout); }
    case _ =>
  }

  // ----- whole runs -----

  function RunAll(w: World, steps: seq<Step>): Option<World>
    decreases |steps|
  {
    if steps == [] then Some(w) else
    match Next(w, steps[0])
    case None => None
    case Some(v) => RunAll(v, steps[1..])
  }

  /** Counts, pins and recency hold in every reachable state. */
  lemma {:induction false} EveryRunKeeps(w: World, steps: seq<Step>)
    requires Inv(w)
    ensures RunAll(w, steps).Some? ==> Inv(RunAll(w, steps).value)
    decreases |steps|
  {
    hide Next, BytesOk, TicksOk, PinsOk, DemandsOk;
    if steps != [] && Next(w, steps[0]).Some? {
      BytesStep(w, steps[0]);
      TicksStep(w, steps[0]);
      PinsStep(w, steps[0]);
      DemandsStep(w, steps[0]);
      EveryRunKeeps(Next(w, steps[0]).value, steps[1..]);
    }
  }

  /** A live pin's torrent is open and counts it, so dropping the pin never takes one from zero. */
  lemma LivePinsAreCounted(cap: nat, steps: seq<Step>, id: nat)
    requires RunAll(NewWorld(cap), steps).Some? && id in RunAll(NewWorld(cap), steps).value.pins
    ensures var w := RunAll(NewWorld(cap), steps).value;
            var t := w.pins[id].torrent;
            && t in w.state.torrents && w.state.torrents[t].pins > 0
            && RemoveEntry(w.state, t, false) == Outcome(w.state, Err(Pinned))
  {
    NewWorldOk(cap);
    EveryRunKeeps(NewWorld(cap), steps);
    var w := RunAll(NewWorld(cap), steps).value;
    hide RunAll, BytesOk, TicksOk, ReadersOk;
    assert id in PinsOn(w.pins, w.pins[id].torrent);
    assert |PinsOn(w.pins, w.pins[id].torrent)| > 0;
  }

  /** The bytes the store holds of a torrent. */
  function HeldBytes(w: World, t: InfoHash): nat { if t in w.held then Sizes(w.held[t].files) else 0 }

  /** Bytes of writes that failed after the store had recorded them. */
  function Unreported(w: World, t: InfoHash): nat { if t in w.held then w.held[t].unreported else 0 }

  /** Bytes reported to the cache that the store forgot in a remove that failed. */
  function Forgotten(w: World, t: InfoHash): nat {
    if t in w.held || t !in w.lost then 0 else Max(Sizes(w.lost[t].files) - w.lost[t].unreported, 0)
  }

  lemma ReachableCounts(cap: nat, steps: seq<Step>)
    requires RunAll(NewWorld(cap), steps).Some?
    ensures BytesOk(RunAll(NewWorld(cap), steps).value) && PinsOk(RunAll(NewWorld(cap), steps).value)
  {
    NewWorldOk(cap);
    EveryRunKeeps(NewWorld(cap), steps);
  }

  /**
   * At every step the stored count and the additions still in flight make up what the store holds, if and only if none
   * of its bytes were recorded by a write that then failed and none were forgotten by a remove that then failed.
   */
  lemma CountsAreExact(cap: nat, steps: seq<Step>, t: InfoHash)
    requires RunAll(NewWorld(cap), steps).Some? && t in RunAll(NewWorld(cap), steps).value.state.torrents
    ensures var w := RunAll(NewWorld(cap), steps).value;
            var counted := w.state.torrents[t].stored + Flying(w.flights, t);
            && counted + Unreported(w, t) == HeldBytes(w, t) + Forgotten(w, t)
            && (counted == HeldBytes(w, t) <==> Unreported(w, t) == 0 && Forgotten(w, t) == 0)
  {
    hide RunAll, PinsOk, BytesOk, Flying, HeldBytes, Unreported, Forgotten;
    ReachableCounts(cap, steps);
    Balance(RunAll(NewWorld(cap), steps).value, t);
  }

  lemma Balance(w: World, t: InfoHash)
    requires BytesOk(w) && t in w.state.torrents
    ensures w.state.torrents[t].stored + Flying(w.flights, t) + Unreported(w, t) == HeldBytes(w, t) + Forgotten(w, t)
    ensures Unreported(w, t) == 0 || Forgotten(w, t) == 0
  {
    hide Flying, Sizes;
  }

  /** What removing a torrent reports is what its store held, again unless a write or an earlier remove failed late. */
  lemma RemoveReportsHeldBytes(cap: nat, steps: seq<Step>, t: InfoHash)
    requires RunAll(NewWorld(cap), steps).Some?
    requires var w := RunAll(NewWorld(cap), steps).value;
             RemoveStep(w, t, Removed).Some? && RemoveEntry(w.state, t, false).result.Ok?
    ensures var w := RunAll(NewWorld(cap), steps).value;
            var reported := RemoveEntry(w.state, t, false).result.value;
            && reported + Unreported(w, t) == HeldBytes(w, t) + Forgotten(w, t)
            && (reported == HeldBytes(w, t) <==> Unreported(w, t) == 0 && Forgotten(w, t) == 0)
            && t !in RemoveStep(w, t, Removed).value.held
            && PinsOn(w.pins, t) == {}
  {
    ReachableCounts(cap, steps);
    CountsAreExact(cap, steps, t);
    var w := RunAll(NewWorld(cap), steps).value;
    hide RunAll, ReadersOk, Sizes, HeldBytes, Unreported, Forgotten, Flying;
    NoFlights(w.flights, t);
  }

  ghost function CountedOf(w: World): InfoHash -> nat {
    t => if t in w.state.torrents then w.state.torrents[t].stored + Flying(w.flights, t) else 0
  }

  ghost function HeldOf(w: World): InfoHash -> nat { t => HeldBytes(w, t) }

  ghost function UnreportedOf(w: World): InfoHash -> nat { t => Unreported(w, t) }

  ghost function ForgottenOf(w: World): InfoHash -> nat { t => Forgotten(w, t) }

  /**
   * With nothing in flight, the bytes `stats` reports are those the store holds of all open torrents, if and only if as
   * many were left unreported as were forgotten.
   */
  lemma StatsAreExact(cap: nat, steps: seq<Step>)
    requires RunAll(NewWorld(cap), steps).Some? && RunAll(NewWorld(cap), steps).value.flights == map[]
    ensures var w := RunAll(NewWorld(cap), steps).value;
            var all := w.state.torrents.Keys;
            && StoredIn(w.state, all) + SumOf(all, UnreportedOf(w)) == SumOf(all, HeldOf(w)) + SumOf(all, ForgottenOf(w))
            && (StoredIn(w.state, all) == SumOf(all, HeldOf(w)) <==> SumOf(all, UnreportedOf(w)) == SumOf(all, ForgottenOf(w)))
  {
    var w := RunAll(NewWorld(cap), steps).value;
    var all := w.state.torrents.Keys;
    forall t | t in all
      ensures CountedOf(w)(t) + UnreportedOf(w)(t) == HeldOf(w)(t) + ForgottenOf(w)(t)
      ensures CountedOf(w)(t) == StoredOf(w.state)(t)
    {
      CountsAreExact(cap, steps, t);
      NoFlights(w.flights, t);
    }
    SumBalance(all, CountedOf(w), UnreportedOf(w), HeldOf(w), ForgottenOf(w));
    SumSame(all, CountedOf(w), StoredOf(w.state));
  }

  /** As long as no write and no remove failed late, they are exactly those. */
  lemma CleanStatsAreExact(cap: nat, steps: seq<Step>)
    requires RunAll(NewWorld(cap), steps).Some? && RunAll(NewWorld(cap), steps).value.flights == map[]
    requires var w := RunAll(NewWorld(cap), steps).value;
             forall t | t in w.state.torrents :: Unreported(w, t) == 0 && Forgotten(w, t) == 0
    ensures var w := RunAll(NewWorld(cap), steps).value;
            StoredIn(w.state, w.state.torrents.Keys) == SumOf(w.state.torrents.Keys, HeldOf(w))
  {
    var w := RunAll(NewWorld(cap), steps).value;
    StatsAreExact(cap, steps);
    SumSame(w.state.torrents.Keys, UnreportedOf(w), ForgottenOf(w));
  }

  /** Recency orders any two torrents strictly. */
  lemma RecencyIsStrict(cap: nat, steps: seq<Step>, t: InfoHash, u: InfoHash)
    requires RunAll(NewWorld(cap), steps).Some?
    requires var w := RunAll(NewWorld(cap), steps).value;
             t in w.state.torrents && u in w.state.torrents && t != u
    ensures var s := RunAll(NewWorld(cap), steps).value.state;
            s.torrents[t].lastRead < s.torrents[u].lastRead || s.torrents[u].lastRead < s.torrents[t].lastRead
  {
    NewWorldOk(cap);
    EveryRunKeeps(NewWorld(cap), steps);
    hide RunAll, BytesOk, PinsOk;
  }

  /** Per piece, the bytes demanded over a whole run add up to all bytes demanded. */
  lemma DemandsAddUp(cap: nat, steps: seq<Step>, t: InfoHash)
    requires RunAll(NewWorld(cap), steps).Some? && t in RunAll(NewWorld(cap), steps).value.state.torrents
    ensures var e := RunAll(NewWorld(cap), steps).value.state.torrents[t];
            && Shaped(e.layout) && DemandBefore(e.layout, Covered(e.demanded), e.layout.pieceCount) == Total(e.demanded)
  {
    NewWorldOk(cap);
    EveryRunKeeps(NewWorld(cap), steps);
    hide RunAll, BytesOk, TicksOk, PinsOk, DemandBefore, Covered, Shaped;
    var e := RunAll(NewWorld(cap), steps).value.state.torrents[t];
    assert DemandOk(e.layout, e.demanded);
    DemandAddsUp(e.layout, Covered(e.demanded));
    CanonicalSize(e.demanded);
  }

  // ----- writes and removes that fail late -----

  function OneByte(): Layout { Layout(1, [1], 1, 1) }

  /** One more step of a run. */
  lemma RunOne(w: World, step: Step, rest: seq<Step>)
    requires Next(w, step).Some?
    ensures RunAll(w, [step] + rest) == RunAll(Next(w, step).value, rest)
  {
    hide Next;
    assert ([step] + rest)[1..] == rest;
  }

  lemma OneByteFacts()
    ensures Shaped(OneByte()) && CheckRange(OneByte(), 0, 0, 1) == Ok(Span(0, 1))
    ensures var none: set<nat> := {}; var one: set<nat> := {0};
            Below(0, 1) == one && none + one == one && Sizes([none]) == 0 && Sizes([one]) == 1
  {
    assert Sum([1]) == 1 by { assert [1][..0] == []; }
    var none: set<nat> := {};
    var one: set<nat> := {0};
    assert Below(0, 1) == Below(0, 0) + {0} == one;
    assert [none][..0] == [] && [one][..0] == [];
  }

  /** A torrent of one byte opened, and a write of that byte begun. */
  lemma OneByteBegun(t: InfoHash) returns (w: World)
    ensures forall rest :: RunAll(NewWorld(0), [Open(t, OneByte(), Opens([{}], [])), BeginWrite(0, t, 0, 0, 1)] + rest) == RunAll(w, rest)
    ensures w.state.torrents.Keys == {t} && w.state.torrents[t].stored == 0 && w.state.torrents[t].layout == OneByte()
    ensures w.state.torrents[t].pins == 0 && w.flights == map[0 := Flight(t, 0, 0, 1, None)] && w.lost == map[]
    ensures w.held == map[t := Holding([{}], 0)]
  {
    OneByteFacts();
    var s0, s1 := Open(t, OneByte(), Opens([{}], [])), BeginWrite(0, t, 0, 0, 1);
    var w0 := NewWorld(0);
    var w1 := Next(w0, s0).value;
    w := Next(w1, s1).value;
    forall rest ensures RunAll(w0, [s0, s1] + rest) == RunAll(w, rest) {
      assert [s0, s1] + rest == [s0] + ([s1] + rest);
      RunOne(w0, s0, [s1] + rest);
      RunOne(w1, s1, rest);
    }
  }

  /** The disk store records the bytes before it saves its manifest: when saving fails they are stored but never counted. */
  lemma LateFailureIsNotCounted(t: InfoHash)
    ensures var steps := [Open(t, OneByte(), Opens([{}], [])), BeginWrite(0, t, 0, 0, 1)] + [StoreWrite(0, TakenButFails)];
            && RunAll(NewWorld(0), steps).Some?
            && var w := RunAll(NewWorld(0), steps).value;
               t in w.state.torrents && w.state.torrents[t].stored == 0 && w.flights == map[] && HeldBytes(w, t) == 1
  {
    OneByteFacts();
    var w := OneByteBegun(t);
    RunOne(w, StoreWrite(0, TakenButFails), []);
    var none: set<nat> := {};
    var v := Next(w, StoreWrite(0, TakenButFails)).value;
    assert v.held[t].files == [none + Below(0, 1)];
    assert [StoreWrite(0, TakenButFails)] + [] == [StoreWrite(0, TakenButFails)];
    assert RunAll(w, [StoreWrite(0, TakenButFails)]) == RunAll(v, []);
    assert v.state == w.state && v.flights == map[];
  }

  /**
   * The disk store forgets a torrent before it removes its directory: when that fails, the entry stays with a count the
   * store no longer holds, and removing it again reports those bytes as freed.
   */
  lemma FailedRemoveIsStillCounted(t: InfoHash)
    ensures var steps := [Open(t, OneByte(), Opens([{}], [])), BeginWrite(0, t, 0, 0, 1)]
                         + [StoreWrite(0, Taken), EndWrite(0), Remove(t, FailsForgetting)];
            && RunAll(NewWorld(0), steps).Some?
            && var w := RunAll(NewWorld(0), steps).value;
               && t in w.state.torrents && w.state.torrents[t].stored == 1 && w.flights == map[]
               && HeldBytes(w, t) == 0 && Unreported(w, t) == 0 && Forgotten(w, t) == 1
               && RemoveEntry(w.state, t, false).result == Ok(1)
  {
    OneByteFacts();
    var w := OneByteBegun(t);
    var s2, s3, s4 := StoreWrite(0, Taken), EndWrite(0), Remove(t, FailsForgetting);
    var none: set<nat> := {};
    var w2 := Next(w, s2).value;
    assert w2.held[t].files == [none + Below(0, 1)];
    var w3 := Next(w2, s3).value;
    assert w3.flights == map[];
    var w4 := Next(w3, s4).value;
    assert [s2, s3, s4] == [s2] + ([s3] + ([s4] + []));
    RunOne(w, s2, [s3] + ([s4] + []));
    RunOne(w2, s3, [s4] + []);
    RunOne(w3, s4, []);
    assert RunAll(w, [s2, s3, s4]) == RunAll(w4, []);
    assert w2.state.torrents == w.state.torrents;
    assert w3.state.torrents[t].stored == 1 && w3.state.torrents[t].pins == 0;
    assert w4.state == w3.state && w4.held == map[] && w4.lost[t] == w3.held[t];
  }
}
