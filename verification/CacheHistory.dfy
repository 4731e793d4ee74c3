/**
 * What the registry says of a torrent is what the history of calls did to it: how recently it was used, which pieces
 * are complete, and which bytes were demanded.
 */
module CacheHistory {
  import opened Bytes
  import opened CacheExtents
  import opened CacheLayout
  import opened CacheState
  import opened CacheRuns

  // ----- the last step of a run -----

  lemma {:induction false} RunSnoc(w: World, steps: seq<Step>, step: Step)
    ensures RunAll(w, steps + [step])
         == match RunAll(w, steps) case None => None case Some(v) => Next(v, step)
    decreases |steps|
  {
    hide Next;
    if steps == [] {
      assert ([] + [step])[1..] == [];
    } else {
      assert (steps + [step])[1..] == steps[1..] + [step] && (steps + [step])[0] == steps[0];
      if Next(w, steps[0]).Some? { RunSnoc(Next(w, steps[0]).value, steps[1..], step); }
    }
  }

  /** The world before the `i`-th step. */
  function Before(cap: nat, steps: seq<Step>, i: nat): Option<World>
    requires i <= |steps|
  {
    RunAll(NewWorld(cap), steps[..i])
  }

  lemma LastStep(cap: nat, steps: seq<Step>)
    requires steps != []
    ensures RunAll(NewWorld(cap), steps)
         == match Before(cap, steps, |steps| - 1) case None => None case Some(w) => Next(w, steps[|steps| - 1])
  {
    hide Next, RunAll;
    var n := |steps| - 1;
    assert steps == steps[..n] + [steps[n]];
    RunSnoc(NewWorld(cap), steps[..n], steps[n]);
  }

  // ----- recency -----

  /** The step makes `t` an open torrent. */
  predicate Registers(w: World, step: Step, t: InfoHash) {
    step.Open? && step.t == t && t !in w.state.torrents && Next(w, step).Some? && t in Next(w, step).value.state.torrents
  }

  /** The step makes `t` the most recently used: it registers it, reads it, or drops a pin on it. */
  predicate Uses(w: World, step: Step, t: InfoHash) {
    match step
    case Open(_, _, _) => Registers(w, step, t)
    case Read(u) => u == t
    case Unpin(id) => id in w.pins && w.pins[id].torrent == t
    case _ => false
  }

  /** The last step of the history that used `t`. */
  function LastUse(cap: nat, steps: seq<Step>, t: InfoHash): (r: Option<nat>)
    ensures r.Some? ==> r.value < |steps|
    decreases |steps|
  {
    if steps == [] then None else
    var n := |steps| - 1;
    if Before(cap, steps, n).Some? && Uses(Before(cap, steps, n).value, steps[n], t) then Some(n)
    else LastUse(cap, steps[..n], t)
  }

  /** Only a used torrent gets a new tick, and that tick is ahead of all others. */
  lemma UseTicks(w: World, step: Step, t: InfoHash)
    requires TicksOk(w.state) && Next(w, step).Some? && t in Next(w, step).value.state.torrents
    ensures var s, v := w.state, Next(w, step).value.state;
            if Uses(w, step, t) then v.torrents[t].lastRead > s.tick
            else t in s.torrents && v.torrents[t].lastRead == s.torrents[t].lastRead <= s.tick
  {
    hide MarkRecovered, Retained, DemandSpan, Take, Sizes, Joined;
  }

  lemma OneIsUsed(w: World, step: Step, t: InfoHash, u: InfoHash)
    requires Uses(w, step, t) && Uses(w, step, u)
    ensures t == u
  {}

  ghost predicate InOrder(cap: nat, steps: seq<Step>, s: State, t: InfoHash, u: InfoHash)
    requires t in s.torrents && u in s.torrents
  {
    && LastUse(cap, steps, t).Some? && LastUse(cap, steps, u).Some?
    && (s.torrents[t].lastRead < s.torrents[u].lastRead <==> LastUse(cap, steps, t).value < LastUse(cap, steps, u).value)
  }

  /** One open torrent is less recent than another if and only if the last step that used it came first. */
  lemma {:induction false} RecencyIsHistory(cap: nat, steps: seq<Step>, t: InfoHash, u: InfoHash)
    requires RunAll(NewWorld(cap), steps).Some?
    requires var s := RunAll(NewWorld(cap), steps).value.state; t in s.torrents && u in s.torrents
    ensures InOrder(cap, steps, RunAll(NewWorld(cap), steps).value.state, t, u)
    decreases |steps|
  {
    hide RunAll, Next, Uses, TicksOk;
    if steps == [] {
      Nothing(cap);
    } else {
      var n := |steps| - 1;
      LastStep(cap, steps);
      var w := Before(cap, steps, n).value;
      RunTicks(cap, steps[..n]);
      UseTicks(w, steps[n], t);
      UseTicks(w, steps[n], u);
      if Uses(w, steps[n], t) && Uses(w, steps[n], u) {
        OneIsUsed(w, steps[n], t, u);
      } else if Uses(w, steps[n], t) {
        RecencyIsHistory(cap, steps[..n], u, u);
      } else if Uses(w, steps[n], u) {
        RecencyIsHistory(cap, steps[..n], t, t);
      } else {
        RecencyIsHistory(cap, steps[..n], t, u);
      }
    }
  }

  lemma Nothing(cap: nat)
    ensures RunAll(NewWorld(cap), []) == Some(NewWorld(cap)) && NewWorld(cap).state.torrents == map[]
  {}

  lemma RunTicks(cap: nat, steps: seq<Step>)
    requires RunAll(NewWorld(cap), steps).Some?
    ensures TicksOk(RunAll(NewWorld(cap), steps).value.state)
  {
    hide RunAll, TicksOk, BytesOk, PinsOk, DemandsOk;
    NewWorldOk(cap);
    EveryRunKeeps(NewWorld(cap), steps);
  }

  /** No victim was used after an idle torrent that is spared, and victims go in the order of their last use. */
  lemma VictimsUsedLeast(cap: nat, steps: seq<Step>, victims: seq<InfoHash>)
    requires RunAll(NewWorld(cap), steps).Some? && Evicts(RunAll(NewWorld(cap), steps).value.state, victims)
    ensures var s := RunAll(NewWorld(cap), steps).value.state;
            && (forall v, t | v in victims && t in Idle(s) && t !in victims ::
                  LastUse(cap, steps, v).Some? && LastUse(cap, steps, t).Some?
                  && LastUse(cap, steps, v).value < LastUse(cap, steps, t).value)
            && (forall i, j | 0 <= i < j < |victims| ::
                  LastUse(cap, steps, victims[i]).Some? && LastUse(cap, steps, victims[j]).Some?
                  && LastUse(cap, steps, victims[i]).value < LastUse(cap, steps, victims[j]).value)
  {
    hide RunAll, LastUse;
    var s := RunAll(NewWorld(cap), steps).value.state;
    forall v, t | v in victims && t in Idle(s) && t !in victims
      ensures LastUse(cap, steps, v).Some? && LastUse(cap, steps, t).Some?
              && LastUse(cap, steps, v).value < LastUse(cap, steps, t).value
    {
      RecencyIsHistory(cap, steps, v, t);
      RecencyIsStrict(cap, steps, v, t);
    }
    forall i, j | 0 <= i < j < |victims|
      ensures LastUse(cap, steps, victims[i]).Some? && LastUse(cap, steps, victims[j]).Some?
              && LastUse(cap, steps, victims[i]).value < LastUse(cap, steps, victims[j]).value
    {
      RecencyIsHistory(cap, steps, victims[i], victims[j]);
      RecencyIsStrict(cap, steps, victims[i], victims[j]);
    }
  }

  // ----- pieces and demand -----

  /** The step that registered `t` last. */
  function Registration(cap: nat, steps: seq<Step>, t: InfoHash): (r: Option<nat>)
    ensures r.Some? ==> r.value < |steps| && steps[r.value].Open?
    decreases |steps|
  {
    if steps == [] then None else
    var n := |steps| - 1;
    if Before(cap, steps, n).Some? && Registers(Before(cap, steps, n).value, steps[n], t) then Some(n)
    else Registration(cap, steps[..n], t)
  }

  /** The step asks for the byte at `x` of a torrent of this shape, in a range that lies in one file. */
  predicate Demands(step: Step, l: Layout, t: InfoHash, x: nat) {
    step.RecordDemand? && step.t == t && step.file as int < |l.fileLengths|
    && step.offset as int + step.length as int <= l.fileLengths[step.file] as int
    && Sum(l.fileLengths[..step.file]) + step.offset as int <= x < Sum(l.fileLengths[..step.file]) + step.offset as int + step.length as int
  }

  /** The entry is what became of `t` since the step `r` registered it. */
  ghost predicate Since(e: Entry, steps: seq<Step>, t: InfoHash, r: nat)
    requires r < |steps| && steps[r].Open?
  {
    && steps[r].found.Opens? && e.layout == steps[r].layout && |e.pieces| == e.layout.pieceCount as int
    && (forall p: u32 | p as int < |e.pieces| ::
          e.pieces[p] <==> p in steps[r].found.completed || exists i | r < i < |steps| :: steps[i] == PieceDone(t, p))
    && (forall x: nat :: x in Covered(e.demanded) <==> exists i | r < i < |steps| :: Demands(steps[i], e.layout, t, x))
  }

  lemma {:induction false} MarkMeaning(completed: seq<u32>, count: nat)
    ensures var m := MarkRecovered(completed, count);
            m.Some? ==> forall p: u32 | p as int < count :: m.value[p] <==> p in completed
  {
    if completed != [] {
      var n := |completed| - 1;
      MarkMeaning(completed[..n], count);
      assert completed == completed[..n] + [completed[n]];
    }
  }

  /** What one step does to an entry. */
  lemma EntryStep(w: World, step: Step, t: InfoHash)
    requires Next(w, step).Some? && t in Next(w, step).value.state.torrents
    ensures var e := Next(w, step).value.state.torrents[t];
            if Registers(w, step, t) then
              step.Open? && step.found.Opens? && e.layout == step.layout && e.demanded == []
              && MarkRecovered(step.found.completed, step.layout.pieceCount) == Some(e.pieces)
            else
              && t in w.state.torrents && e.layout == w.state.torrents[t].layout
              && var f := w.state.torrents[t];
                 && e.pieces == (if step.PieceDone? && step.t == t && step.piece as int < |f.pieces|
                                 then f.pieces[step.piece := true] else f.pieces)
                 && e.demanded == (if step.RecordDemand? && step.t == t
                                      && DemandSpan(f.layout, step.file, step.offset, step.length).Ok?
                                   then Joined(f.demanded, DemandSpan(f.layout, step.file, step.offset, step.length).value)
                                   else f.demanded)
  {
    hide MarkRecovered, Retained, DemandSpan, Take, Sizes, Joined;
  }

  lemma Registered(e: Entry, steps: seq<Step>, t: InfoHash)
    requires steps != [] && steps[|steps| - 1].Open? && steps[|steps| - 1].found.Opens?
    requires e.layout == steps[|steps| - 1].layout && e.demanded == []
    requires MarkRecovered(steps[|steps| - 1].found.completed, e.layout.pieceCount) == Some(e.pieces)
    ensures Since(e, steps, t, |steps| - 1)
  {
    MarkMeaning(steps[|steps| - 1].found.completed, e.layout.pieceCount);
    forall x: nat ensures x !in Covered([]) {}
  }

  lemma Demanded(e: Entry, f: Entry, step: Step, t: InfoHash)
    requires DemandOk(f.layout, f.demanded) && e.layout == f.layout
    requires e.demanded == (if step.RecordDemand? && step.t == t
                               && DemandSpan(f.layout, step.file, step.offset, step.length).Ok?
                            then Joined(f.demanded, DemandSpan(f.layout, step.file, step.offset, step.length).value)
                            else f.demanded)
    ensures forall x: nat :: x in Covered(e.demanded) <==> x in Covered(f.demanded) || Demands(step, e.layout, t, x)
  {
    hide Joined, Covered, Canonical, DemandSpan;
    if step.RecordDemand? && step.t == t {
      DemandStaysInside(f.layout, step.file, step.offset, step.length);
      if DemandSpan(f.layout, step.file, step.offset, step.length).Ok? {
        JoinedIsUnion(f.demanded, DemandSpan(f.layout, step.file, step.offset, step.length).value);
      }
    }
  }

  lemma OneStepOn(e: Entry, f: Entry, steps: seq<Step>, t: InfoHash, r: nat)
    requires steps != [] && r < |steps| - 1 && steps[..|steps| - 1][r].Open? && Since(f, steps[..|steps| - 1], t, r)
    requires e.layout == f.layout
    requires var step := steps[|steps| - 1];
             && e.pieces == (if step.PieceDone? && step.t == t && step.piece as int < |f.pieces|
                             then f.pieces[step.piece := true] else f.pieces)
             && forall x: nat :: x in Covered(e.demanded) <==> x in Covered(f.demanded) || Demands(step, e.layout, t, x)
    ensures steps[r].Open? && Since(e, steps, t, r)
  {
    hide Covered, Demands;
    var n := |steps| - 1;
    assert forall i | 0 <= i < n :: steps[..n][i] == steps[i];
    forall p: u32 | p as int < |e.pieces|
      ensures e.pieces[p] <==> p in steps[r].found.completed || exists i | r < i < |steps| :: steps[i] == PieceDone(t, p)
    {
      assert (exists i | r < i < |steps| :: steps[i] == PieceDone(t, p))
        <==> (exists i | r < i < n :: steps[..n][i] == PieceDone(t, p)) || steps[n] == PieceDone(t, p) by {
        if exists i | r < i < n :: steps[..n][i] == PieceDone(t, p) {
          var i :| r < i < n && steps[..n][i] == PieceDone(t, p);
          assert steps[i] == PieceDone(t, p);
        }
      }
    }
    forall x: nat
      ensures x in Covered(e.demanded) <==> exists i | r < i < |steps| :: Demands(steps[i], e.layout, t, x)
    {
      assert (exists i | r < i < |steps| :: Demands(steps[i], e.layout, t, x))
        <==> (exists i | r < i < n :: Demands(steps[..n][i], e.layout, t, x)) || Demands(steps[n], e.layout, t, x) by {
        if exists i | r < i < n :: Demands(steps[..n][i], e.layout, t, x) {
          var i :| r < i < n && Demands(steps[..n][i], e.layout, t, x);
          assert Demands(steps[i], e.layout, t, x);
        }
      }
    }
  }

  /**
   * In every run an open torrent has the layout it was registered with, a piece is complete if and only if it was
   * recovered then or completed since, and a byte counts as demanded if and only if some demand since lies in its file
   * and covers it.
   */
  lemma {:induction false} EntriesAreHistory(cap: nat, steps: seq<Step>, t: InfoHash)
    requires RunAll(NewWorld(cap), steps).Some? && t in RunAll(NewWorld(cap), steps).value.state.torrents
    ensures var r := Registration(cap, steps, t);
            r.Some? && Since(RunAll(NewWorld(cap), steps).value.state.torrents[t], steps, t, r.value)
    decreases |steps|
  {
    hide RunAll, Next, Registers, Since, MarkRecovered, Demands, DemandSpan, Joined, Covered, DemandOk;
    if steps == [] {
      Nothing(cap);
    } else {
      var n := |steps| - 1;
      LastStep(cap, steps);
      var w := Before(cap, steps, n).value;
      var e := RunAll(NewWorld(cap), steps).value.state.torrents[t];
      EntryStep(w, steps[n], t);
      if Registers(w, steps[n], t) {
        Registered(e, steps, t);
      } else {
        EntriesAreHistory(cap, steps[..n], t);
        RunDemands(cap, steps[..n]);
        Demanded(e, w.state.torrents[t], steps[n], t);
        OneStepOn(e, w.state.torrents[t], steps, t, Registration(cap, steps[..n], t).value);
      }
    }
  }

  lemma RunDemands(cap: nat, steps: seq<Step>)
    requires RunAll(NewWorld(cap), steps).Some?
    ensures DemandsOk(RunAll(NewWorld(cap), steps).value.state)
  {
    hide RunAll, TicksOk, BytesOk, PinsOk, DemandOk;
    NewWorldOk(cap);
    EveryRunKeeps(NewWorld(cap), steps);
  }
}
