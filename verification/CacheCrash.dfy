/**
 * The disk store as interleaved steps: writers put bytes into data files without the lock, record them under the
 * lock, and save the manifest through a temporary file; the process may stop between any two steps.
 */
module CacheCrash {
  import opened Bytes
  import opened CacheExtents
  import opened CacheLayout
  import opened CacheText
  import opened CacheManifest
  import opened CacheRestart

  // ----- the disk -----

  /** A byte of a sparse file: written, or a hole that reads as zero. */
  datatype Cell = Hole | Data(b: byte)

  /** Data files, the manifest and the temporary file it is replaced from; `None` is a file that does not exist. */
  datatype Disk = Disk(files: seq<Option<seq<Cell>>>, manifest: Option<string>, temporary: Option<string>)

  /** A positioned write: what lies between the old end and `at` becomes a hole. */
  function Overlay(cells: seq<Cell>, at: nat, data: bytes): (r: seq<Cell>)
    ensures |r| == Max(|cells|, at + |data|)
    ensures forall i | 0 <= i < |r| ::
              r[i] == if at <= i < at + |data| then Data(data[i - at]) else if i < |cells| then cells[i] else Hole
  {
    seq(Max(|cells|, at + |data|), i requires 0 <= i =>
      if at <= i < at + |data| then Data(data[i - at]) else if i < |cells| then cells[i] else Hole)
  }

  // ----- the process -----

  datatype Memory = Memory(extents: seq<seq<Span>>, completed: seq<bool>)

  datatype Task = WriteTask(file: nat, offset: u64, data: bytes) | PieceTask

  /** `Saving` holds the lock. */
  datatype Phase = Checked | Writing(done: nat) | Saving(created: bool, saved: nat)

  datatype Worker = Worker(task: Task, phase: Phase)

  /** `Clearing` removes the torrent's directory, one entry at a time. */
  datatype Process =
    | Running(memory: Memory, workers: map<nat, Worker>, holder: Option<nat>)
    | Clearing
    | Stopped

  /** `recorded` is history: the memory the last renamed manifest was printed from. */
  datatype State = State(disk: Disk, process: Process, recorded: Option<Memory>)

  datatype Step =
    | Begin(id: nat, file: u32, offset: u64, data: bytes)
    | OpenData(id: nat)
    | WriteSome(id: nat, count: nat)
    | Insert(id: nat)
    | Complete(id: nat, piece: nat)
    | CreateTemporary(id: nat)
    | SaveSome(id: nat, count: nat)
    | Rename(id: nat)
    | Fail(id: nat)
    | Stop
    | Reopen
    | Remove
    | ClearFile(i: nat)
    | ClearManifest
    | ClearTemporary
    | OpenFresh

  function EmptyMemory(l: Layout): Memory {
    Memory(seq(|l.fileLengths|, _ => []), seq(l.pieceCount as int, _ => false))
  }

  function EmptyDisk(l: Layout): Disk { Disk(seq(|l.fileLengths|, _ => None), None, None) }

  function NewState(l: Layout): State { State(EmptyDisk(l), Running(EmptyMemory(l), map[], None), None) }

  function OnDisk(files: seq<Option<seq<Cell>>>): (r: seq<Option<u64>>)
    ensures |r| == |files|
    ensures forall i | 0 <= i < |files| :: r[i] == if files[i].None? then None else Some(Min(|files[i].value|, U64_MAX))
  {
    seq(|files|, i requires 0 <= i < |files| => if files[i].None? then None else Some(Min(|files[i].value|, U64_MAX)))
  }

  /** What `open` recovers from a disk. */
  function Recover(l: Layout, d: Disk): Option<Restored>
    requires |d.files| == |l.fileLengths|
  {
    if d.manifest.None? then None else Restore(d.manifest.value, l, OnDisk(d.files))
  }

  function Text(l: Layout, m: Memory): string { Manifest(l, m.extents, m.completed[..Min(|m.completed|, U64_MAX)]) }

  function WorkerStep(l: Layout, d: Disk, m: Memory, w: Worker, free: bool, step: Step): Option<(Disk, Memory, Worker)> {
    match step
    case OpenData(_) =>
      if !w.task.WriteTask? || w.phase != Checked || w.task.file >= |d.files| then None else
      Some((if d.files[w.task.file].None? then d.(files := d.files[w.task.file := Some([])]) else d, m, w.(phase := Writing(0))))
    case WriteSome(_, count) =>
      if !w.task.WriteTask? || !w.phase.Writing? || w.task.file >= |d.files| || d.files[w.task.file].None? then None else
      if count == 0 || w.phase.done + count > |w.task.data| then None else
      var part := w.task.data[w.phase.done..w.phase.done + count];
      Some((d.(files := d.files[w.task.file := Some(Overlay(d.files[w.task.file].value, w.task.offset as int + w.phase.done, part))]),
            m, w.(phase := Writing(w.phase.done + count))))
    case Insert(_) =>
      if !w.task.WriteTask? || w.phase != Writing(|w.task.data|) || !free || w.task.file >= |m.extents| then None else
      if w.task.offset as int + |w.task.data| > U64_MAX then None else
      var range := Span(w.task.offset, w.task.offset as int + |w.task.data|);
      Some((d, m.(extents := m.extents[w.task.file := Joined(m.extents[w.task.file], range)]), w.(phase := Saving(false, 0))))
    case CreateTemporary(_) =>
      if w.phase != Saving(false, 0) then None else Some((d.(temporary := Some("")), m, w.(phase := Saving(true, 0))))
    case SaveSome(_, count) =>
      if !w.phase.Saving? || !w.phase.created || w.phase.saved + count > |Text(l, m)| then None else
      Some((d.(temporary := Some(Text(l, m)[..w.phase.saved + count])), m, w.(phase := Saving(true, w.phase.saved + count))))
    case _ => None
  }

  /** What a step of a running process does; `None` when it cannot happen now. */
  function RunningStep(l: Layout, s: State, step: Step): Option<State>
    requires s.process.Running?
  {
    var p := s.process;
    match step
    case Begin(id, file, offset, data) =>
      if id in p.workers || p.holder.Some? || data == [] || |data| > U64_MAX then None else
      if CheckRange(l, file, offset, |data|).Err? then None else
      Some(s.(process := p.(workers := p.workers[id := Worker(WriteTask(file, offset, data), Checked)])))
    case Complete(id, piece) =>
      if id in p.workers || p.holder.Some? || piece >= |p.memory.completed| then None else
      Some(s.(process := Running(p.memory.(completed := p.memory.completed[piece := true]),
                                 p.workers[id := Worker(PieceTask, Saving(false, 0))], Some(id))))
    case Rename(id) =>
      if id !in p.workers || p.workers[id].phase != Saving(true, |Text(l, p.memory)|) then None else
      Some(State(s.disk.(manifest := s.disk.temporary, temporary := None),
                 p.(workers := p.workers - {id}, holder := None), Some(p.memory)))
    case Fail(id) =>
      if id !in p.workers then None else
      Some(s.(process := p.(workers := p.workers - {id}, holder := if p.holder == Some(id) then None else p.holder)))
    case Remove => if p.workers == map[] then Some(s.(process := Clearing)) else None
    case OpenData(id) => OneWorker(l, s, id, step)
    case WriteSome(id, _) => OneWorker(l, s, id, step)
    case Insert(id) => OneWorker(l, s, id, step)
    case CreateTemporary(id) => OneWorker(l, s, id, step)
    case SaveSome(id, _) => OneWorker(l, s, id, step)
    case _ => None
  }

  function OneWorker(l: Layout, s: State, id: nat, step: Step): Option<State>
    requires s.process.Running?
  {
    var p := s.process;
    if id !in p.workers then None else
    match WorkerStep(l, s.disk, p.memory, p.workers[id], p.holder.None?, step)
    case None => None
    case Some((d, m, w)) =>
      Some(State(d, Running(m, p.workers[id := w], if step.Insert? then Some(id) else p.holder), s.recorded))
  }

  function ClearingStep(l: Layout, s: State, step: Step): Option<State> {
    match step
    case ClearFile(i) => if i < |s.disk.files| then Some(s.(disk := s.disk.(files := s.disk.files[i := None]))) else None
    case ClearManifest => Some(s.(disk := s.disk.(manifest := None), recorded := None))
    case ClearTemporary => Some(s.(disk := s.disk.(temporary := None)))
    case OpenFresh => if s.disk == EmptyDisk(l) then Some(s.(process := Running(EmptyMemory(l), map[], None))) else None
    case _ => None
  }

  function Next(l: Layout, s: State, step: Step): Option<State>
    requires |s.disk.files| == |l.fileLengths|
  {
    if step.Stop? then Some(s.(process := Stopped)) else
    match s.process
    case Running(_, _, _) => RunningStep(l, s, step)
    case Clearing => ClearingStep(l, s, step)
    case Stopped =>
      if !step.Reopen? then None else
      match Recover(l, s.disk)
      case None => Some(s.(process := Clearing))
      case Some(r) => Some(s.(process := Running(Memory(r.extents, r.completed), map[], None)))
  }

  // ----- what holds at every step -----

  ghost predicate Sized(l: Layout, m: Memory) {
    && |m.extents| == |l.fileLengths| && |m.completed| == l.pieceCount as int
    && forall i | 0 <= i < |m.extents| :: Canonical(m.extents[i]) && EndsWithin(m.extents[i], l.fileLengths[i])
  }

  /** Every byte of the spans was written to the file. */
  ghost predicate Held(file: Option<seq<Cell>>, spans: seq<Span>) {
    forall x | x in Covered(spans) :: file.Some? && IsData(file.value, x)
  }

  ghost predicate AllHeld(files: seq<Option<seq<Cell>>>, extents: seq<seq<Span>>) {
    |files| == |extents| && forall i | 0 <= i < |files| :: Held(files[i], extents[i])
  }

  ghost predicate HeldOrGone(files: seq<Option<seq<Cell>>>, extents: seq<seq<Span>>) {
    |files| == |extents| && forall i | 0 <= i < |files| :: files[i].None? || Held(files[i], extents[i])
  }

  predicate FilesFit(l: Layout, files: seq<Option<seq<Cell>>>) {
    |files| == |l.fileLengths| && forall i | 0 <= i < |files| && files[i].Some? :: |files[i].value| <= l.fileLengths[i] as int
  }

  /** The file on disk is the manifest printed from `recorded`. */
  ghost predicate RecordOk(l: Layout, d: Disk, recorded: Option<Memory>) {
    match recorded
    case None => d.manifest.None?
    case Some(m) => d.manifest == Some(Text(l, m)) && Sized(l, m) && HeldOrGone(d.files, m.extents)
  }

  /** The recorded spans are all in memory. */
  ghost predicate Ahead(m: Memory, recorded: Option<Memory>) {
    match recorded
    case None => true
    case Some(r) => |r.extents| == |m.extents| && forall i | 0 <= i < |m.extents| :: Covered(r.extents[i]) <= Covered(m.extents[i])
  }

  ghost predicate WorkerOk(l: Layout, d: Disk, m: Memory, w: Worker) {
    TaskOk(l, w.task) && PhaseOk(l, d, m, w)
  }

  ghost predicate TaskOk(l: Layout, t: Task) {
    t.WriteTask? ==>
      t.file < |l.fileLengths| && t.data != [] && t.offset as int + |t.data| <= l.fileLengths[t.file] as int
  }

  ghost predicate PhaseOk(l: Layout, d: Disk, m: Memory, w: Worker) {
    match w.phase
    case Checked => w.task.WriteTask?
    case Writing(done) =>
      && w.task.WriteTask? && done <= |w.task.data| && w.task.file < |d.files| && d.files[w.task.file].Some?
      && Wrote(d.files[w.task.file].value, w.task.offset, done)
    case Saving(created, saved) =>
      && (created ==> saved <= |Text(l, m)| && d.temporary == Some(Text(l, m)[..saved]))
      && (w.task.WriteTask? ==> Remembered(m, w.task))
  }

  function TaskSpan(t: Task): Span
    requires t.WriteTask? && t.offset as int + |t.data| <= U64_MAX
  {
    Span(t.offset, t.offset as int + |t.data|)
  }

  /** Memory holds every byte of the write. */
  ghost predicate Remembered(m: Memory, t: Task)
    requires t.WriteTask?
  {
    && t.file < |m.extents| && t.offset as int + |t.data| <= U64_MAX
    && Range(TaskSpan(t)) <= Covered(m.extents[t.file])
  }

  ghost predicate Wrote(cells: seq<Cell>, at: nat, count: nat) {
    forall x: nat | at <= x < at + count :: IsData(cells, x)
  }

  predicate IsData(cells: seq<Cell>, x: nat) { x < |cells| && cells[x].Data? }

  ghost predicate WorkersOk(l: Layout, d: Disk, p: Process)
    requires p.Running?
  {
    && (forall id | id in p.workers :: WorkerOk(l, d, p.memory, p.workers[id]))
    && (forall id | id in p.workers && p.workers[id].phase.Saving? :: p.holder == Some(id))
    && (p.holder.Some? ==> p.holder.value in p.workers && p.workers[p.holder.value].phase.Saving?)
  }

  ghost predicate Inv(l: Layout, s: State) {
    && FilesFit(l, s.disk.files) && RecordOk(l, s.disk, s.recorded)
    && (s.process.Running? ==> RunningOk(l, s))
  }

  ghost predicate RunningOk(l: Layout, s: State)
    requires s.process.Running?
  {
    && Sized(l, s.process.memory) && AllHeld(s.disk.files, s.process.memory.extents)
    && Ahead(s.process.memory, s.recorded) && WorkersOk(l, s.disk, s.process)
  }

  // ----- files only gain bytes -----

  ghost predicate Gains(a: Option<seq<Cell>>, b: Option<seq<Cell>>) {
    a.Some? ==> b.Some? && |a.value| <= |b.value| && forall x: nat | IsData(a.value, x) :: IsData(b.value, x)
  }

  ghost predicate Grows(a: seq<Option<seq<Cell>>>, b: seq<Option<seq<Cell>>>) {
    |a| == |b| && forall i | 0 <= i < |a| :: Gains(a[i], b[i])
  }

  lemma AllHeldGrows(a: seq<Option<seq<Cell>>>, b: seq<Option<seq<Cell>>>, extents: seq<seq<Span>>)
    requires AllHeld(a, extents) && Grows(a, b)
    ensures AllHeld(b, extents)
  {
    forall i | 0 <= i < |b| ensures Held(b[i], extents[i]) {
      assert Gains(a[i], b[i]) && Held(a[i], extents[i]);
    }
  }

  /** A recorded manifest stays good while files only gain bytes and memory holds all it claims. */
  lemma RecordGrows(l: Layout, d: Disk, e: Disk, m: Memory, recorded: Option<Memory>)
    requires RecordOk(l, d, recorded) && e.manifest == d.manifest && |e.files| == |d.files|
    requires Ahead(m, recorded) && AllHeld(e.files, m.extents)
    ensures RecordOk(l, e, recorded)
  {
    hide Covered, Text;
    if recorded.Some? {
      var r := recorded.value;
      forall i | 0 <= i < |e.files| ensures Held(e.files[i], r.extents[i]) {
        assert Held(e.files[i], m.extents[i]) && Covered(r.extents[i]) <= Covered(m.extents[i]);
      }
    }
  }

  lemma WorkerGrows(l: Layout, d: Disk, e: Disk, m: Memory, n: Memory, w: Worker)
    requires WorkerOk(l, d, m, w) && !w.phase.Saving? && Grows(d.files, e.files)
    ensures WorkerOk(l, e, n, w)
  {
    hide Text;
    if w.phase.Writing? {
      assert Gains(d.files[w.task.file], e.files[w.task.file]);
    }
  }

  /** Data files change only for the writer at work: what the step must show for every other worker follows. */
  lemma WorkersGrow(l: Layout, s: State, id: nat, d: Disk, p: Process)
    requires s.process.Running? && p.Running? && WorkersOk(l, s.disk, s.process) && Grows(s.disk.files, d.files)
    requires forall k | k in p.workers && k != id :: k in s.process.workers && p.workers[k] == s.process.workers[k]
    requires s.process.holder.None? || s.process.holder == Some(id) || (d.temporary == s.disk.temporary && p.memory == s.process.memory)
    requires id in p.workers ==> WorkerOk(l, d, p.memory, p.workers[id])
                                 && (p.workers[id].phase.Saving? ==> p.holder == Some(id))
    requires p.holder == s.process.holder || (s.process.holder.None? && p.holder == Some(id))
             || (s.process.holder == Some(id) && p.holder.None?)
    requires p.holder.Some? ==> p.holder.value in p.workers && p.workers[p.holder.value].phase.Saving?
    ensures WorkersOk(l, d, p)
  {
    hide Text, TaskOk;
    forall k | k in p.workers ensures WorkerOk(l, d, p.memory, p.workers[k]) {
      if k != id {
        var w := p.workers[k];
        assert WorkerOk(l, s.disk, s.process.memory, w);
        if w.phase.Saving? {
          assert s.process.holder == Some(k);
        } else {
          WorkerGrows(l, s.disk, d, s.process.memory, p.memory, w);
        }
      }
    }
  }

  lemma GrowsSame(files: seq<Option<seq<Cell>>>)
    ensures Grows(files, files)
  {}

  // ----- one step of a writer -----

  lemma OverlayGains(cells: seq<Cell>, at: nat, data: bytes)
    ensures Gains(Some(cells), Some(Overlay(cells, at, data)))
    ensures Wrote(Overlay(cells, at, data), at, |data|)
  {}

  lemma WroteMore(cells: seq<Cell>, more: seq<Cell>, at: nat, done: nat, count: nat)
    requires Wrote(cells, at, done) && Gains(Some(cells), Some(more)) && Wrote(more, at + done, count)
    ensures Wrote(more, at, done + count)
  {
    forall x: nat | at <= x < at + done + count ensures IsData(more, x) {
      if x < at + done { assert IsData(cells, x); }
    }
  }

  lemma OneFileGrows(files: seq<Option<seq<Cell>>>, i: nat, file: Option<seq<Cell>>)
    requires i < |files| && Gains(files[i], file)
    ensures Grows(files, files[i := file])
  {}

  /** A step that only touches data files. */
  lemma DataStepKeeps(l: Layout, s: State, id: nat, d: Disk, w: Worker)
    requires Inv(l, s) && s.process.Running? && id in s.process.workers
    requires d.manifest == s.disk.manifest && d.temporary == s.disk.temporary
    requires Grows(s.disk.files, d.files) && FilesFit(l, d.files)
    requires WorkerOk(l, d, s.process.memory, w) && !w.phase.Saving? && !s.process.workers[id].phase.Saving?
    ensures Inv(l, State(d, s.process.(workers := s.process.workers[id := w]), s.recorded))
  {
    hide Text, WorkerOk, Covered, Held, Gains, Sized;
    var p := s.process.(workers := s.process.workers[id := w]);
    AllHeldGrows(s.disk.files, d.files, s.process.memory.extents);
    RecordGrows(l, s.disk, d, s.process.memory, s.recorded);
    WorkersGrow(l, s, id, d, p);
  }

  lemma OpenDataKeeps(l: Layout, s: State, id: nat)
    requires Inv(l, s) && s.process.Running?
    ensures OneWorker(l, s, id, OpenData(id)).Some? ==> Inv(l, OneWorker(l, s, id, OpenData(id)).value)
  {
    hide Text, Covered, Held, Sized, RecordOk;
    if OneWorker(l, s, id, OpenData(id)).Some? {
      var w := s.process.workers[id];
      assert WorkerOk(l, s.disk, s.process.memory, w);
      GrowsSame(s.disk.files);
      var d := if s.disk.files[w.task.file].None? then s.disk.(files := s.disk.files[w.task.file := Some([])]) else s.disk;
      DataStepKeeps(l, s, id, d, w.(phase := Writing(0)));
    }
  }

  lemma WriteSomeKeeps(l: Layout, s: State, id: nat, count: nat)
    requires Inv(l, s) && s.process.Running?
    ensures OneWorker(l, s, id, WriteSome(id, count)).Some? ==> Inv(l, OneWorker(l, s, id, WriteSome(id, count)).value)
  {
    hide Text, Covered, Held, Sized, RecordOk, Overlay, Gains;
    if OneWorker(l, s, id, WriteSome(id, count)).Some? {
      var w := s.process.workers[id];
      assert WorkerOk(l, s.disk, s.process.memory, w);
      var part := w.task.data[w.phase.done..w.phase.done + count];
      var cells := s.disk.files[w.task.file].value;
      var at := w.task.offset as int + w.phase.done;
      WritePart(l, s.disk, s.process.memory, w, count);
      DataStepKeeps(l, s, id, s.disk.(files := s.disk.files[w.task.file := Some(Overlay(cells, at, part))]),
                    w.(phase := Writing(w.phase.done + count)));
    }
  }

  lemma WritePart(l: Layout, d: Disk, m: Memory, w: Worker, count: nat)
    requires WorkerOk(l, d, m, w) && w.phase.Writing? && w.phase.done + count <= |w.task.data| && FilesFit(l, d.files)
    ensures var at := w.task.offset as int + w.phase.done;
            var cells := Overlay(d.files[w.task.file].value, at, w.task.data[w.phase.done..w.phase.done + count]);
            var e := d.(files := d.files[w.task.file := Some(cells)]);
            Grows(d.files, e.files) && FilesFit(l, e.files) && WorkerOk(l, e, m, w.(phase := Writing(w.phase.done + count)))
  {
    var at := w.task.offset as int + w.phase.done;
    var part := w.task.data[w.phase.done..w.phase.done + count];
    var cells := d.files[w.task.file].value;
    OverlayGains(cells, at, part);
    WroteMore(cells, Overlay(cells, at, part), w.task.offset, w.phase.done, count);
    OneFileGrows(d.files, w.task.file, Some(Overlay(cells, at, part)));
    hide Overlay, Wrote, Gains, Text;
  }

  lemma EndsInside(spans: seq<Span>, limit: u64)
    requires Canonical(spans)
    ensures EndsWithin(spans, limit) <==> Covered(spans) <= Below(0, limit)
  {
    if EndsWithin(spans, limit) {
      forall x | x in Covered(spans) ensures x in Below(0, limit) {
        var i :| 0 <= i < |spans| && Inside(x, spans[i]);
        assert spans[i] in spans;
      }
    } else {
      var s :| s in spans && s.end > limit;
      var i :| 0 <= i < |spans| && spans[i] == s;
      var x: nat := s.end - 1;
      assert Inside(x, spans[i]) && In(x, spans) && x in Covered(spans);
    }
  }

  lemma InsertKeeps(l: Layout, s: State, id: nat)
    requires Inv(l, s) && s.process.Running?
    ensures OneWorker(l, s, id, Insert(id)).Some? ==> Inv(l, OneWorker(l, s, id, Insert(id)).value)
  {
    hide Text, Covered, Held, Joined, Sized, AllHeld, Ahead, FilesFit, RecordOk;
    if OneWorker(l, s, id, Insert(id)).Some? {
      var w := s.process.workers[id];
      var m := s.process.memory;
      assert WorkerOk(l, s.disk, m, w);
      var i := w.task.file;
      var range := Span(w.task.offset, w.task.offset as int + |w.task.data|);
      var n := m.(extents := m.extents[i := Joined(m.extents[i], range)]);
      Joins(l, s.disk.files, m, s.recorded, i, range);
      GrowsSame(s.disk.files);
      WorkersGrow(l, s, id, s.disk, Running(n, s.process.workers[id := w.(phase := Saving(false, 0))], Some(id)));
    }
  }

  lemma Joins(l: Layout, files: seq<Option<seq<Cell>>>, m: Memory, recorded: Option<Memory>, i: nat, range: Span)
    requires Sized(l, m) && AllHeld(files, m.extents) && Ahead(m, recorded) && i < |files|
    requires range.start <= range.end <= l.fileLengths[i]
    requires files[i].Some? && Wrote(files[i].value, range.start, range.end - range.start)
    ensures var n := m.(extents := m.extents[i := Joined(m.extents[i], range)]);
            Sized(l, n) && AllHeld(files, n.extents) && Ahead(n, recorded) && Range(range) <= Covered(n.extents[i])
  {
    hide Covered, Joined, Canonical, EndsWithin, Below, Range;
    var spans := Joined(m.extents[i], range);
    JoinedIsUnion(m.extents[i], range);
    EndsInside(m.extents[i], l.fileLengths[i]);
    EndsInside(spans, l.fileLengths[i]);
    RangeInside(range, l.fileLengths[i]);
    assert Held(files[i], m.extents[i]);
    forall x | x in Covered(spans) ensures IsData(files[i].value, x) {
      InOneRange(x, range);
    }
  }

  lemma RangeInside(range: Span, limit: u64)
    requires range.end <= limit
    ensures Range(range) <= Below(0, limit)
  {}

  lemma InOneRange(x: nat, s: Span)
    ensures x in Range(s) <==> s.start <= x < s.end
  {}

  lemma TemporaryKeeps(l: Layout, s: State, id: nat, text: string, w: Worker)
    requires Inv(l, s) && s.process.Running? && id in s.process.workers && s.process.workers[id].phase.Saving?
    requires WorkerOk(l, s.disk.(temporary := Some(text)), s.process.memory, w) && w.phase.Saving?
    ensures Inv(l, State(s.disk.(temporary := Some(text)), s.process.(workers := s.process.workers[id := w]), s.recorded))
  {
    hide Text, Covered, Held, Sized, FilesFit, WorkerOk;
    var d := s.disk.(temporary := Some(text));
    GrowsSame(s.disk.files);
    WorkersGrow(l, s, id, d, s.process.(workers := s.process.workers[id := w]));
  }

  lemma SaveKeeps(l: Layout, s: State, id: nat, step: Step)
    requires Inv(l, s) && s.process.Running? && (step == CreateTemporary(id) || (step.SaveSome? && step.id == id))
    ensures OneWorker(l, s, id, step).Some? ==> Inv(l, OneWorker(l, s, id, step).value)
  {
    hide Text, Covered, Held, Sized, FilesFit, RecordOk, AllHeld, Ahead;
    if OneWorker(l, s, id, step).Some? {
      var w := s.process.workers[id];
      var text := Text(l, s.process.memory);
      assert WorkerOk(l, s.disk, s.process.memory, w);
      if step.SaveSome? {
        TemporaryKeeps(l, s, id, text[..w.phase.saved + step.count], w.(phase := Saving(true, w.phase.saved + step.count)));
      } else {
        assert text[..0] == "";
        TemporaryKeeps(l, s, id, "", w.(phase := Saving(true, 0)));
      }
    }
  }

  // ----- every other step -----

  lemma BeginKeeps(l: Layout, s: State, step: Step)
    requires Inv(l, s) && s.process.Running? && step.Begin?
    ensures RunningStep(l, s, step).Some? ==> Inv(l, RunningStep(l, s, step).value)
  {
    hide Text, Covered, Held, Sized, FilesFit, RecordOk, AllHeld, Ahead;
    if RunningStep(l, s, step).Some? {
      GrowsSame(s.disk.files);
      var w := Worker(WriteTask(step.file, step.offset, step.data), Checked);
      WorkersGrow(l, s, step.id, s.disk, s.process.(workers := s.process.workers[step.id := w]));
    }
  }

  lemma CompleteKeeps(l: Layout, s: State, step: Step)
    requires Inv(l, s) && s.process.Running? && step.Complete?
    ensures RunningStep(l, s, step).Some? ==> Inv(l, RunningStep(l, s, step).value)
  {
    hide Text, Covered, Held, FilesFit, RecordOk, AllHeld, EndsWithin, Canonical;
    if RunningStep(l, s, step).Some? {
      var p := s.process;
      GrowsSame(s.disk.files);
      WorkersGrow(l, s, step.id, s.disk,
        Running(p.memory.(completed := p.memory.completed[step.piece := true]),
                p.workers[step.id := Worker(PieceTask, Saving(false, 0))], Some(step.id)));
    }
  }

  lemma RenameKeeps(l: Layout, s: State, id: nat)
    requires Inv(l, s) && s.process.Running?
    ensures RunningStep(l, s, Rename(id)).Some? ==> Inv(l, RunningStep(l, s, Rename(id)).value)
  {
    hide Text, Covered, Held, FilesFit, Sized;
    if RunningStep(l, s, Rename(id)).Some? {
      var p := s.process;
      assert WorkerOk(l, s.disk, p.memory, p.workers[id]);
      var text := Text(l, p.memory);
      assert text[..|text|] == text;
      GrowsSame(s.disk.files);
      assert p.holder == Some(id);
      WorkersGrow(l, s, id, s.disk.(manifest := Some(text), temporary := None), p.(workers := p.workers - {id}, holder := None));
    }
  }

  lemma FailKeeps(l: Layout, s: State, id: nat)
    requires Inv(l, s) && s.process.Running?
    ensures RunningStep(l, s, Fail(id)).Some? ==> Inv(l, RunningStep(l, s, Fail(id)).value)
  {
    hide Text, Covered, Held, FilesFit, Sized, RecordOk, AllHeld, Ahead;
    if RunningStep(l, s, Fail(id)).Some? {
      var p := s.process;
      GrowsSame(s.disk.files);
      WorkersGrow(l, s, id, s.disk, p.(workers := p.workers - {id}, holder := if p.holder == Some(id) then None else p.holder));
    }
  }

  lemma ClearingKeeps(l: Layout, s: State, step: Step)
    requires Inv(l, s) && s.process.Clearing?
    ensures ClearingStep(l, s, step).Some? ==> Inv(l, ClearingStep(l, s, step).value)
  {
    hide Text, Covered, Held, Sized;
    if step.OpenFresh? && s.disk == EmptyDisk(l) { EmptyIsOk(l); }
  }

  lemma EmptyIsOk(l: Layout)
    ensures Sized(l, EmptyMemory(l)) && AllHeld(EmptyDisk(l).files, EmptyMemory(l).extents) && FilesFit(l, EmptyDisk(l).files)
  {}

  lemma NewStateOk(l: Layout)
    ensures Inv(l, NewState(l))
  {
    hide Text, Sized, AllHeld;
    EmptyIsOk(l);
  }

  // ----- starting again -----

  lemma HeldIsBacked(file: Option<seq<Cell>>, spans: seq<Span>, length: u64)
    requires Canonical(spans) && EndsWithin(spans, length) && Held(file, spans)
    requires file.Some? ==> |file.value| <= length as int
    ensures Backed(spans, length, if file.None? then None else Some(Min(|file.value|, U64_MAX)))
  {
    forall s | s in spans ensures file.Some? && s.end <= |file.value| {
      var i :| 0 <= i < |spans| && spans[i] == s;
      var x: nat := s.end - 1;
      assert Inside(x, spans[i]) && In(x, spans) && x in Covered(spans);
    }
    if spans != [] { assert spans[0] in spans; }
  }

  lemma BackedIsHeld(file: Option<seq<Cell>>, spans: seq<Span>, length: u64, onDisk: Option<u64>)
    requires Backed(spans, length, onDisk) && (onDisk.None? <==> file.None?) && (file.None? || Held(file, spans))
    ensures Held(file, spans)
  {
    if spans == [] { assert forall x :: !In(x, spans); }
  }

  /** What a disk gives back is exactly the recorded memory, or nothing; and only bytes that were written. */
  lemma RecoverIsRecorded(l: Layout, d: Disk, recorded: Option<Memory>)
    requires Shaped(l) && FilesFit(l, d.files) && RecordOk(l, d, recorded)
    ensures Recover(l, d).Some? ==>
              recorded.Some? && Recover(l, d).value.extents == recorded.value.extents
              && Recover(l, d).value.completed == recorded.value.completed
              && Recover(l, d).value.stored == TotalOf(recorded.value.extents)
              && AllHeld(d.files, recorded.value.extents)
  {
    hide Covered, Held, Manifest, Restore, Shaped, Backed, TotalOf, Canonical, EndsWithin;
    if Recover(l, d).Some? {
      var m := recorded.value;
      assert m.completed[..Min(|m.completed|, U64_MAX)] == m.completed;
      RestoreBelieves(l, m.extents, m.completed, OnDisk(d.files));
      RestoreInvertsManifest(l, m.extents, m.completed, OnDisk(d.files));
      forall i | 0 <= i < |d.files| ensures Held(d.files[i], m.extents[i]) {
        assert Backed(m.extents[i], l.fileLengths[i], OnDisk(d.files)[i]);
        BackedIsHeld(d.files[i], m.extents[i], l.fileLengths[i], OnDisk(d.files)[i]);
      }
    }
  }

  /** Files that hold every recorded byte are recovered. */
  lemma HeldRecovers(l: Layout, d: Disk, m: Memory)
    requires Shaped(l) && FilesFit(l, d.files) && RecordOk(l, d, Some(m)) && AllHeld(d.files, m.extents)
    ensures Recover(l, d).Some?
  {
    hide Covered, Held, Manifest, Restore, Shaped, Backed, TotalOf, Canonical, EndsWithin;
    assert m.completed[..Min(|m.completed|, U64_MAX)] == m.completed;
    forall i | 0 <= i < |d.files| ensures Backed(m.extents[i], l.fileLengths[i], OnDisk(d.files)[i]) {
      HeldIsBacked(d.files[i], m.extents[i], l.fileLengths[i]);
    }
    RestoreInvertsManifest(l, m.extents, m.completed, OnDisk(d.files));
  }

  lemma ReopenKeeps(l: Layout, s: State)
    requires Shaped(l) && Inv(l, s) && s.process.Stopped?
    ensures Next(l, s, Reopen).Some? && Inv(l, Next(l, s, Reopen).value)
  {
    hide Shaped, Recover, Text, Covered, Held, Sized, FilesFit;
    RecoverIsRecorded(l, s.disk, s.recorded);
  }

  lemma StepKeeps(l: Layout, s: State, step: Step)
    requires Shaped(l) && Inv(l, s)
    ensures Next(l, s, step).Some? ==> Inv(l, Next(l, s, step).value)
  {
    hide Shaped, RecordOk, FilesFit, RunningOk, OneWorker, ClearingStep, Recover;
    if !step.Stop? {
      match s.process
      case Clearing => ClearingKeeps(l, s, step);
      case Stopped => if step.Reopen? { ReopenKeeps(l, s); }
      case Running(_, _, _) =>
        match step {
          case Begin(_, _, _, _) => BeginKeeps(l, s, step);
          case Complete(_, _) => CompleteKeeps(l, s, step);
          case Rename(id) => RenameKeeps(l, s, id);
          case Fail(id) => FailKeeps(l, s, id);
          case OpenData(id) => OpenDataKeeps(l, s, id);
          case WriteSome(id, count) => WriteSomeKeeps(l, s, id, count);
          case Insert(id) => InsertKeeps(l, s, id);
          case CreateTemporary(id) => SaveKeeps(l, s, id, step);
          case SaveSome(id, _) => SaveKeeps(l, s, id, step);
          case _ =>
        }
    }
  }

  // ----- whole runs -----

  /** The state after `steps`, if each could happen. */
  function RunAll(l: Layout, s: State, steps: seq<Step>): Option<State>
    requires |s.disk.files| == |l.fileLengths|
    decreases |steps|
  {
    if steps == [] then Some(s) else
    match Next(l, s, steps[0])
    case None => None
    case Some(t) => StepSize(l, s, steps[0]); RunAll(l, t, steps[1..])
  }

  lemma StepSize(l: Layout, s: State, step: Step)
    ensures |s.disk.files| == |l.fileLengths| && Next(l, s, step).Some? ==> |Next(l, s, step).value.disk.files| == |l.fileLengths|
  {
    hide Overlay, Recover, Text;
  }

  lemma {:induction false} EveryRunKeeps(l: Layout, s: State, steps: seq<Step>)
    requires Shaped(l) && Inv(l, s)
    ensures RunAll(l, s, steps).Some? ==> Inv(l, RunAll(l, s, steps).value)
    decreases |steps|
  {
    hide Shaped, Next, RecordOk, RunningOk;
    if steps != [] {
      StepKeeps(l, s, steps[0]);
      if Next(l, s, steps[0]).Some? {
        EveryRunKeeps(l, Next(l, s, steps[0]).value, steps[1..]);
      }
    }
  }

  /**
   * Whatever the writers did, wherever the process stopped and however often it started again: what a restart
   * recovers are bytes that had been written to their file, never a hole.
   */
  lemma RestartNeverReportsAHole(l: Layout, steps: seq<Step>)
    requires Shaped(l)
    ensures match RunAll(l, NewState(l), steps)
            case None => true
            case Some(s) => |s.disk.files| == |l.fileLengths| && match Recover(l, s.disk)
              case None => true
              case Some(r) => AllHeld(s.disk.files, r.extents) && r.stored == TotalOf(r.extents)
  {
    hide Shaped, RunAll, Recover, RunningOk, AllHeld;
    NewStateOk(l);
    EveryRunKeeps(l, NewState(l), steps);
    if RunAll(l, NewState(l), steps).Some? {
      var s := RunAll(l, NewState(l), steps).value;
      RecoverIsRecorded(l, s.disk, s.recorded);
    }
  }

  // ----- what a finished write may rely on -----

  ghost function Claimed(s: State, i: nat): set<nat> {
    match s.recorded
    case None => {}
    case Some(m) => if i < |m.extents| then Covered(m.extents[i]) else {}
  }

  /** Nothing recorded is being deleted. */
  ghost predicate Solid(s: State) {
    s.recorded.Some? ==> !s.process.Clearing? && AllHeld(s.disk.files, s.recorded.value.extents)
  }

  lemma RunningIsSolid(l: Layout, s: State)
    requires Inv(l, s) && s.process.Running?
    ensures Solid(s)
  {
    hide Covered, Held, Text, Sized, WorkersOk, FilesFit;
    if s.recorded.Some? {
      var r, m := s.recorded.value, s.process.memory;
      forall i | 0 <= i < |s.disk.files| ensures Held(s.disk.files[i], r.extents[i]) {
        assert Held(s.disk.files[i], m.extents[i]) && Covered(r.extents[i]) <= Covered(m.extents[i]);
        HeldPart(s.disk.files[i], r.extents[i], m.extents[i]);
      }
    }
  }

  lemma HeldPart(file: Option<seq<Cell>>, a: seq<Span>, b: seq<Span>)
    requires Held(file, b) && Covered(a) <= Covered(b)
    ensures Held(file, a)
  {
    hide Covered;
  }

  lemma RunningRecords(l: Layout, s: State, step: Step)
    requires s.process.Running? && !step.Remove? && RunningStep(l, s, step).Some?
    ensures var t := RunningStep(l, s, step).value;
            t.process.Running? && (t.recorded == s.recorded || t.recorded == Some(s.process.memory))
  {
    hide WorkerStep, Text;
  }

  lemma StepDurable(l: Layout, s: State, step: Step)
    requires Shaped(l) && Inv(l, s) && Solid(s) && !step.Remove? && |s.disk.files| == |l.fileLengths| && Next(l, s, step).Some?
    ensures var t := Next(l, s, step).value; Solid(t) && forall i: nat :: Claimed(s, i) <= Claimed(t, i)
  {
    hide Shaped, RunningStep, Recover, AllHeld, Covered, Text, WorkersOk, Sized, HeldOrGone;
    StepKeeps(l, s, step);
    var t := Next(l, s, step).value;
    if !step.Stop? {
      match s.process
      case Running(_, _, _) =>
        RunningRecords(l, s, step);
        RunningIsSolid(l, t);
      case Clearing =>
      case Stopped =>
        if s.recorded.Some? { HeldRecovers(l, s.disk, s.recorded.value); }
    }
  }

  ghost predicate NoneRemoves(steps: seq<Step>) { forall step | step in steps :: !step.Remove? }

  lemma {:induction false} RunDurable(l: Layout, s: State, steps: seq<Step>)
    requires Shaped(l) && Inv(l, s) && Solid(s) && NoneRemoves(steps)
    requires |s.disk.files| == |l.fileLengths| && RunAll(l, s, steps).Some?
    ensures var t := RunAll(l, s, steps).value;
            Inv(l, t) && Solid(t) && forall i: nat :: Claimed(s, i) <= Claimed(t, i)
    decreases |steps|
  {
    hide Shaped, Next, Inv, Solid, Claimed;
    if steps != [] {
      assert steps[0] in steps;
      assert forall step | step in steps[1..] :: step in steps;
      StepKeeps(l, s, steps[0]);
      StepDurable(l, s, steps[0]);
      StepSize(l, s, steps[0]);
      RunDurable(l, Next(l, s, steps[0]).value, steps[1..]);
    }
  }

  lemma RenameClaims(l: Layout, s: State, id: nat)
    requires Inv(l, s) && s.process.Running? && RunningStep(l, s, Rename(id)).Some? && s.process.workers[id].task.WriteTask?
    ensures var t := s.process.workers[id].task;
            t.offset as int + |t.data| <= U64_MAX && Range(TaskSpan(t)) <= Claimed(RunningStep(l, s, Rename(id)).value, t.file)
  {
    hide Text, Covered, Range, Sized, AllHeld, Ahead;
    assert WorkerOk(l, s.disk, s.process.memory, s.process.workers[id]);
  }

  /**
   * A write that finished, its manifest renamed into place, survives every later step, stop and restart, until the
   * torrent is removed.
   */
  lemma FinishedWriteSurvives(l: Layout, before: seq<Step>, id: nat, after: seq<Step>)
    requires Shaped(l) && RunAll(l, NewState(l), before).Some?
    requires var s := RunAll(l, NewState(l), before).value;
             s.process.Running? && RunningStep(l, s, Rename(id)).Some?
             && id in s.process.workers && s.process.workers[id].task.WriteTask?
    requires var t := RunningStep(l, RunAll(l, NewState(l), before).value, Rename(id)).value;
             NoneRemoves(after) && |t.disk.files| == |l.fileLengths| && RunAll(l, t, after).Some?
    ensures var s := RunAll(l, NewState(l), before).value;
            var task := s.process.workers[id].task;
            var u := RunAll(l, RunningStep(l, s, Rename(id)).value, after).value;
            && task.offset as int + |task.data| <= U64_MAX && |u.disk.files| == |l.fileLengths|
            && Recover(l, u.disk).Some? && task.file < |Recover(l, u.disk).value.extents|
            && Range(TaskSpan(task)) <= Covered(Recover(l, u.disk).value.extents[task.file])
  {
    hide Shaped, RunAll, RunningStep, Recover, Covered, Range, RunningOk, TaskSpan, AllHeld, NoneRemoves;
    NewStateOk(l);
    EveryRunKeeps(l, NewState(l), before);
    var s := RunAll(l, NewState(l), before).value;
    RenameClaims(l, s, id);
    RenameKeeps(l, s, id);
    var t := RunningStep(l, s, Rename(id)).value;
    RunningRecords(l, s, Rename(id));
    RunningIsSolid(l, t);
    RunDurable(l, t, after);
    var u := RunAll(l, t, after).value;
    var task := s.process.workers[id].task;
    NonEmptyTask(l, s, id);
    assert Range(TaskSpan(task)) <= Claimed(u, task.file);
    HeldRecovers(l, u.disk, u.recorded.value);
    RecoverIsRecorded(l, u.disk, u.recorded);
  }

  lemma NonEmptyTask(l: Layout, s: State, id: nat)
    requires Inv(l, s) && s.process.Running? && id in s.process.workers && s.process.workers[id].task.WriteTask?
    ensures var t := s.process.workers[id].task;
            t.offset as int + |t.data| <= U64_MAX && Range(TaskSpan(t)) != {}
  {
    var t := s.process.workers[id].task;
    assert WorkerOk(l, s.disk, s.process.memory, s.process.workers[id]);
    assert Inside(t.offset, TaskSpan(t)) && (t.offset as int) in Range(TaskSpan(t));
  }
}
