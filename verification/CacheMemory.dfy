/** The memory store: a file kept in blocks of 16 KiB behaves as a partial map from offsets to bytes. */
module CacheMemory {
  import opened Bytes
  import opened CacheExtents
  import opened CacheLayout

  const BLOCK_SIZE: nat := 0x4000

  /** The bytes a write puts down. */
  function Written(offset: nat, data: bytes): (m: map<nat, byte>)
    ensures m.Keys == Below(offset, offset + |data|)
    ensures forall x | x in m :: m[x] == ByteAt(offset, data, x)
  {
    map x | x in Below(offset, offset + |data|) :: ByteAt(offset, data, x)
  }

  function ByteAt(offset: nat, data: bytes, x: nat): byte
    requires offset <= x < offset + |data|
  {
    data[x - offset]
  }

  // ----- a sequence of writes -----

  datatype WriteOp = WriteOp(offset: nat, data: bytes)

  predicate Hits(w: WriteOp, x: nat) { w.offset <= x < w.offset + |w.data| }

  /** What a file holds after `writes`. */
  function Replay(writes: seq<WriteOp>): map<nat, byte> {
    if writes == [] then map[] else
    var last := writes[|writes| - 1];
    Replay(writes[..|writes| - 1]) + Written(last.offset, last.data)
  }

  lemma ReplayMore(held: map<nat, byte>, offset: nat, data: bytes)
    ensures forall ws | held == Replay(ws) :: held + Written(offset, data) == Replay(ws + [WriteOp(offset, data)])
  {
    hide Written;
    forall ws | held == Replay(ws) ensures held + Written(offset, data) == Replay(ws + [WriteOp(offset, data)]) {
      assert (ws + [WriteOp(offset, data)])[..|ws|] == ws;
    }
  }

  /** The last write that put down the byte at `x`. */
  function LastHit(writes: seq<WriteOp>, x: nat): (r: Option<nat>)
    ensures r.Some? ==> r.value < |writes| && Hits(writes[r.value], x)
  {
    if writes == [] then None else
    var n := |writes| - 1;
    if Hits(writes[n], x) then Some(n) else LastHit(writes[..n], x)
  }

  lemma {:induction false} LastHitIsLast(writes: seq<WriteOp>, x: nat)
    ensures match LastHit(writes, x)
            case None => forall i | 0 <= i < |writes| :: !Hits(writes[i], x)
            case Some(h) => forall i | h < i < |writes| :: !Hits(writes[i], x)
  {
    hide Hits;
    if writes != [] {
      var n := |writes| - 1;
      LastHitIsLast(writes[..n], x);
      assert forall i | 0 <= i < n :: writes[..n][i] == writes[i];
    }
  }

  /** A byte is there exactly when some write put it down, and then it is what the last such write put down. */
  lemma {:induction false} LastWriteWins(writes: seq<WriteOp>, x: nat)
    ensures match LastHit(writes, x)
            case None => x !in Replay(writes)
            case Some(h) => x in Replay(writes) && Replay(writes)[x] == writes[h].data[x - writes[h].offset]
  {
    if writes != [] {
      var n := |writes| - 1;
      LastWriteWins(writes[..n], x);
      if Hits(writes[n], x) {
        assert x in Written(writes[n].offset, writes[n].data);
      } else {
        NotWritten(writes[n], x);
      }
    }
  }

  lemma NotWritten(w: WriteOp, x: nat)
    requires !Hits(w, x)
    ensures x !in Written(w.offset, w.data)
  {}

  lemma InRange(s: Span)
    ensures forall x: nat :: x in Range(s) <==> s.start <= x < s.end
  {}

  // ----- one file -----

  class MemoryFile {
    const extents: Extents
    var blocks: map<nat, array<byte>>

    /** Blocks are whole and not shared. */
    ghost predicate Shape()
      reads this
    {
      && (forall k | k in blocks :: blocks[k].Length == BLOCK_SIZE)
      && (forall j, k | j in blocks && k in blocks && blocks[j] == blocks[k] :: j == k)
    }

    ghost predicate Valid()
      reads this, extents
    {
      Shape() && extents.Valid() && forall x | x in extents.Bytes() :: Held(x)
    }

    ghost predicate Held(x: nat)
      reads this
    {
      x / BLOCK_SIZE in blocks
    }

    /** The byte a block holds for an offset, stored or not. */
    ghost function Peek(x: nat): byte
      reads this, blocks.Values
      requires Shape() && Held(x)
    {
      blocks[x / BLOCK_SIZE][x % BLOCK_SIZE]
    }

    /** The partial map of bytes this file stands for. */
    ghost function Contents(): map<nat, byte>
      reads this, extents, blocks.Values
      requires Valid()
    {
      map x | x in extents.Bytes() :: Peek(x)
    }

    constructor ()
      ensures fresh(extents) && Valid() && blocks == map[] && Contents() == map[]
    {
      extents := new Extents();
      blocks := map[];
    }

    /** Part of one block, allocated on first use. */
    method WriteBlock(position: nat, part: bytes)
      requires Shape() && position % BLOCK_SIZE + |part| <= BLOCK_SIZE
      modifies this`blocks, blocks.Values
      ensures Shape() && fresh(blocks.Values - old(blocks.Values))
      ensures forall x: nat | position <= x < position + |part| :: Held(x) && Peek(x) == part[x - position]
      ensures forall x: nat | old(Held(x)) && !(position <= x < position + |part|) :: Held(x) && Peek(x) == old(Peek(x))
    {
      var index, within := position / BLOCK_SIZE, position % BLOCK_SIZE;
      if index !in blocks {
        var created := new byte[BLOCK_SIZE](_ => 0);
        assert forall k | k in blocks :: blocks[k] in blocks.Values;
        blocks := blocks[index := created];
      }
      var block := blocks[index];
      assert block in blocks.Values;
      forall i | 0 <= i < |part| { block[within + i] := part[i]; }
    }

    lemma ContentsAre(m: map<nat, byte>)
      requires Valid() && m.Keys == extents.Bytes() && forall x | x in m :: Held(x) && Peek(x) == m[x]
      ensures Contents() == m
    {
      hide Peek, Held, Covered, Canonical;
    }

    /** The block loop of `write`. */
    method WriteBlocks(offset: nat, data: bytes)
      requires Shape()
      modifies this`blocks, blocks.Values
      ensures Shape() && fresh(blocks.Values - old(blocks.Values))
      ensures forall x: nat | offset <= x < offset + |data| :: Held(x) && Peek(x) == data[x - offset]
      ensures forall x: nat | old(Held(x)) && !(offset <= x < offset + |data|) :: Held(x) && Peek(x) == old(Peek(x))
    {
      var position, rest := offset, data;
      while rest != []
        invariant |rest| <= |data| && position == offset + (|data| - |rest|) && rest == data[|data| - |rest|..]
        invariant Shape() && fresh(blocks.Values - old(blocks.Values))
        invariant forall x: nat | offset <= x < position :: Held(x) && Peek(x) == data[x - offset]
        invariant forall x: nat | old(Held(x)) && !(offset <= x < position) :: Held(x) && Peek(x) == old(Peek(x))
        decreases |rest|
      {
        hide Held, Peek;
        var count := Min(|rest|, BLOCK_SIZE - position % BLOCK_SIZE);
        WriteBlock(position, rest[..count]);
        position := position + count;
        rest := rest[count..];
      }
    }

    /** `write`, once the range is known to lie inside the file. */
    method Write(offset: u64, data: bytes) returns (added: nat)
      requires Valid() && offset as int + |data| <= U64_MAX
      modifies this`blocks, extents, blocks.Values
      ensures Valid() && fresh(blocks.Values - old(blocks.Values))
      ensures Contents() == old(Contents()) + Written(offset, data)
      ensures added == |Written(offset, data).Keys - old(Contents()).Keys|
      ensures forall ws | old(Contents()) == Replay(ws) :: Contents() == Replay(ws + [WriteOp(offset, data)])
    {
      hide Covered, Canonical, Joined, Total, In, Peek, Held, Inside, Replay;
      ReplayMore(Contents(), offset, data);
      assert Contents().Keys == extents.Bytes();
      WriteBlocks(offset, data);
      assert extents.Bytes() == old(extents.Bytes());
      var range := Span(offset, offset as int + |data|);
      assert Written(offset, data).Keys == Range(range);
      added := extents.Insert(range);
      ghost var after := old(Contents()) + Written(offset, data);
      forall x | x in after ensures Held(x) && Peek(x) == after[x] {
        if x !in Written(offset, data) { assert old(Held(x)) && old(Peek(x)) == after[x]; }
      }
      ContentsAre(after);
    }

    /** The block loop of `read`; the branch for a block that is not there is never taken. */
    method ReadBlocks(offset: nat, buf: array<byte>) returns (r: Result<()>)
      requires Shape() && buf !in blocks.Values
      requires forall x: nat | offset <= x < offset + buf.Length :: Held(x)
      modifies buf
      ensures r.Ok? && forall i | 0 <= i < buf.Length :: buf[i] == Peek(offset + i)
    {
      var position, filled := offset, 0;
      while filled < buf.Length
        invariant filled <= buf.Length && position == offset + filled
        invariant forall i | 0 <= i < filled :: buf[i] == Peek(offset + i)
        decreases buf.Length - filled
      {
        var within := position % BLOCK_SIZE;
        var count := Min(buf.Length - filled, BLOCK_SIZE - within);
        var index := position / BLOCK_SIZE;
        assert Held(position);
        if index !in blocks {
          assert false;
          return Err(Missing);
        }
        var block := blocks[index];
        assert block in blocks.Values;
        forall i | 0 <= i < count { buf[filled + i] := block[within + i]; }
        position := position + count;
        filled := filled + count;
      }
      return Ok(());
    }

    /** Fills `buf`, or reports that a byte of the range was never stored. */
    method Read(offset: u64, buf: array<byte>) returns (r: Result<()>)
      requires Valid() && offset as int + buf.Length <= U64_MAX && buf !in blocks.Values
      modifies buf
      ensures r.Ok? <==> forall x: nat | offset as int <= x < offset as int + buf.Length :: x in Contents()
      ensures r.Ok? ==> forall i | 0 <= i < buf.Length :: buf[i] == Contents()[offset as int + i]
      ensures r.Err? ==> r.error == Missing && buf[..] == old(buf[..])
    {
      hide Covered, Canonical, Joined, Total, In, Peek, Held, Inside;
      var range := Span(offset, offset as int + buf.Length);
      assert Contents().Keys == extents.Bytes();
      assert forall x: nat :: x in Range(range) <==> offset as int <= x < offset as int + buf.Length by { InRange(range); }
      var all := extents.Covers(range);
      if !all {
        ghost var hole :| hole in Range(range) && hole !in extents.Bytes();
        assert hole !in Contents();
        return Err(Missing);
      }
      r := ReadBlocks(offset, buf);
    }
  }

  // ----- a torrent's files -----

  class MemoryTorrent {
    const layout: Layout
    const files: seq<MemoryFile>

    /** Files are separate: writing one cannot touch another. */
    ghost predicate Valid()
      reads this, files, set f | f in files :: f.extents
    {
      && |files| == |layout.fileLengths|
      && (forall f | f in files :: f.Valid())
      && (forall i, j | 0 <= i < |files| && 0 <= j < |files| && i != j :: Separate(files[i], files[j]))
    }

    constructor (layout: Layout)
      ensures Valid() && this.layout == layout && forall f | f in files :: fresh(f) && f.Contents() == map[]
    {
      hide MemoryFile.Valid, MemoryFile.Contents;
      this.layout := layout;
      var created: seq<MemoryFile> := [];
      for i := 0 to |layout.fileLengths|
        invariant |created| == i && forall f | f in created :: fresh(f) && fresh(f.extents) && f.Valid() && f.blocks == map[]
        invariant forall j, k | 0 <= j < |created| && 0 <= k < |created| && j != k :: Separate(created[j], created[k])
        invariant forall f | f in created :: f.Contents() == map[]
      {
        var f := new MemoryFile();
        created := created + [f];
      }
      files := created;
    }

    /** What a file holds. */
    ghost function Holds(i: nat): map<nat, byte>
      reads this, files, set f | f in files :: f.extents, set f, k | f in files && k in f.blocks :: f.blocks[k]
      requires Valid() && i < |files|
    {
      files[i].Contents()
    }

    /** Writing one file leaves the others as they are. */
    method WriteFile(f: MemoryFile, ghost i: nat, offset: u64, data: bytes) returns (added: nat)
      requires Valid() && i < |files| && f == files[i] && offset as int + |data| <= U64_MAX
      modifies f`blocks, f.extents, f.blocks.Values
      ensures Valid() && Holds(i) == old(Holds(i)) + Written(offset, data)
      ensures forall j | 0 <= j < |files| && j != i :: Holds(j) == old(Holds(j))
      ensures added == |Written(offset, data).Keys - old(Holds(i)).Keys|
    {
      hide Written, MemoryFile.Valid, MemoryFile.Contents;
      assert f in files;
      forall j | 0 <= j < |files| && j != i ensures Separate(files[j], f) && files[j].Valid() {
        assert files[j] in files;
      }
      added := f.Write(offset, data);
      forall j | 0 <= j < |files| && j != i
        ensures files[j].Valid() && files[j].Contents() == old(files[j].Contents()) && files[j].blocks == old(files[j].blocks)
      {
        assert unchanged(files[j]) && unchanged(files[j].extents) && unchanged(files[j].blocks.Values);
      }
      forall j, k | 0 <= j < |files| && 0 <= k < |files| && j != k ensures Separate(files[j], files[k]) {
        assert old(Separate(files[j], files[k]));
      }
    }

    /** `write`: checked against the layout; other files keep what they hold. */
    method Write(file: u32, offset: u64, data: bytes) returns (r: Result<nat>)
      requires Valid() && |data| <= U64_MAX
      modifies set f | f in files :: f`blocks, set f | f in files :: f.extents, set f, k | f in files && k in f.blocks :: f.blocks[k]
      ensures Valid()
      ensures match CheckRange(layout, file, offset, |data|)
              case Err(e) => r == Err(e) && forall j | 0 <= j < |files| :: Holds(j) == old(Holds(j))
              case Ok(_) =>
                && Holds(file) == old(Holds(file)) + Written(offset, data)
                && (forall j | 0 <= j < |files| && j != file as int :: Holds(j) == old(Holds(j)))
                && r == Ok(|Written(offset, data).Keys - old(Holds(file)).Keys|)
                && (forall ws | old(Holds(file)) == Replay(ws) :: Holds(file) == Replay(ws + [WriteOp(offset, data)]))
    {
      hide Written, Replay;
      var range := CheckRange(layout, file, offset, |data|);
      if range.Err? { return Err(range.error); }
      assert files[file] in files;
      ReplayMore(Holds(file), offset, data);
      var added := WriteFile(files[file], file, offset, data);
      return Ok(added);
    }

    /** `read`: succeeds exactly when every byte asked for was written, with the bytes last written. */
    method Read(file: u32, offset: u64, buf: array<byte>) returns (r: Result<()>)
      requires Valid() && buf.Length <= U64_MAX && forall f | f in files :: buf !in f.blocks.Values
      modifies buf
      ensures r.Err? ==> buf[..] == old(buf[..])
      ensures match CheckRange(layout, file, offset, buf.Length)
              case Err(e) => r == Err(e)
              case Ok(_) =>
                && (r.Ok? <==> forall x: nat | offset as int <= x < offset as int + buf.Length :: x in Holds(file))
                && (r.Ok? ==> forall i | 0 <= i < buf.Length :: buf[i] == Holds(file)[offset as int + i])
                && (r.Err? ==> r.error == Missing)
    {
      var range := CheckRange(layout, file, offset, buf.Length);
      if range.Err? { return Err(range.error); }
      assert files[file] in files;
      r := files[file].Read(offset, buf);
      assert Holds(file) == files[file].Contents();
    }
  }

  ghost predicate Separate(f: MemoryFile, g: MemoryFile)
    reads f, g
  {
    f != g && f.extents != g.extents && f.blocks.Values !! g.blocks.Values
  }
}
