/**
 * Small streams, byte for byte, and what the parser makes of them: an initialization with one video and one audio
 * track, and fragments of a single one-byte sync sample.
 */
module Mp4Streams {
  import opened Bytes
  import opened Mp4Types
  import opened Mp4Parse
  import opened Mp4Write
  import opened Mp4Build
  import opened Mp4Reader
  import opened Mp4Runs

  // ----- boxes -----

  function Box(kind: u32, body: bytes): (r: bytes)
    requires |body| < 1000
    ensures |r| == 8 + |body| && r[..8] == Header(|r|, kind)
  {
    Header(8 + |body|, kind) + body
  }

  /** `tkhd` or `mdhd` of version 0: three words, then the identifier or the timescale. */
  function Fields(kind: u32, value: u32): (r: bytes)
    ensures |r| == 24
  {
    Box(kind, Be32(0) + Be32(0) + Be32(0) + Be32(value))
  }

  function Hdlr(handler: u32): (r: bytes)
    ensures |r| == 20
  {
    Box(HDLR, Be32(0) + Be32(0) + Be32(handler))
  }

  function Mdia(timescale: u32, handler: u32): (r: bytes)
    ensures |r| == 52
  {
    Box(MDIA, Fields(MDHD, timescale) + Hdlr(handler))
  }

  function Trak(id: u32, timescale: u32, handler: u32): (r: bytes)
    ensures |r| == 84
  {
    Box(TRAK, Fields(TKHD, id) + Mdia(timescale, handler))
  }

  /** Track 1 is video at one unit a second, track 2 audio at ten; neither has default durations. */
  function InitBytes(): (r: bytes)
    ensures |r| == 176
  {
    Box(MOOV, Trak(1, 1, HANDLER_VIDEO) + Trak(2, 10, HANDLER_AUDIO))
  }

  const VIDEO: TrackIds := TrackIds(1, 1, NO_TRACK.trex)
  const AUDIO: TrackIds := TrackIds(2, 10, NO_TRACK.trex)

  lemma NextOf(d: bytes, at: nat, box: bytes, kind: u32)
    requires 8 <= |box| <= I32_MAX && box[..8] == Header(|box|, kind) && at + |box| <= |d| && d[at..at + |box|] == box
    ensures TryReadBox(d, at) == Some(BoxRef(kind, 8, box, at + |box|))
    ensures Boxes(d, at) == [BoxRef(kind, 8, box, at + |box|)] + Boxes(d, at + |box|)
  {
    hide Header, TryReadBox, Boxes;
    ReadBoxBack(d, at, box, kind);
    BoxesStep(d, at);
  }

  lemma NoneLeft(d: bytes)
    ensures TryReadBox(d, |d|) == None && Boxes(d, |d|) == []
  {}

  /** A box of two boxes. */
  lemma TwoChildren(kind: u32, a: bytes, aKind: u32, b: bytes, bKind: u32)
    requires 8 <= |a| < 400 && a[..8] == Header(|a|, aKind) && 8 <= |b| < 400 && b[..8] == Header(|b|, bKind)
    ensures Boxes(Box(kind, a + b), 8) == [BoxRef(aKind, 8, a, 8 + |a|), BoxRef(bKind, 8, b, 8 + |a| + |b|)]
  {
    hide Header, Boxes, TryReadBox;
    var d := Box(kind, a + b);
    assert d[8..8 + |a|] == a;
    assert d[8 + |a|..8 + |a| + |b|] == b;
    NextOf(d, 8, a, aKind);
    NextOf(d, 8 + |a|, b, bKind);
    NoneLeft(d);
    assert Boxes(d, 8) == [BoxRef(aKind, 8, a, 8 + |a|)] + ([BoxRef(bKind, 8, b, 8 + |a| + |b|)] + []);
  }

  lemma FieldsRead(kind: u32, value: u32)
    ensures VersionedField(Fields(kind, value), 8) == value
  {
    hide Header;
    var d := Fields(kind, value);
    assert d[20..24] == Be32(value);
    assert d[8] == Be32(0)[0] == 0;
    ReadBe32Inverts(d, 20, value);
  }

  lemma HdlrReads(handler: u32)
    ensures ReadBe32(Hdlr(handler), 16) == handler
  {
    hide Header;
    var d := Hdlr(handler);
    assert d[16..20] == Be32(handler);
    ReadBe32Inverts(d, 16, handler);
  }

  lemma TrakReads(id: u32, timescale: u32, handler: u32)
    ensures TrackFields(Boxes(Trak(id, timescale, handler), 8), 0, 0, 0) == (id, timescale, handler)
  {
    hide Header, Boxes, VersionedField, Fields, Hdlr, Mdia, Box, ReadBe32;
    var mdhd, hdlr := Fields(MDHD, timescale), Hdlr(handler);
    BoxHeads(id, timescale, handler);
    TwoChildren(MDIA, mdhd, MDHD, hdlr, HDLR);
    TwoChildren(TRAK, Fields(TKHD, id), TKHD, Mdia(timescale, handler), MDIA);
    FieldsRead(TKHD, id);
    FieldsRead(MDHD, timescale);
    HdlrReads(handler);
    var media := Boxes(Mdia(timescale, handler), 8);
    assert media == [BoxRef(MDHD, 8, mdhd, 32), BoxRef(HDLR, 8, hdlr, 52)];
    assert media[1..] == [BoxRef(HDLR, 8, hdlr, 52)] && media[1..][1..] == [];
    assert MediaFields(media[1..], timescale, 0) == MediaFields([], timescale, handler) == (timescale, handler);
    assert MediaFields(media, 0, 0) == (timescale, handler);
    var boxes := Boxes(Trak(id, timescale, handler), 8);
    assert boxes == [BoxRef(TKHD, 8, Fields(TKHD, id), 32), BoxRef(MDIA, 8, Mdia(timescale, handler), 84)];
    assert boxes[1..] == [BoxRef(MDIA, 8, Mdia(timescale, handler), 84)] && boxes[1..][1..] == [];
    assert TrackFields(boxes[1..], id, 0, 0) == TrackFields([], id, timescale, handler) == (id, timescale, handler);
  }

  lemma BoxHeads(id: u32, timescale: u32, handler: u32)
    ensures |Fields(TKHD, id)| == 24 && Fields(TKHD, id)[..8] == Header(24, TKHD)
    ensures |Fields(MDHD, timescale)| == 24 && Fields(MDHD, timescale)[..8] == Header(24, MDHD)
    ensures |Hdlr(handler)| == 20 && Hdlr(handler)[..8] == Header(20, HDLR)
    ensures |Mdia(timescale, handler)| == 52 && Mdia(timescale, handler)[..8] == Header(52, MDIA)
    ensures Mdia(timescale, handler) == Box(MDIA, Fields(MDHD, timescale) + Hdlr(handler))
    ensures |Trak(id, timescale, handler)| == 84 && Trak(id, timescale, handler)[..8] == Header(84, TRAK)
    ensures Trak(id, timescale, handler) == Box(TRAK, Fields(TKHD, id) + Mdia(timescale, handler))
  {
    hide Header;
  }

  lemma InitReads()
    ensures ParseInitTracks(InitBytes()) == Ok((VIDEO, AUDIO))
  {
    hide Header, Boxes, Box, Trak;
    var v, a := Trak(1, 1, HANDLER_VIDEO), Trak(2, 10, HANDLER_AUDIO);
    BoxHeads(1, 1, HANDLER_VIDEO);
    BoxHeads(2, 10, HANDLER_AUDIO);
    var d := InitBytes();
    assert d[0..|d|] == d;
    NextOf(d, 0, d, MOOV);
    NoneLeft(d);
    assert Boxes(d, 0) == [BoxRef(MOOV, 8, d, |d|)];
    TwoChildren(MOOV, v, TRAK, a, TRAK);
    TrakReads(1, 1, HANDLER_VIDEO);
    TrakReads(2, 10, HANDLER_AUDIO);
    var boxes := Boxes(d, 8);
    assert boxes == [BoxRef(TRAK, 8, v, 92), BoxRef(TRAK, 8, a, 176)];
    assert boxes[1..] == [BoxRef(TRAK, 8, a, 176)] && boxes[1..][1..] == [];
    assert MoovFields(boxes[1..], InitTracks((1, 1), (0, 0), [])) == MoovFields([], InitTracks((1, 1), (2, 10), []));
    assert MoovFields(boxes, InitTracks((0, 0), (0, 0), [])) == Ok(InitTracks((1, 1), (2, 10), []));
  }

  // ----- fragments of one sample -----

  /** `tfhd` with description 1, a default duration, which may be absent as zero, and a default size of one. */
  function TfhdBytes(track: u32, duration: u32): (r: bytes)
    ensures |r| == 28
  {
    Box(TFHD, Be32(0x1A) + Be32(track) + Be32(1) + Be32(duration) + Be32(1))
  }

  /** `trun` with one sample and nothing said of it. */
  function TrunBytes(): (r: bytes)
    ensures |r| == 16
  {
    Box(TRUN, Be32(0) + Be32(1))
  }

  function TrafBytes(track: u32, time: u64, duration: u32): (r: bytes)
    ensures |r| == 72
  {
    Box(TRAF, TfhdBytes(track, duration) + Tfdt(time) + TrunBytes())
  }

  function MoofOf(track: u32, time: u64, duration: u32): (r: bytes)
    ensures |r| == 80
  {
    Box(MOOF, TrafBytes(track, time, duration))
  }

  function OneRun(duration: u32, inferred: bool): Run {
    Run(None, [Sample(duration, 1, 0, 0)], 0, false, duration, 1, 0, 0, true, inferred)
  }

  /** What the parser makes of it. */
  function OneSample(ids: TrackIds, time: u64, duration: u32, inferred: bool): Fragment {
    Fragment(ids.id, ids.timescale, time, duration, true, 1, CanonicalTfhd(ids.id, 1), [OneRun(duration, inferred)], 0, 0, inferred)
  }

  lemma TfhdReads(track: u32, duration: u32)
    requires track != 0
    ensures ParseTfhd(TfhdBytes(track, duration), 8) == Ok(Tfhd(track, Some(1), duration, 1, None))
  {
    hide Header, Be32, ReadBe32;
    var d := TfhdBytes(track, duration);
    assert d[8..12] == Be32(0x1A) && d[12..16] == Be32(track) && d[16..20] == Be32(1) && d[20..24] == Be32(duration)
        && d[24..28] == Be32(1);
    ReadBe32Inverts(d, 8, 0x1A);
    ReadBe32Inverts(d, 12, track);
    ReadBe32Inverts(d, 16, 1);
    ReadBe32Inverts(d, 20, duration);
    ReadBe32Inverts(d, 24, 1);
  }

  lemma TfdtReads(time: u64)
    ensures ReadTfdt(Tfdt(time), 8) == Some(time) && Tfdt(time)[..8] == Header(20, TFDT)
  {
    hide Header, Be64, ReadBe64;
    var d := Tfdt(time);
    assert d[8] == Be32(0x100_0000)[0] == 1;
    assert d[12..20] == Be64(time);
    ReadBe64Inverts(d, 12, time);
  }

  lemma TrunReads(t: TrunDefaults)
    requires t.duration != 0 && t.size == 1 && t.flags == 0
    ensures NormalizedTrun(TrunBytes(), 8, t) == Ok(OneRun(t.duration, t.durationIsHint))
  {
    hide Header, Be32, ReadBe32;
    var d := TrunBytes();
    assert d[8..12] == Be32(0) && d[12..16] == Be32(1);
    ReadBe32Inverts(d, 8, 0);
    ReadBe32Inverts(d, 12, 1);
    var l := TrunLayout(false, false, false, false, None);
    assert ReadTrunHead(d, 8, t) == Ok(TrunHead(0, 1, None, l, 16));
    var samples := ReadSamples(d, 16, 1, t, l);
    assert samples == [Sample(t.duration, 1, 0, 0)];
    assert samples[..0] == [];
    assert SumDurations(samples) == t.duration && SumSizes(samples) == 1;
    assert EntriesSize(1, l) == 0;
    assert IsSyncSample(0);
  }

  lemma TrafBoxes(track: u32, time: u64, duration: u32)
    ensures var d := TrafBytes(track, time, duration);
            && TryReadBox(d, 8) == Some(BoxRef(TFHD, 8, TfhdBytes(track, duration), 36))
            && TryReadBox(d, 36) == Some(BoxRef(TFDT, 8, Tfdt(time), 56))
            && TryReadBox(d, 56) == Some(BoxRef(TRUN, 8, TrunBytes(), 72))
            && TryReadBox(d, 72) == None
  {
    hide Header, TryReadBox;
    var d := TrafBytes(track, time, duration);
    TfdtReads(time);
    assert d[8..36] == TfhdBytes(track, duration) && d[36..56] == Tfdt(time) && d[56..72] == TrunBytes();
    NextOf(d, 8, TfhdBytes(track, duration), TFHD);
    NextOf(d, 36, Tfdt(time), TFDT);
    NextOf(d, 56, TrunBytes(), TRUN);
    NoneLeft(d);
  }

  lemma TrafReads(track: u32, time: u64, duration: u32, videoHint: u32, audioHint: u32)
    requires track in {1, 2}
    requires duration != 0 || (if track == 1 then videoHint else audioHint) != 0
    ensures var hint := if track == 1 then videoHint else audioHint;
            ParsedTraf(TrafBytes(track, time, duration), 8, VIDEO, AUDIO, videoHint, audioHint)
            == Ok(OneSample(if track == 1 then VIDEO else AUDIO, time, if duration != 0 then duration else hint, duration == 0))
  {
    hide Header, TryReadBox, TfhdBytes, Tfdt, TrunBytes, TrafBytes, ParseTfhd, ReadTfdt, NormalizedTrun, CanonicalTfhd;
    var d := TrafBytes(track, time, duration);
    TrafBoxes(track, time, duration);
    TfhdReads(track, duration);
    TfdtReads(time);
    var hint := if track == 1 then videoHint else audioHint;
    var t := DefaultsFor(Tfhd(track, Some(1), duration, 1, None), NO_TRACK.trex, hint);
    TrunReads(t);
    var run := OneRun(t.duration, t.durationIsHint);
    assert TrafFields(d, 56, Some(Tfhd(track, Some(1), duration, 1, None)), Some(time))
        == Ok((Some(Tfhd(track, Some(1), duration, 1, None)), Some(time)));
    assert TrafFields(d, 8, None, None) == Ok((Some(Tfhd(track, Some(1), duration, 1, None)), Some(time)));
    assert TrafRuns(d, 72, t, run.duration) == Ok([]);
    assert TrafRuns(d, 56, t, 0) == Ok([run] + []);
    assert [run] + [] == [run];
    assert TrafRuns(d, 36, t, 0) == TrafRuns(d, 56, t, 0);
    assert TrafRuns(d, 8, t, 0) == TrafRuns(d, 36, t, 0) == Ok([run]);
    assert [run][..0] == [] && RunsDuration([run]) == run.duration;
    assert run in [run];
  }

  lemma MoofReads(track: u32, time: u64, duration: u32, videoHint: u32, audioHint: u32)
    requires track in {1, 2}
    requires duration != 0 || (if track == 1 then videoHint else audioHint) != 0
    ensures var hint := if track == 1 then videoHint else audioHint;
            ParsedMoof(MoofOf(track, time, duration), VIDEO, AUDIO, videoHint, audioHint)
            == Ok(OneSample(if track == 1 then VIDEO else AUDIO, time, if duration != 0 then duration else hint, duration == 0))
  {
    hide Header, TryReadBox, TrafBytes, ParsedTraf, OneSample;
    var d, traf := MoofOf(track, time, duration), TrafBytes(track, time, duration);
    TrafHead(track, time, duration);
    assert d[0..80] == d && d[8..80] == traf;
    NextOf(d, 0, d, MOOF);
    NextOf(d, 8, traf, TRAF);
    NoneLeft(d);
    TrafReads(track, time, duration, videoHint, audioHint);
    var f := ParsedTraf(traf, 8, VIDEO, AUDIO, videoHint, audioHint).value;
    assert MoofTraf(d, 80, Some(f), VIDEO, AUDIO, videoHint, audioHint) == Ok(Some(f));
  }

  lemma TrafHead(track: u32, time: u64, duration: u32)
    ensures |TrafBytes(track, time, duration)| == 72 && TrafBytes(track, time, duration)[..8] == Header(72, TRAF)
    ensures MoofOf(track, time, duration) == Box(MOOF, TrafBytes(track, time, duration))
    ensures MoofOf(track, time, duration)[..8] == Header(80, MOOF)
    ensures MoofOf(track, time, duration)[8..] == TrafBytes(track, time, duration)
  {
    hide Header;
  }
}
