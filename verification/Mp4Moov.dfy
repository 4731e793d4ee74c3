/**
 * Tracks of an initialization, written in any of the forms the standard allows (sections 8.2.1, 8.3.2, 8.4 and 8.8.3 of
 * ISO/IEC 14496-12): which initializations are accepted, and the tracks they declare.
 */
module Mp4Moov {
  import opened Bytes
  import opened Mp4Types
  import opened Mp4Parse
  import opened Mp4Write
  import opened Mp4Boxes
  import opened Mp4Encoded

  // ----- boxes and what they say -----

  /** `before` is what stands before the one field that is read, `rest` what stands behind it. */
  datatype MediaBox =
    | Mdhd(before: bytes, timescale: u32, rest: bytes, long: bool)
    | Hdlr(before: bytes, handler: u32, rest: bytes, long: bool)
    | OtherMedia(box: TopBox)

  datatype TrackBox =
    | Tkhd(before: bytes, id: u32, rest: bytes, long: bool)
    | Mdia(media: seq<MediaBox>, long: bool)
    | OtherTrack(box: TopBox)

  datatype MvexBox = TrexBox(before: bytes, id: u32, trex: Trex, rest: bytes, long: bool) | OtherMvex(box: TopBox)

  datatype MoovBox = Trak(children: seq<TrackBox>, long: bool) | Mvex(entries: seq<MvexBox>, long: bool) | OtherMoov(box: TopBox)

  /** Version, flags and two times of 32 bits, or of 64 in version 1. */
  predicate Times(before: bytes) { (|before| == 12 && before[0] == 0) || (|before| == 20 && before[0] == 1) }

  predicate MediaOk(m: MediaBox) {
    match m
    case Mdhd(before, _, _, _) => Times(before)
    case Hdlr(before, _, _, _) => |before| == 8
    case OtherMedia(b) => b.kind != MDHD && b.kind != HDLR
  }

  predicate TrackBoxOk(c: TrackBox) {
    match c
    case Tkhd(before, _, _, _) => Times(before)
    case Mdia(media, _) => forall i :: 0 <= i < |media| ==> MediaOk(media[i])
    case OtherTrack(b) => b.kind != TKHD && b.kind != MDIA
  }

  predicate MvexOk(e: MvexBox) {
    match e
    case TrexBox(before, _, _, _, _) => |before| == 4
    case OtherMvex(b) => b.kind != TREX
  }

  predicate MoovBoxOk(c: MoovBox) {
    match c
    case Trak(children, _) => forall i :: 0 <= i < |children| ==> TrackBoxOk(children[i])
    case Mvex(entries, _) => forall i :: 0 <= i < |entries| ==> MvexOk(entries[i])
    case OtherMoov(b) => b.kind != TRAK && b.kind != MVEX
  }

  function MediaBytes(m: MediaBox): TopBox {
    match m
    case Mdhd(before, timescale, rest, long) => TopBox(MDHD, long, before + Be32(timescale) + rest)
    case Hdlr(before, handler, rest, long) => TopBox(HDLR, long, before + Be32(handler) + rest)
    case OtherMedia(b) => b
  }

  function MediaBoxes(ms: seq<MediaBox>): seq<TopBox> {
    if ms == [] then [] else [MediaBytes(ms[0])] + MediaBoxes(ms[1..])
  }

  function TrackBytes(c: TrackBox): TopBox {
    match c
    case Tkhd(before, id, rest, long) => TopBox(TKHD, long, before + Be32(id) + rest)
    case Mdia(media, long) => TopBox(MDIA, long, BoxesBytes(MediaBoxes(media)))
    case OtherTrack(b) => b
  }

  function TrackBoxes(cs: seq<TrackBox>): seq<TopBox> {
    if cs == [] then [] else [TrackBytes(cs[0])] + TrackBoxes(cs[1..])
  }

  function MvexBytes(e: MvexBox): TopBox {
    match e
    case TrexBox(before, id, t, rest, long) =>
      TopBox(TREX, long, before + Be32(id) + Be32(t.descriptionIndex) + Be32(t.duration) + Be32(t.size) + Be32(t.flags) + rest)
    case OtherMvex(b) => b
  }

  function MvexBoxes(es: seq<MvexBox>): seq<TopBox> {
    if es == [] then [] else [MvexBytes(es[0])] + MvexBoxes(es[1..])
  }

  function MoovBytes(c: MoovBox): TopBox {
    match c
    case Trak(children, long) => TopBox(TRAK, long, BoxesBytes(TrackBoxes(children)))
    case Mvex(entries, long) => TopBox(MVEX, long, BoxesBytes(MvexBoxes(entries)))
    case OtherMoov(b) => b
  }

  function MoovBoxes(cs: seq<MoovBox>): seq<TopBox> {
    if cs == [] then [] else [MoovBytes(cs[0])] + MoovBoxes(cs[1..])
  }

  // ----- what a track means -----

  /** The timescale given last, `otherwise` if none is. */
  function TimescaleOf(ms: seq<MediaBox>, otherwise: u32): u32 {
    if ms == [] then otherwise else
    var last := ms[|ms| - 1];
    if last.Mdhd? then last.timescale else TimescaleOf(ms[..|ms| - 1], otherwise)
  }

  function HandlerOf(ms: seq<MediaBox>, otherwise: u32): u32 {
    if ms == [] then otherwise else
    var last := ms[|ms| - 1];
    if last.Hdlr? then last.handler else HandlerOf(ms[..|ms| - 1], otherwise)
  }

  function IdOf(cs: seq<TrackBox>, otherwise: u32): u32 {
    if cs == [] then otherwise else
    var last := cs[|cs| - 1];
    if last.Tkhd? then last.id else IdOf(cs[..|cs| - 1], otherwise)
  }

  function AllMedia(cs: seq<TrackBox>): seq<MediaBox> {
    if cs == [] then [] else (if cs[0].Mdia? then cs[0].media else []) + AllMedia(cs[1..])
  }

  /** The track itself, if it has that handler. */
  function Itself(c: MoovBox, handler: u32): seq<(u32, u32)> {
    if c.Trak? && HandlerOf(AllMedia(c.children), 0) == handler
    then [(IdOf(c.children, 0), TimescaleOf(AllMedia(c.children), 0))] else []
  }

  /** Identifier and timescale of the tracks with the given handler. */
  function TracksOf(cs: seq<MoovBox>, handler: u32): seq<(u32, u32)> {
    if cs == [] then [] else
    Itself(cs[0], handler) + TracksOf(cs[1..], handler)
  }

  function EntriesOf(es: seq<MvexBox>): seq<(u32, Trex)> {
    if es == [] then [] else (if es[0].TrexBox? then [(es[0].id, es[0].trex)] else []) + EntriesOf(es[1..])
  }

  function AllEntries(cs: seq<MoovBox>): seq<(u32, Trex)> {
    if cs == [] then [] else (if cs[0].Mvex? then EntriesOf(cs[0].entries) else []) + AllEntries(cs[1..])
  }

  // ----- reading -----

  lemma {:induction false} TimescaleBehind(m: MediaBox, rest: seq<MediaBox>, otherwise: u32)
    ensures TimescaleOf([m] + rest, otherwise) == TimescaleOf(rest, if m.Mdhd? then m.timescale else otherwise)
  {
    var all := [m] + rest;
    if rest == [] {
      assert all[..0] == [];
    } else {
      assert all[..|all| - 1] == [m] + rest[..|rest| - 1];
      TimescaleBehind(m, rest[..|rest| - 1], otherwise);
    }
  }

  lemma {:induction false} HandlerBehind(m: MediaBox, rest: seq<MediaBox>, otherwise: u32)
    ensures HandlerOf([m] + rest, otherwise) == HandlerOf(rest, if m.Hdlr? then m.handler else otherwise)
  {
    var all := [m] + rest;
    if rest == [] {
      assert all[..0] == [];
    } else {
      assert all[..|all| - 1] == [m] + rest[..|rest| - 1];
      HandlerBehind(m, rest[..|rest| - 1], otherwise);
    }
  }

  lemma {:induction false} IdBehind(c: TrackBox, rest: seq<TrackBox>, otherwise: u32)
    ensures IdOf([c] + rest, otherwise) == IdOf(rest, if c.Tkhd? then c.id else otherwise)
  {
    var all := [c] + rest;
    if rest == [] {
      assert all[..0] == [];
    } else {
      assert all[..|all| - 1] == [c] + rest[..|rest| - 1];
      IdBehind(c, rest[..|rest| - 1], otherwise);
    }
  }

  lemma {:induction false} MediaJoin(a: seq<MediaBox>, b: seq<MediaBox>, timescale: u32, handler: u32)
    ensures TimescaleOf(a + b, timescale) == TimescaleOf(b, TimescaleOf(a, timescale))
    ensures HandlerOf(a + b, handler) == HandlerOf(b, HandlerOf(a, handler))
  {
    if b == [] {
      assert a + b == a;
    } else {
      assert (a + b)[..|a + b| - 1] == a + b[..|b| - 1];
      MediaJoin(a, b[..|b| - 1], timescale, handler);
    }
  }

  lemma FieldStands(before: bytes, v: u32, rest: bytes)
    ensures (before + Be32(v) + rest)[|before|..|before| + 4] == Be32(v)
  {}

  lemma VersionedReads(b: TopBox, before: bytes, v: u32, rest: bytes)
    requires Times(before) && b.body == before + Be32(v) + rest
    ensures VersionedField(BoxBytes(b), HeadSize(b)) == v
  {
    hide BoxHead, Be32, ReadBe32;
    BoxLength(b);
    FieldStands(before, v, rest);
    BeLength(v);
    WordReads(b, |before|, v);
    assert BoxBytes(b)[HeadSize(b)] == before[0];
  }

  lemma BeLength(v: u32)
    ensures |Be32(v)| == 4
  {}

  /** One more box of the list. */
  lemma BoxesStart(d: bytes, at: nat, bs: seq<TopBox>)
    requires at <= |d| <= I32_MAX && d[at..] == BoxesBytes(bs)
    ensures bs == [] ==> Boxes(d, at) == []
    ensures bs != [] ==>
              var next := at + |BoxBytes(bs[0])|;
              && next <= |d| && d[next..] == BoxesBytes(bs[1..])
              && Boxes(d, at) == [BoxRef(bs[0].kind, HeadSize(bs[0]), BoxBytes(bs[0]), next)] + Boxes(d, next)
  {
    hide BoxBytes, TryReadBox, BoxesBytes;
    NextFound(d, at, bs);
  }

  lemma {:induction false} MediaRead(d: bytes, at: nat, ms: seq<MediaBox>, timescale: u32, handler: u32)
    requires (forall i :: 0 <= i < |ms| ==> MediaOk(ms[i])) && at <= |d| <= I32_MAX && d[at..] == BoxesBytes(MediaBoxes(ms))
    ensures MediaFields(Boxes(d, at), timescale, handler) == (TimescaleOf(ms, timescale), HandlerOf(ms, handler))
    decreases |ms|
  {
    hide BoxBytes, BoxesBytes, Boxes, VersionedField, ReadBe32, Be32, Times;
    BoxesStart(d, at, MediaBoxes(ms));
    if ms != [] {
      var m, rest := ms[0], ms[1..];
      var b := MediaBytes(m);
      var next := at + |BoxBytes(b)|;
      assert ms == [m] + rest && MediaBoxes(ms)[1..] == MediaBoxes(rest);
      var found := [BoxRef(b.kind, HeadSize(b), BoxBytes(b), next)];
      assert (found + Boxes(d, next))[1..] == Boxes(d, next);
      TimescaleBehind(m, rest, timescale);
      HandlerBehind(m, rest, handler);
      match m
      case Mdhd(before, v, tail, _) =>
        VersionedReads(b, before, v, tail);
        MediaRead(d, next, rest, v, handler);
      case Hdlr(before, v, tail, _) =>
        FieldStands(before, v, tail);
        BeLength(v);
        BoxLength(b);
        WordReads(b, 8, v);
        MediaRead(d, next, rest, timescale, v);
      case OtherMedia(_) =>
        MediaRead(d, next, rest, timescale, handler);
    }
  }

  lemma {:induction false} TrackRead(d: bytes, at: nat, cs: seq<TrackBox>, id: u32, timescale: u32, handler: u32)
    requires (forall i :: 0 <= i < |cs| ==> TrackBoxOk(cs[i])) && at <= |d| <= I32_MAX && d[at..] == BoxesBytes(TrackBoxes(cs))
    ensures TrackFields(Boxes(d, at), id, timescale, handler)
         == (IdOf(cs, id), TimescaleOf(AllMedia(cs), timescale), HandlerOf(AllMedia(cs), handler))
    decreases |cs|
  {
    hide BoxBytes, BoxesBytes, Boxes, VersionedField, MediaFields, MediaOk, TimescaleOf, HandlerOf, Times;
    BoxesStart(d, at, TrackBoxes(cs));
    if cs == [] {
      NoMedia(timescale, handler);
    } else {
      var c, rest := cs[0], cs[1..];
      var b := TrackBytes(c);
      var next := at + |BoxBytes(b)|;
      assert cs == [c] + rest && TrackBoxes(cs)[1..] == TrackBoxes(rest);
      var found := [BoxRef(b.kind, HeadSize(b), BoxBytes(b), next)];
      assert (found + Boxes(d, next))[1..] == Boxes(d, next);
      IdBehind(c, rest, id);
      match c
      case Tkhd(before, v, tail, _) =>
        assert AllMedia(cs) == AllMedia(rest);
        VersionedReads(b, before, v, tail);
        TrackRead(d, next, rest, v, timescale, handler);
      case Mdia(media, _) =>
        Inside(d, b);
        MediaRead(BoxBytes(b), HeadSize(b), media, timescale, handler);
        MediaJoin(media, AllMedia(rest), timescale, handler);
        TrackRead(d, next, rest, id, TimescaleOf(media, timescale), HandlerOf(media, handler));
      case OtherTrack(_) =>
        assert AllMedia(cs) == AllMedia(rest);
        TrackRead(d, next, rest, id, timescale, handler);
    }
  }

  lemma NoMedia(timescale: u32, handler: u32)
    ensures TimescaleOf([], timescale) == timescale && HandlerOf([], handler) == handler
  {}

  /** A box inside another fits, and its body is what is read. */
  lemma Inside(d: bytes, b: TopBox)
    requires |BoxBytes(b)| <= |d| <= I32_MAX
    ensures HeadSize(b) <= |BoxBytes(b)| <= I32_MAX && BoxBytes(b)[HeadSize(b)..] == b.body
  {
    BodyTail(b, 0);
  }

  // ----- the `trex` boxes -----

  predicate EntriesOk(es: seq<(u32, Trex)>) { forall i :: 0 <= i < |es| ==> es[i].0 != 0 && es[i].1.descriptionIndex != 0 }

  lemma TrexWords(before: bytes, id: u32, t: Trex, rest: bytes)
    requires |before| == 4
    ensures var s := before + Be32(id) + Be32(t.descriptionIndex) + Be32(t.duration) + Be32(t.size) + Be32(t.flags) + rest;
            && |s| >= 24 && s[4..8] == Be32(id) && s[8..12] == Be32(t.descriptionIndex) && s[12..16] == Be32(t.duration)
            && s[16..20] == Be32(t.size) && s[20..24] == Be32(t.flags)
  {}

  lemma TrexReads(e: MvexBox)
    requires MvexOk(e) && e.TrexBox?
    ensures ReadTrex(BoxBytes(MvexBytes(e)), HeadSize(MvexBytes(e)))
         == if e.id == 0 || e.trex.descriptionIndex == 0 then None else Some((e.id, e.trex))
  {
    hide BoxHead, BoxBytes, Be32, ReadBe32;
    var b := MvexBytes(e);
    BoxLength(b);
    TrexWords(e.before, e.id, e.trex, e.rest);
    WordReads(b, 4, e.id);
    WordReads(b, 8, e.trex.descriptionIndex);
    WordReads(b, 12, e.trex.duration);
    WordReads(b, 16, e.trex.size);
    WordReads(b, 20, e.trex.flags);
  }

  lemma EntriesFirst(a: seq<(u32, Trex)>, b: seq<(u32, Trex)>)
    ensures EntriesOk(a + b) == (EntriesOk(a) && EntriesOk(b))
  {
    var all := a + b;
    if EntriesOk(all) {
      forall i | 0 <= i < |a| ensures a[i].0 != 0 && a[i].1.descriptionIndex != 0 { assert all[i] == a[i]; }
      forall i | 0 <= i < |b| ensures b[i].0 != 0 && b[i].1.descriptionIndex != 0 { assert all[|a| + i] == b[i]; }
    }
  }

  lemma {:induction false} MvexRead(d: bytes, at: nat, es: seq<MvexBox>, found: seq<(u32, Trex)>)
    requires (forall i :: 0 <= i < |es| ==> MvexOk(es[i])) && at <= |d| <= I32_MAX && d[at..] == BoxesBytes(MvexBoxes(es))
    ensures TrexEntries(Boxes(d, at), found) == if EntriesOk(EntriesOf(es)) then Ok(found + EntriesOf(es)) else Err(InvalidTrex)
    decreases |es|
  {
    hide BoxBytes, BoxesBytes, Boxes, ReadTrex, Be32;
    BoxesStart(d, at, MvexBoxes(es));
    if es == [] {
      assert found + [] == found;
    } else {
      var e, rest := es[0], es[1..];
      var b := MvexBytes(e);
      var next := at + |BoxBytes(b)|;
      assert MvexBoxes(es)[1..] == MvexBoxes(rest);
      var ref := [BoxRef(b.kind, HeadSize(b), BoxBytes(b), next)];
      assert (ref + Boxes(d, next))[1..] == Boxes(d, next);
      if e.TrexBox? {
        TrexReads(e);
        var one := [(e.id, e.trex)];
        EntriesFirst(one, EntriesOf(rest));
        assert EntriesOk(one) == (e.id != 0 && e.trex.descriptionIndex != 0) by {
          assert one[0] == (e.id, e.trex);
        }
        assert found + one + EntriesOf(rest) == found + (one + EntriesOf(rest));
        MvexRead(d, next, rest, found + one);
      } else {
        assert EntriesOf(es) == EntriesOf(rest);
        MvexRead(d, next, rest, found);
      }
    }
  }

  // ----- moov -----

  /** No track before the last has an identifier. */
  predicate OnlyLast(ts: seq<(u32, u32)>) { forall i :: 0 <= i < |ts| - 1 ==> ts[i].0 == 0 }

  lemma OnlyLastFirst(a: (u32, u32), b: (u32, u32), rest: seq<(u32, u32)>)
    ensures OnlyLast([a] + ([b] + rest)) == (a.0 == 0 && OnlyLast([b] + rest))
    ensures ([a] + ([b] + rest))[|rest| + 1] == ([b] + rest)[|rest|]
  {
    var all, tail := [a] + ([b] + rest), [b] + rest;
    assert all[0] == a && forall i | 0 <= i < |tail| :: all[i + 1] == tail[i];
    if OnlyLast(all) {
      forall i | 0 <= i < |tail| - 1 ensures tail[i].0 == 0 { assert all[i + 1].0 == 0; }
    }
  }

  /** Tracks and entries as one list each, `trex` being those found before. */
  ghost predicate Reads(
    r: Result<InitTracks>, vs: seq<(u32, u32)>, ts: seq<(u32, u32)>, trex: seq<(u32, Trex)>, es: seq<(u32, Trex)>)
    requires vs != [] && ts != []
  {
    && (r.Ok? <==> OnlyLast(vs) && OnlyLast(ts) && EntriesOk(es))
    && (r.Ok? ==> r.value == InitTracks(vs[|vs| - 1], ts[|ts| - 1], trex + es))
  }

  /** What reading on from `t` comes to. */
  ghost predicate ReadAs(r: Result<InitTracks>, t: InitTracks, cs: seq<MoovBox>) {
    Reads(r, [t.video] + TracksOf(cs, HANDLER_VIDEO), [t.audio] + TracksOf(cs, HANDLER_AUDIO), t.trex, AllEntries(cs))
  }

  lemma VideoStep(r: Result<InitTracks>, v: (u32, u32), track: (u32, u32), vs: seq<(u32, u32)>, ts: seq<(u32, u32)>,
                  trex: seq<(u32, Trex)>, es: seq<(u32, Trex)>)
    requires ts != [] && (if v.0 != 0 then r.Err? else Reads(r, [track] + vs, ts, trex, es))
    ensures Reads(r, [v] + ([track] + vs), ts, trex, es)
  {
    hide OnlyLast, EntriesOk;
    OnlyLastFirst(v, track, vs);
  }

  lemma AudioStep(r: Result<InitTracks>, a: (u32, u32), track: (u32, u32), vs: seq<(u32, u32)>, ts: seq<(u32, u32)>,
                  trex: seq<(u32, Trex)>, es: seq<(u32, Trex)>)
    requires vs != [] && (if a.0 != 0 then r.Err? else Reads(r, vs, [track] + ts, trex, es))
    ensures Reads(r, vs, [a] + ([track] + ts), trex, es)
  {
    hide OnlyLast, EntriesOk;
    OnlyLastFirst(a, track, ts);
  }

  lemma EntryStep(r: Result<InitTracks>, vs: seq<(u32, u32)>, ts: seq<(u32, u32)>, trex: seq<(u32, Trex)>,
                  a: seq<(u32, Trex)>, b: seq<(u32, Trex)>)
    requires vs != [] && ts != [] && (if EntriesOk(a) then Reads(r, vs, ts, trex + a, b) else r.Err?)
    ensures Reads(r, vs, ts, trex, a + b)
  {
    hide OnlyLast, EntriesOk;
    EntriesFirst(a, b);
    assert trex + a + b == trex + (a + b);
  }

  lemma ReadNothing(t: InitTracks)
    ensures ReadAs(Ok(t), t, [])
  {
    assert t.trex + [] == t.trex;
  }

  lemma TracksFirst(c: MoovBox, rest: seq<MoovBox>, handler: u32)
    ensures TracksOf([c] + rest, handler) == Itself(c, handler) + TracksOf(rest, handler)
    ensures Itself(c, handler) == [] ==> TracksOf([c] + rest, handler) == TracksOf(rest, handler)
    ensures c.Trak? ==> AllEntries([c] + rest) == AllEntries(rest)
  {
    assert ([c] + rest)[1..] == rest;
  }

  lemma ReadTrack(r: Result<InitTracks>, t: InitTracks, c: MoovBox, rest: seq<MoovBox>)
    requires c.Trak?
    requires var track := (IdOf(c.children, 0), TimescaleOf(AllMedia(c.children), 0));
             var handler := HandlerOf(AllMedia(c.children), 0);
             if handler == HANDLER_VIDEO then
               if t.video.0 != 0 then r.Err? else ReadAs(r, t.(video := track), rest)
             else if handler == HANDLER_AUDIO then
               if t.audio.0 != 0 then r.Err? else ReadAs(r, t.(audio := track), rest)
             else ReadAs(r, t, rest)
    ensures ReadAs(r, t, [c] + rest)
  {
    hide IdOf, TimescaleOf, HandlerOf, AllMedia, Reads, TracksOf, AllEntries;
    TracksFirst(c, rest, HANDLER_VIDEO);
    TracksFirst(c, rest, HANDLER_AUDIO);
    var track := (IdOf(c.children, 0), TimescaleOf(AllMedia(c.children), 0));
    var videos, audios := TracksOf(rest, HANDLER_VIDEO), TracksOf(rest, HANDLER_AUDIO);
    var es := AllEntries(rest);
    if HandlerOf(AllMedia(c.children), 0) == HANDLER_VIDEO {
      VideoStep(r, t.video, track, videos, [t.audio] + audios, t.trex, es);
    } else if HandlerOf(AllMedia(c.children), 0) == HANDLER_AUDIO {
      AudioStep(r, t.audio, track, [t.video] + videos, audios, t.trex, es);
    }
  }

  lemma ReadOther(r: Result<InitTracks>, t: InitTracks, c: MoovBox, rest: seq<MoovBox>)
    requires !c.Trak?
    requires if c.Mvex? then
               if EntriesOk(EntriesOf(c.entries)) then ReadAs(r, t.(trex := t.trex + EntriesOf(c.entries)), rest) else r.Err?
             else ReadAs(r, t, rest)
    ensures ReadAs(r, t, [c] + rest)
  {
    hide EntriesOk, EntriesOf, TracksOf, Reads;
    TracksFirst(c, rest, HANDLER_VIDEO);
    TracksFirst(c, rest, HANDLER_AUDIO);
    assert ([c] + rest)[1..] == rest;
    var vs, ts := [t.video] + TracksOf(rest, HANDLER_VIDEO), [t.audio] + TracksOf(rest, HANDLER_AUDIO);
    if c.Mvex? {
      EntryStep(r, vs, ts, t.trex, EntriesOf(c.entries), AllEntries(rest));
    } else {
      assert AllEntries([c] + rest) == AllEntries(rest);
    }
  }

  lemma {:induction false} MoovRead(d: bytes, at: nat, cs: seq<MoovBox>, t: InitTracks)
    requires (forall i :: 0 <= i < |cs| ==> MoovBoxOk(cs[i])) && at <= |d| <= I32_MAX && d[at..] == BoxesBytes(MoovBoxes(cs))
    ensures ReadAs(MoovFields(Boxes(d, at), t), t, cs)
    decreases |cs|
  {
    hide BoxBytes, BoxesBytes, Boxes, TrackFields, TrexEntries, TrackBoxOk, MvexOk, ReadAs, IdOf, TimescaleOf, HandlerOf, AllMedia;
    BoxesStart(d, at, MoovBoxes(cs));
    if cs == [] {
      ReadNothing(t);
    } else {
      var c, rest := cs[0], cs[1..];
      var b := MoovBytes(c);
      var next := at + |BoxBytes(b)|;
      assert cs == [c] + rest && MoovBoxes(cs)[1..] == MoovBoxes(rest);
      var ref := [BoxRef(b.kind, HeadSize(b), BoxBytes(b), next)];
      assert (ref + Boxes(d, next))[1..] == Boxes(d, next);
      var r := MoovFields(Boxes(d, at), t);
      if c.Trak? {
        Inside(d, b);
        TrackRead(BoxBytes(b), HeadSize(b), c.children, 0, 0, 0);
        var id, timescale := IdOf(c.children, 0), TimescaleOf(AllMedia(c.children), 0);
        MoovRead(d, next, rest, t.(video := (id, timescale)));
        MoovRead(d, next, rest, t.(audio := (id, timescale)));
        MoovRead(d, next, rest, t);
        ReadTrack(r, t, c, rest);
      } else {
        if c.Mvex? {
          Inside(d, b);
          MvexRead(BoxBytes(b), HeadSize(b), c.entries, t.trex);
          MoovRead(d, next, rest, t.(trex := t.trex + EntriesOf(c.entries)));
        } else {
          MoovRead(d, next, rest, t);
        }
        ReadOther(r, t, c, rest);
      }
    }
  }

  // ----- the initialization -----

  lemma {:induction false} MoovFound(d: bytes, at: nat, before: seq<TopBox>, moov: TopBox, after: seq<TopBox>)
    requires (forall i :: 0 <= i < |before| ==> before[i].kind != MOOV) && moov.kind == MOOV
    requires at <= |d| <= I32_MAX && d[at..] == BoxesBytes(before + [moov] + after)
    ensures var r := FindMoov(Boxes(d, at));
            && |BoxBytes(moov)| <= |d| && r.Some? && r.value.body == BoxBytes(moov) && r.value.header == HeadSize(moov)
    decreases |before|
  {
    hide BoxBytes, BoxesBytes, Boxes;
    var bs := before + [moov] + after;
    BoxesStart(d, at, bs);
    var next := at + |BoxBytes(bs[0])|;
    var ref := [BoxRef(bs[0].kind, HeadSize(bs[0]), BoxBytes(bs[0]), next)];
    assert (ref + Boxes(d, next))[1..] == Boxes(d, next);
    if before == [] {
      assert bs[0] == moov;
    } else {
      assert bs[0] == before[0] && bs[1..] == before[1..] + [moov] + after;
      MoovFound(d, next, before[1..], moov, after);
    }
  }

  /** The first entry of the track, or none. */
  ghost predicate FirstEntry(es: seq<(u32, Trex)>, id: u32, t: Trex) {
    || (exists i :: 0 <= i < |es| && es[i] == (id, t) && forall j :: 0 <= j < i ==> es[j].0 != id)
    || ((forall j :: 0 <= j < |es| ==> es[j].0 != id) && t == Trex(0, 0, 0, 0))
  }

  lemma {:induction false} TrexForIsFirst(es: seq<(u32, Trex)>, id: u32)
    ensures FirstEntry(es, id, TrexFor(es, id))
  {
    if es != [] {
      var rest := es[1..];
      if es[0].0 == id {
        assert es[0] == (id, es[0].1);
      } else {
        TrexForIsFirst(rest, id);
        var t := TrexFor(rest, id);
        if i :| 0 <= i < |rest| && rest[i] == (id, t) && forall j :: 0 <= j < i ==> rest[j].0 != id {
          assert es[i + 1] == (id, t);
          forall j | 0 <= j < i + 1 ensures es[j].0 != id { if j > 0 { assert rest[j - 1].0 != id; } }
        } else {
          forall j | 0 <= j < |es| ensures es[j].0 != id { if j > 0 { assert rest[j - 1].0 != id; } }
        }
      }
    }
  }

  /** The last track of the list; the one numbered zero stands for none. */
  function LastOf(ts: seq<(u32, u32)>): (u32, u32) { if ts == [] then (0, 0) else ts[|ts| - 1] }

  /**
   * An initialization is accepted exactly when it has one video track with an identifier and a timescale, at most one
   * audio track with an identifier, that one with a timescale, and only sound `trex` boxes; the tracks are then those, each
   * with the defaults of its first `trex`.
   */
  lemma InitMeans(before: seq<TopBox>, cs: seq<MoovBox>, after: seq<TopBox>, long: bool)
    requires (forall i :: 0 <= i < |cs| ==> MoovBoxOk(cs[i])) && forall i :: 0 <= i < |before| ==> before[i].kind != MOOV
    requires |BoxesBytes(before + [TopBox(MOOV, long, BoxesBytes(MoovBoxes(cs)))] + after)| <= I32_MAX
    ensures var r := ParseInitTracks(BoxesBytes(before + [TopBox(MOOV, long, BoxesBytes(MoovBoxes(cs)))] + after));
            var videos, audios := TracksOf(cs, HANDLER_VIDEO), TracksOf(cs, HANDLER_AUDIO);
            var video, audio := LastOf(videos), LastOf(audios);
            && (r.Ok? <==>
                  && OnlyLast(videos) && OnlyLast(audios) && EntriesOk(AllEntries(cs))
                  && video.0 != 0 && video.1 != 0 && (audio.0 != 0 ==> audio.1 != 0))
            && (r.Ok? ==>
                  && (r.value.0.id, r.value.0.timescale) == video && FirstEntry(AllEntries(cs), video.0, r.value.0.trex)
                  && (if audio.0 == 0 then r.value.1 == NO_TRACK
                      else (r.value.1.id, r.value.1.timescale) == audio && FirstEntry(AllEntries(cs), audio.0, r.value.1.trex)))
  {
    hide BoxBytes, Boxes, MoovFields, OnlyLast, EntriesOk, AllEntries, TracksOf, FirstEntry, TrexFor, MoovBoxOk;
    var moov := TopBox(MOOV, long, BoxesBytes(MoovBoxes(cs)));
    var d := BoxesBytes(before + [moov] + after);
    assert d[0..] == d;
    MoovFound(d, 0, before, moov, after);
    Inside(d, moov);
    var none := InitTracks((0, 0), (0, 0), []);
    MoovRead(BoxBytes(moov), HeadSize(moov), cs, none);
    var videos, audios := TracksOf(cs, HANDLER_VIDEO), TracksOf(cs, HANDLER_AUDIO);
    WithNone(videos);
    WithNone(audios);
    assert [] + AllEntries(cs) == AllEntries(cs);
    TrexForIsFirst(AllEntries(cs), LastOf(videos).0);
    TrexForIsFirst(AllEntries(cs), LastOf(audios).0);
  }

  lemma WithNone(ts: seq<(u32, u32)>)
    ensures var all := [(0, 0)] + ts; OnlyLast(all) == OnlyLast(ts) && all[|all| - 1] == LastOf(ts)
  {
    var all: seq<(u32, u32)> := [(0, 0)] + ts;
    assert forall i | 0 <= i < |ts| :: all[i + 1] == ts[i];
    if OnlyLast(all) {
      forall i | 0 <= i < |ts| - 1 ensures ts[i].0 == 0 { assert all[i + 1].0 == 0; }
    }
  }
}
