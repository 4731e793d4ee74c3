# Rustorr, modelled and proved

Rustorr serves torrents as HTTP streams. This project models the parts of it whose correctness is hardest to see from
any one function, and proves what they promise:

- **The fragmented-MP4 resegmenter** (`mp4box.rs`, modules `Mp4*`). It reads `moof`/`mdat` pairs from byte chunks cut
  anywhere, queues the fragments of two tracks in one shared, drained and rebased buffer, cuts segments at sync samples,
  splits audio sample by sample and writes a `moof` whose sizes and offsets are computed before anything is written.
  `Mp4Class.BoxReader` is the reader as a class whose methods update its fields; every method is proved equal to a step
  function on its state (`Mp4Reader`), and the theorems are about runs of those functions. Box layouts follow
  ISO/IEC 14496-12, sections 4.2 and 8.8.
- **The piece cache** (modules `Cache*`). Interval sets against sets of bytes, a block map against a byte map, a printed
  manifest against its parser, a crash-safe order of file writes as a step machine, and the cache's counts, pins and
  eviction while the store works outside its lock.
- **The DNS message writer and reader** (modules `Dns*`): suffix sharing by back-pointers, sections 4.1 and 4.1.4 of
  RFC 1035.
- **The JSON first-value scanner** (modules `Json*`): an explicit-stack automaton against the grammar of sections 2 to 7
  of RFC 8259, on bytes.
- **Timelines and the calendar** (`Ebml`, `CueTimeline`, `HlsPlaylist`, `CivilDate`): EBML elements (sections 4 to 6 of
  RFC 8794), cue segments (section 5.1.5 of RFC 9559), playlist items (sections 4.3.2.1 and 4.3.3.1 of RFC 8216) and
  civil dates by division.

Code that changes state is a class or a method with loops, proved against a function of the old state; code that
computes is a function. Integers carry their Rust widths as subset types (`u16`, `u32`, `u64`), a checked operation is
an explicit error, and unchecked `u64` arithmetic is `Wrap64`.

`dafny verify dfyconfig.toml` checks everything.

## Where the code and what is said about it differ

The model follows the code. Each difference has its exact condition and a lemma at an input where it shows.

- Where a stream is cut can matter. Only the next `moof` of its track tells how long an audio sample without a known
  duration lasts, and a segment that this makes due comes out at the next cut or with the next payload, whichever is
  first. `Mp4Chunks.ChunkIndependence` says exactly which streams give the same however they are cut;
  `Mp4Inferred.LostSegment` is a stream, byte for byte, that gives a segment in two pushes and none in one. An audio
  track that declares a default duration is always safe (`Mp4Timed.TimedChunks`).
- A `traf` the resegmenter writes is refused by its own parser when a run lasts no time, and in no other case
  (`TrafRoundTrip`). `Mp4Inferred.ZeroDurationIsQueued` is a stream that leads there.
- `extents.rs:19-21` calls touching spans refused; the code accepts and merges them, and accepts empty spans
  (`TouchingSpansAreAccepted`; `FromSpans` says exactly which lists are accepted).
- A disk write records the new bytes in memory before it saves the manifest; when saving fails, the bytes are stored but
  never counted (`LateFailureIsNotCounted`). A disk remove forgets the torrent before it removes the directory; when that
  fails, its entry stays counted and a second remove reports bytes the store no longer knows
  (`FailedRemoveIsStillCounted`). `CountsAreExact` says the counts are exact if and only if neither touched the torrent,
  and `StatsAreExact` says the same of the sum at rest.
- A playlist lists segments that `validate_segment_index` refuses when the configured length does not fit in 64-bit
  nanoseconds, since nothing bounds it from above (`LongLengthIsListedButRefused`; `AcceptedMeansListed` has the exact
  condition). For some such lengths the count is a division by zero (`SomeLengthsHaveNoCount`).
- With an unknown duration the last listed item is shorter than its subtitle range, unless the assumed duration is a
  multiple of the segment length (`ItemsMatchSubtitles`, both directions; `LastItemEndsBeforeItsSubtitles`).
- A DNS name shortened in several steps can need more than the 128 steps `read_name` takes, though it has at most 127
  labels. `PackParses` says exactly which messages are read back; 63 labels are always few enough when suffixes are
  shared (`ShortNamesParse`), and nested names of one-letter labels are lost from 65 on (`NestedNamesAreLost`).
- An EBML identifier that does not announce its own length is not read back (`OtherIdsAreLost`).

## Model

| member | source | states |
|---|---|---|
| Mp4Chunks.ChunkIndependence | crates/rustorr-gstreamer/src/mp4box.rs:338-382 | Every way of cutting a stream into pushes gives a caller who drains after each, and asks once more at the end, the segments, final reader or error of one single push, if and only if whenever a segment is due before the payload of an audio fragment is in, that payload comes before any error and before any other box kept with the segment. |
| Mp4Chunks.DriveIsChunked | crates/rustorr-gstreamer/src/mp4box.rs:338-382 | For every stream, pushing chunks and draining is reading single bytes, building at the start of each chunk and at the end. |
| Mp4Chunks.BuildAnywhere | crates/rustorr-gstreamer/src/mp4box.rs:822-837 | In an undisturbed run, building before any byte changes neither the segments nor the final reader. |
| Mp4Chunks.DisturbedShows | crates/rustorr-gstreamer/src/mp4box.rs:467-684 | In a disturbed run there is a place where one cut gives another outcome. |
| Mp4Early.StepAhead | crates/rustorr-gstreamer/src/mp4box.rs:467-684 | Any byte accepted while a segment is due has the same effect before and after building it: the segment stays due, or comes out with the payload and then whatever else is due. |
| Mp4Early.MdatJoins | crates/rustorr-gstreamer/src/mp4box.rs:798-837 | Building before the waiting audio fragment gets its payload gives the same segment or error, queues and buffer as building afterwards. |
| Mp4Early.BuildActs | crates/rustorr-gstreamer/src/mp4box.rs:988-1206 | Bytes of a half-read `mdat` survive a segment built in the middle of it, buffer rebased, exactly as if they had come afterwards. |
| Mp4Timed.TimedChunks | crates/rustorr-gstreamer/src/mp4box.rs:1501-1607 | A stream whose audio track, if any, declares a default duration gives the same however it is cut. |
| Mp4Inferred.LostSegment | crates/rustorr-gstreamer/src/mp4box.rs:738-796 | A stream, byte for byte, that gives a segment when cut before its last box and none when pushed whole. |
| Mp4Inferred.ZeroDurationIsQueued | crates/rustorr-gstreamer/src/mp4box.rs:769-781 | A stream, byte for byte, after which audio is queued that the parser refuses once it is written. |
| Mp4Runs.ByBytesConcat | crates/rustorr-gstreamer/src/mp4box.rs:467-684 | Reading a stream in two parts is reading it whole, errors included. |
| Mp4Runs.ProcessedIsByBytes | crates/rustorr-gstreamer/src/mp4box.rs:467-521 | One call stops behind the first byte that completes a segment, and has done what the bytes before it do one at a time. |
| Mp4Runs.DrainIsByBytes | crates/rustorr-gstreamer/src/mp4box.rs:354-382 | Draining is reading the deferred bytes on, building whatever is due first. |
| Mp4Runs.FeedStaysSettled | crates/rustorr-gstreamer/src/mp4box.rs:738-837 | Between two segments a byte leaves nothing to build, unless it completes an audio `moof` and the last queued audio sample had no known duration. |
| Mp4Boxes.BoxReads | crates/rustorr-gstreamer/src/mp4box.rs:467-521 | A whole box, whatever its size and with either header, read byte by byte is begun, filled and finished. |
| Mp4Accepts.FragmentAccepted | crates/rustorr-gstreamer/src/mp4box.rs:583-820 | Between fragments, the bytes of a `moof` that parses, of any boxes that may follow it and of an `mdat` queue the fragment and hold its bytes, if and only if each data offset, counted from the first byte of the `moof` in the stream, is where its run begins in the `mdat` body and the run sizes add up to that body; otherwise the stream is refused. |
| Mp4Envelopes.EnvelopesAreHistory | crates/rustorr-gstreamer/src/mp4box.rs:523-684 | For every stream of boxes: what stands before the first `styp` or `moof` is the initialization, kept whole, and the tracks are those it parses to; each segment begins with the first `styp` before it and every `emsg`, `free` and `prft` since the segment before, and what is kept now goes with the next; the boxes came in a legal order. |
| Mp4Envelopes.HeaderAccepted | crates/rustorr-gstreamer/src/mp4box.rs:523-637 | After any accepted stream of whole boxes, the header of one more is accepted if and only if that box may come next: a complete initialization that parses, whole fragments, one `mfra` and one `moov` at the end, and no `moof` or `mdat` too large. |
| Mp4Class.BoxReader.PushData | crates/rustorr-gstreamer/src/mp4box.rs:338-352 | `push` does to the fields what the step function does to the state: at most one segment a call, bytes behind it deferred, errors passed on. |
| Mp4Class.BoxReader.TryProcessDeferred | crates/rustorr-gstreamer/src/mp4box.rs:354-382 | `try_process_deferred` likewise; after a parser error the deferred bytes are back in place. |
| Mp4Class.BoxReader.ProcessBytes | crates/rustorr-gstreamer/src/mp4box.rs:467-521 | The slice-copying loop does what the byte-by-byte machine does: same consumed count, state, segment or error. |
| Mp4Class.BulkHeader | crates/rustorr-gstreamer/src/mp4box.rs:470-503 | Header bytes copied in one slice have the effect of those bytes one at a time. |
| Mp4Class.BulkBody | crates/rustorr-gstreamer/src/mp4box.rs:504-521 | Body bytes copied in one slice likewise. |
| Mp4Class.BoxReader.BeginBoxOf | crates/rustorr-gstreamer/src/mp4box.rs:523-637 | Which box goes where: init, pending `moof`, payload, prefix or nowhere, with each refusal. |
| Mp4Class.BoxReader.BeginMediaBox | crates/rustorr-gstreamer/src/mp4box.rs:551-637 | The branches for media boxes, each with its target or its error; which streams that accepts is `FragmentAccepted` and `HeaderAccepted`. |
| Mp4Class.BoxReader.WriteCurrentBoxData | crates/rustorr-gstreamer/src/mp4box.rs:639-648 | Body bytes are appended to the target of the current box and nowhere else. |
| Mp4Class.BoxReader.CompleteCurrentBox | crates/rustorr-gstreamer/src/mp4box.rs:650-684 | What completing a box of each kind does, and whether a segment came of it. |
| Mp4Class.BoxReader.CompleteInitialization | crates/rustorr-gstreamer/src/mp4box.rs:686-698 | The tracks are set once from the initialization, or its error is reported. |
| Mp4Class.BoxReader.CompleteMoofBox | crates/rustorr-gstreamer/src/mp4box.rs:700-736 | The parsed fragment waits for its `mdat`; a waiting one is an error. |
| Mp4Class.BoxReader.CompleteMdatBox | crates/rustorr-gstreamer/src/mp4box.rs:798-820 | The payload joins the waiting fragment, which joins the queue of its track. |
| Mp4Class.BoxReader.TryBuildSegment | crates/rustorr-gstreamer/src/mp4box.rs:822-837 | A segment is built exactly when video and audio can be cut, with the state that leaves. |
| Mp4Class.BoxReader.BuildSegment | crates/rustorr-gstreamer/src/mp4box.rs:988-1148 | The segment of the first `v` video and `a` audio fragments, the queues behind it, counters and log; what the counters come to over a run is `SegmentsAreNumbered`. |
| Mp4Class.BoxReader.ReclaimPayloads | crates/rustorr-gstreamer/src/mp4box.rs:1181-1206 | The loops over both queues drop every byte before the first one still queued and move all ranges down. |
| Mp4Class.BoxReader.FinishCurrentBox | crates/rustorr-gstreamer/src/mp4box.rs:650-684 | Completing a box, then forgetting it, keeps the object's invariant. |
| Mp4Class.BoxReader.ReadHeader | crates/rustorr-gstreamer/src/mp4box.rs:470-503 | Part of a header, across calls, in the fixed 16-byte buffer. |
| Mp4Class.BoxReader.ReadBody | crates/rustorr-gstreamer/src/mp4box.rs:504-521 | Part of a body, across calls. |
| Mp4Class.BoxReader.ResolvePreviousDuration | crates/rustorr-gstreamer/src/mp4box.rs:738-796 | The last queued fragment of the track gets the duration the next decode time implies, or the error. |
| Mp4Class.EmitSegment | crates/rustorr-gstreamer/src/mp4box.rs:1028-1146 | The sequence of appends produces the bytes of the specified segment. |
| Mp4Class.PlacePayload | crates/rustorr-gstreamer/src/mp4box.rs:1241-1271 | The cursor loop gives each run the offset of the bytes before it, or refuses with the same error. |
| Mp4Class.ResolveLast | crates/rustorr-gstreamer/src/mp4box.rs:738-796 | The search from the last run back, the changed sample and the cleared marks give the specified queue and exact duration, or the specified error. |
| Mp4Class.LeastStart | crates/rustorr-gstreamer/src/mp4box.rs:1185-1190 | The loop finds the smallest payload start among the fragments that hold bytes, or none. |
| Mp4Class.BoxReader.TakeSegment | crates/rustorr-gstreamer/src/mp4box.rs:261-263 | Hands out the finished segment once. |
| Mp4Segments.EmittedSegmentReads | crates/rustorr-gstreamer/src/mp4box.rs:822-1148 | Every segment any whole reader emits: video up to a sync boundary, the shortest audio that reaches it, and bytes that read back as a `moof` whose tracks give those samples in order and whose offsets select their payload. |
| Mp4Segments.BuiltSegmentReads | crates/rustorr-gstreamer/src/mp4box.rs:988-1148 | The reading-back half, for any queued fragments. |
| Mp4Segments.ChosenWell | crates/rustorr-gstreamer/src/mp4box.rs:822-986 | The choosing half. |
| Mp4Handed.Conservation | crates/rustorr-gstreamer/src/mp4box.rs:798-1206 | In every run of push and try_process_deferred, each track's accepted bytes and samples are those of the segments handed out, in order, followed by those queued; each segment reads back as its part and starts with a sync sample; ranges are in bounds and disjoint; a half-read `mdat` is intact. |
| Mp4Handed.RunHands | crates/rustorr-gstreamer/src/mp4box.rs:338-382 | Segment by segment, what a run hands out is what its history says was put into segments. |
| Mp4Handed.SegmentsAreNumbered | crates/rustorr-gstreamer/src/mp4box.rs:1125-1146 | In every run of calls from a new reader, the `mfhd` read back from the n-th segment says n modulo 2^32; the count of finished segments is how many were handed out, and the last video end is where the video of the last one ends. |
| Mp4Handed.DrivenSegmentsAreNumbered | crates/rustorr-gstreamer/src/mp4box.rs:338-382 | The same for a caller who pushes chunks and drains after each. |
| Mp4Handed.DriveCalls | crates/rustorr-gstreamer/src/mp4box.rs:338-382 | What such a caller does is one sequence of calls with the same outcome. |
| Mp4Steps.EveryRunConserves | crates/rustorr-gstreamer/src/mp4box.rs:338-382 | The invariant behind both survives every sequence of calls. |
| Mp4Steps.FeedKeepsReader | crates/rustorr-gstreamer/src/mp4box.rs:467-684 | Every byte of every stream keeps the reader whole; a segment it completes carries the payload recorded as emitted from the very queues its `mdat` completed, and leaves a sync video fragment queued. |
| Mp4Steps.TryBuildKeepsReader | crates/rustorr-gstreamer/src/mp4box.rs:822-837 | Building keeps the reader whole even in the middle of an `mdat`, and leaves a sync video fragment queued. |
| Mp4Steps.CompleteMdatKeeps | crates/rustorr-gstreamer/src/mp4box.rs:798-820 | A complete `mdat` body joins the accepted bytes of its track, above every other range. |
| Mp4Keeps.ReclaimKeeps | crates/rustorr-gstreamer/src/mp4box.rs:1181-1206 | Rebasing changes no track's bytes and never drops a byte at or above the open `mdat`, because a video fragment is queued. |
| Mp4Keeps.DropKeeps | crates/rustorr-gstreamer/src/mp4box.rs:1125-1146 | Handing fragments out moves their bytes and samples from queued to emitted. |
| Mp4Keeps.CutAtKeepsBytes | crates/rustorr-gstreamer/src/mp4box.rs:1313-1385 | Cutting a fragment in two changes no queued byte. |
| Mp4Resolve.ResolvePreviousKeeps | crates/rustorr-gstreamer/src/mp4box.rs:738-796 | Completing a `moof` changes at most the last sample duration of one queued fragment. |
| Mp4Resolve.ResolveInferredKeeps | crates/rustorr-gstreamer/src/mp4box.rs:738-796 | The resolved fragment ends exactly where the next one starts and keeps every size, flag and byte range. |
| Mp4Hints.HintIsNewest | crates/rustorr-gstreamer/src/mp4box.rs:700-796 | A complete `moof` changes, of all that is queued, at most the duration of the last sample of the last run left open in its track, and clears the marks; the hint of the track becomes the newest nonzero duration known, the other track keeps queue and hint. |
| Mp4Write.TrafRoundTrip | crates/rustorr-gstreamer/src/mp4box.rs:1150-1179 | A written `traf` parses back if and only if every run lasts; then it gives the merged runs, decode time, description and total, which always fits in 64 bits. |
| Mp4Write.WrittenTrunReadsBack | crates/rustorr-gstreamer/src/mp4box.rs:1438-1466 | A written `trun` parses back sample by sample, unless its duration is zero. |
| Mp4Write.WriteTrafLength | crates/rustorr-gstreamer/src/mp4box.rs:1420-1430 | `traf_size` is the number of bytes `write_traf` writes. |
| Mp4Write.EmitTraf | crates/rustorr-gstreamer/src/mp4box.rs:1150-1179 | The loop over fragments writes the specified `traf`. |
| Mp4Write.EmitTrun | crates/rustorr-gstreamer/src/mp4box.rs:1438-1466 | The loop over samples writes the specified `trun`. |
| Mp4Write.CanonicalTfhdReadsBack | crates/rustorr-gstreamer/src/mp4box.rs:1668-1678 | The canonical `tfhd` parses back to its track and description. |
| Mp4Build.SegmentLayout | crates/rustorr-gstreamer/src/mp4box.rs:1028-1123 | Styp and prefix, a `moof` of the predicted size, an `mdat` header of the right kind and size, video then audio payload. |
| Mp4Build.MoofBytesLength | crates/rustorr-gstreamer/src/mp4box.rs:1035-1090 | The `moof` size computed beforehand is the number of bytes written. |
| Mp4Build.DataOffsetsSelectPayload | crates/rustorr-gstreamer/src/mp4box.rs:1028-1123 | The data offset read from any written run selects exactly that run's source bytes. |
| Mp4Build.MoofReadsBack | crates/rustorr-gstreamer/src/mp4box.rs:1986-2009 | The box walker finds the `moof` whole and in it `mfhd` and one `traf` a track, nothing else. |
| Mp4Build.SegmentTrafReadsBack | crates/rustorr-gstreamer/src/mp4box.rs:1501-1607 | Each `traf` of a segment gives back the queued samples, their first decode time on the output timeline and their duration. |
| Mp4Build.ValidateTrack | crates/rustorr-gstreamer/src/mp4box.rs:1387-1408 | Exactly the fragments that agree in track, scale, description and header and meet in time may be merged. |
| Mp4Build.PlaceFragments | crates/rustorr-gstreamer/src/mp4box.rs:1410-1418 | Output offsets accumulate over runs; the length returned is the payload's. |
| Mp4Build.AppendPayload | crates/rustorr-gstreamer/src/mp4box.rs:1112-1123 | The queued ranges are appended in order, or the error for one out of bounds. |
| Mp4Parse.NormalizeTrun | crates/rustorr-gstreamer/src/mp4box.rs:1680-1797 | The field-by-field reader of a `trun` computes the specified run or error; what that is for every layout is `TrunMeans`. |
| Mp4Parse.NormalizedTrunOk | crates/rustorr-gstreamer/src/mp4box.rs:1680-1797 | A run that is accepted is not empty and its totals are those of its samples. |
| Mp4Encoded.TrunMeans | crates/rustorr-gstreamer/src/mp4box.rs:1680-1797 | A `trun` in every layout the standard allows, any field left out whose value agrees with the defaults and the flags of the first sample written alone or not, gives back exactly its samples, data offset and sync mark. |
| Mp4Encoded.TfhdMeans | crates/rustorr-gstreamer/src/mp4box.rs:1609-1666 | A `tfhd` with any set of optional fields gives back exactly those. |
| Mp4Encoded.TfdtMeans | crates/rustorr-gstreamer/src/mp4box.rs:1832-1842 | A decode time reads back from 32 and from 64 bits. |
| Mp4Encoded.DefaultsAreGiven | crates/rustorr-gstreamer/src/mp4box.rs:1555-1566 | What stands for a missing field: duration from `tfhd`, else `trex`, else the hint; size from `tfhd`, else `trex`; flags from `tfhd` if given, else `trex`; and inferred means that only the hint was left. |
| Mp4Encoded.TrafMeans | crates/rustorr-gstreamer/src/mp4box.rs:1501-1607 | A `traf` with its children in any order and any of those forms is read as exactly the fragment it means, unless the total passes 64 bits. |
| Mp4Encoded.MoofMeans | crates/rustorr-gstreamer/src/mp4box.rs:1468-1499 | A `moof` is read as its one `traf`, whatever other boxes stand around it. |
| Mp4Moov.InitMeans | crates/rustorr-gstreamer/src/mp4box.rs:1844-1984 | An initialization in any written form is accepted if and only if it has one video track with identifier and timescale, at most one audio track with an identifier, that one with a timescale, and sound `trex` boxes; the tracks are those, each with its first `trex`. |
| Mp4Parse.ParseTraf | crates/rustorr-gstreamer/src/mp4box.rs:1501-1607 | The box loop computes the specified fragment or error. |
| Mp4Parse.ParsedTrafOk | crates/rustorr-gstreamer/src/mp4box.rs:1501-1607 | A parsed fragment belongs to a known track, has sound runs and a canonical `tfhd`. |
| Mp4Parse.ParseMoof | crates/rustorr-gstreamer/src/mp4box.rs:1468-1499 | The box loop finds the one `traf`, or reports none or several. |
| Mp4Parse.ParsedMoofOk | crates/rustorr-gstreamer/src/mp4box.rs:1468-1499 | So is the fragment of a parsed `moof`. |
| Mp4Types.SampleTotalsFit | crates/rustorr-gstreamer/src/mp4box.rs:1799-1824 | Sums over a run stay within samples times 32 bits, so the checked additions cannot fail. |
| Mp4Sync.NonSyncIsUnreachable | crates/rustorr-gstreamer/src/mp4box.rs:338-382 | Once video is queued that starts in sync, no sequence of calls ends in the error for a non-sync start, and the queue starts in sync after it. |
| Mp4Sync.NonSyncIsTheFirstFragment | crates/rustorr-gstreamer/src/mp4box.rs:839-851 | A byte gives that error only if it completes the first video fragment of all and that is not a sync one. |
| Mp4Sync.DriveOther | crates/rustorr-gstreamer/src/mp4box.rs:338-382 | Nor does a caller who pushes chunks and drains meet it. |
| Mp4Boundaries.SegmentTakesPrefix | crates/rustorr-gstreamer/src/mp4box.rs:839-896 | A segment is a prefix of the queue that starts in sync, and what is left starts in sync. |
| Mp4Boundaries.BuildNextTimes | crates/rustorr-gstreamer/src/mp4box.rs:1100-1111 | With adjacent fragments it runs from its first decode time to the next fragment's, both exact floors in nanoseconds. |
| Mp4Boundaries.RunTiles | crates/rustorr-gstreamer/src/mp4box.rs:467-684 | From any whole reader, the segments of a contiguous stream meet end to start, lead on from the one before, and end where the queue goes on. |
| Mp4Boundaries.SegmentsTile | crates/rustorr-gstreamer/src/mp4box.rs:1100-1111 | Pushed in any chunks, contiguous source decode times give segments that each end exactly where the next one starts. |
| Mp4Select.TimelineIsExactFloor | crates/rustorr-gstreamer/src/mp4box.rs:2028-2041 | Seconds and remainder scaled apart give the exact floor of value times 10^9 over the time scale, refused exactly when it does not fit. |
| Mp4Select.ChooseVideoCount | crates/rustorr-gstreamer/src/mp4box.rs:839-896 | The selection loop computes the specified count or error. |
| Mp4Select.SelectedIsBoundary | crates/rustorr-gstreamer/src/mp4box.rs:868-896 | Every choice ends before a sync fragment. |
| Mp4Select.RegularSelection | crates/rustorr-gstreamer/src/mp4box.rs:868-896 | On schedule it is the first sync boundary at or after the target; none means there is none. |
| Mp4Select.EarlySelection | crates/rustorr-gstreamer/src/mp4box.rs:868-896 | Ahead of schedule it is the last boundary within the target, else the first beyond it; nothing is cut before the target while a later boundary within it may still come, and something is as soon as none may. |
| Mp4Select.AheadMeans | crates/rustorr-gstreamer/src/mp4box.rs:853-867 | The cut is taken early exactly when the last video ended a whole segment and the margin later than the finished segments are long by schedule, where the products fit in 64 bits. |
| Mp4Select.SearchAudioSplit | crates/rustorr-gstreamer/src/mp4box.rs:951-986 | The nested loops find the first sample that reaches the video's end. |
| Mp4Audio.AudioCutIsShortest | crates/rustorr-gstreamer/src/mp4box.rs:930-986 | The audio taken is the shortest nonempty prefix of queued samples whose end reaches the video's; none is taken exactly when none reaches it; cutting moves no sample's end. |
| Mp4Audio.CutAudioQueue | crates/rustorr-gstreamer/src/mp4box.rs:930-949 | The loop over fragments computes that cut. |
| Mp4Split.SplitFragmentOk | crates/rustorr-gstreamer/src/mp4box.rs:1313-1385 | Both halves are sound, hold exactly the samples before and after, and are adjacent in payload and time. |
| Mp4Split.SplitAtSample | crates/rustorr-gstreamer/src/mp4box.rs:1313-1385 | The loop computes the halves; the branch for mismatching totals is never taken. |
| Mp4Split.SampleCount | crates/rustorr-gstreamer/src/mp4box.rs:1297-1311 | The samples of all runs. |
| CacheExtents.Extents.Insert | crates/rustorr-cache/src/extents.rs:36-73 | Insert is union, returns the number of new bytes, keeps the total and leaves spans sorted, disjoint and non-adjacent. |
| CacheExtents.Extents.Covers | crates/rustorr-cache/src/extents.rs:76-85 | True exactly for ranges whose every byte is covered. |
| CacheExtents.FromSpans | crates/rustorr-cache/src/extents.rs:15-27 | Accepts exactly the well-formed, pairwise disjoint lists, and then covers exactly their bytes. |
| CacheExtents.CanonicalIsUnique | crates/rustorr-cache/src/extents.rs:5-12 | The spans kept are determined by the bytes they cover. |
| CacheExtents.CanonicalSize | crates/rustorr-cache/src/extents.rs:29-35 | The total is the number of bytes covered. |
| CacheExtents.TotalFits | crates/rustorr-cache/src/extents.rs:33-35 | It fits in 64 bits. |
| CacheExtents.CanonicalComesBack | crates/rustorr-cache/src/extents.rs:15-33 | The spans of any set are accepted and come back unchanged. |
| CacheExtents.TouchingSpansAreAccepted | crates/rustorr-cache/src/extents.rs:15-27 | Touching and empty spans are accepted and merged. |
| CacheMemory.MemoryTorrent.Write | crates/rustorr-cache/src/memory.rs:65-93 | One file gains the written bytes and returns how many are new; other files keep theirs; an error changes nothing. |
| CacheMemory.MemoryTorrent.Read | crates/rustorr-cache/src/memory.rs:95-129 | Succeeds exactly when every requested byte was written, with the values held; the missing-block branch is never taken. |
| CacheMemory.MemoryFile.Write | crates/rustorr-cache/src/memory.rs:65-93 | The map of bytes after a write, on 16 KiB blocks allocated on first use: any history of writes grows by this one. |
| CacheMemory.MemoryFile.WriteBlocks | crates/rustorr-cache/src/memory.rs:79-91 | The block loop puts every byte in place and touches no other. |
| CacheMemory.MemoryFile.WriteBlock | crates/rustorr-cache/src/memory.rs:82-90 | One block's part of it. |
| CacheMemory.MemoryFile.Read | crates/rustorr-cache/src/memory.rs:95-129 | One file's read, buffer unchanged on error. |
| CacheMemory.MemoryFile.ReadBlocks | crates/rustorr-cache/src/memory.rs:115-128 | The block loop fills the buffer. |
| CacheMemory.LastWriteWins | crates/rustorr-cache/src/memory.rs:65-129 | After any writes a byte is there exactly when some write covered it, with the value of the last one. |
| CacheMemory.LastHitIsLast | crates/rustorr-cache/src/memory.rs:65-93 | No later write covers that byte. |
| CacheLayout.NewLayout | crates/rustorr-cache/src/layout.rs:16-32 | Accepted exactly when the piece length is positive and neither total nor piece count overflows; the pieces then just cover the total. |
| CacheLayout.CheckRange | crates/rustorr-cache/src/layout.rs:62-83 | Accepted exactly for ranges inside an existing file. |
| CacheLayout.DemandStaysInside | crates/rustorr-cache/src/layout.rs:54-59 | A checked range, moved by the lengths of the files before, stays inside the torrent without overflow. |
| CacheLayout.RecordDemand | crates/rustorr-cache/src/cache.rs:231-259 | Recording is union with that range, or an error that changes nothing. |
| CacheLayout.DemandedPieces | crates/rustorr-cache/src/cache.rs:423-459 | Lists, in order, exactly the pieces with demanded bytes, how many, and whether they are all of the piece. |
| CacheLayout.PieceSizes | crates/rustorr-cache/src/cache.rs:423-437 | The vector filled span by span holds, for each piece, the number of its demanded bytes. |
| CacheLayout.AddSpan | crates/rustorr-cache/src/cache.rs:426-437 | One span adds its overlap to every piece it touches, and to no other. |
| CacheLayout.DemandAddsUp | crates/rustorr-cache/src/cache.rs:423-459 | The piece sizes sum to all demanded bytes. |
| CacheLayout.CompleteMeansAll | crates/rustorr-cache/src/cache.rs:442-457 | A piece's size equals its length exactly when all its bytes were demanded, the short last piece included. |
| CacheText.ParseNumbersInverts | crates/rustorr-cache/src/disk.rs:92-136 | `parse_numbers` inverts `joined_numbers`. |
| CacheText.LinesInverts | crates/rustorr-cache/src/disk.rs:141-146 | Splitting into lines inverts printing lines. |
| CacheManifest.RestoreManifest | crates/rustorr-cache/src/disk.rs:138-195 | The loops that consume the map compute the specified restoration, or none. |
| CacheManifest.CollectLines | crates/rustorr-cache/src/disk.rs:140-146 | The key map of a text; a line without a key or a key twice refuses it. |
| CacheManifest.MarkPieces | crates/rustorr-cache/src/disk.rs:158-164 | The pieces marked; one out of range or twice refuses the manifest. |
| CacheManifest.RestoreExtents | crates/rustorr-cache/src/disk.rs:165-193 | The spans of every file, checked against its length and what is on disk. |
| CacheManifest.RestoreOne | crates/rustorr-cache/src/disk.rs:168-190 | One file's spans and their total. |
| CacheRestart.RestoreInvertsManifest | crates/rustorr-cache/src/disk.rs:92-195 | For every layout, extents and completed set, with data files long enough, restoring the printed manifest returns the same spans, pieces and byte total. |
| CacheRestart.RestoreBelieves | crates/rustorr-cache/src/disk.rs:138-195 | A printed manifest is believed if and only if every span lies in its file and in what its data file holds. |
| CacheRestart.RestoreIsSafe | crates/rustorr-cache/src/disk.rs:138-195 | Whatever the text says, what is restored lies inside each file and inside what is on disk. |
| CacheCrash.RestartNeverReportsAHole | crates/rustorr-cache/src/disk.rs:138-305 | Under every interleaving of writers, partial writes, failures, stops at any step and restarts, every byte a restart reports had been written. |
| CacheCrash.FinishedWriteSurvives | crates/rustorr-cache/src/disk.rs:197-305 | A write whose manifest was renamed into place is recovered after every later step, stop and restart, until the torrent is removed. |
| CacheCrash.EveryRunKeeps | crates/rustorr-cache/src/disk.rs:230-360 | The invariant behind both survives every run. |
| CacheCrash.StepKeeps | crates/rustorr-cache/src/disk.rs:269-360 | And every single step. |
| CacheCrash.RunDurable | crates/rustorr-cache/src/disk.rs:197-305 | What the manifest on disk claims never shrinks. |
| CacheCrash.RecoverIsRecorded | crates/rustorr-cache/src/disk.rs:138-195 | Recovery gives exactly what was last recorded, or nothing. |
| CacheState.Cache.Open | crates/rustorr-cache/src/cache.rs:139-170 | Attaching to an open torrent or registering what the store recovered, with each refusal. |
| CacheState.Cache.AddStored | crates/rustorr-cache/src/cache.rs:177-192 | The second critical section of a write. |
| CacheState.Cache.Touch | crates/rustorr-cache/src/cache.rs:195-208 | A read takes a fresh tick before the store is asked; that this is what makes a torrent recent is `RecencyIsHistory`. |
| CacheState.Cache.Pin | crates/rustorr-cache/src/cache.rs:275-295 | A pin counts, and with a range files a reader under a fresh id. |
| CacheState.Cache.Unpin | crates/rustorr-cache/src/cache.rs:470-480 | Dropping undoes both and refreshes the tick. |
| CacheState.Cache.Remove | crates/rustorr-cache/src/cache.rs:400-410 | Refused for unknown and pinned torrents and when the store fails; otherwise returns the stored count. |
| CacheState.Cache.StoredBytes | crates/rustorr-cache/src/cache.rs:412-421 | The sum over all torrents, in whatever order they are visited. |
| CacheState.Cache.IdleByRead | crates/rustorr-cache/src/cache.rs:378-383 | Exactly the unpinned nonempty torrents, each once, least recently read first. |
| CacheState.Cache.EvictionCandidates | crates/rustorr-cache/src/cache.rs:373-394 | The victims are the least recently read idle torrents; without them the cache is at its cap or nothing idle is left, and sparing the last would leave it over. |
| CacheEvict.EvictionIsDetermined | crates/rustorr-cache/src/cache.rs:373-394 | With strict recency only one list of victims meets that. |
| CacheEvict.RunsEvictOneWay | crates/rustorr-cache/src/cache.rs:108-113 | So in every reachable state. |
| CacheEvict.VictimsMakeRoom | crates/rustorr-cache/src/cache.rs:373-410 | Removing the victims reports what each held, frees as much, and leaves the cache at its cap or with nothing idle. |
| CacheRuns.CountsAreExact | crates/rustorr-cache/src/cache.rs:139-191 | At every step of every interleaving, stored plus in-flight additions equal what the store holds, if and only if no write of the torrent failed after recording and no remove of it failed after forgetting; what either leaves wrong is given exactly. |
| CacheRuns.RemoveReportsHeldBytes | crates/rustorr-cache/src/cache.rs:400-410 | Removing reports what the store held, with the same exact condition, and no live pin is left on the torrent. |
| CacheRuns.StatsAreExact | crates/rustorr-cache/src/cache.rs:412-421 | With nothing in flight the bytes reported are those held, if and only if as many were left unreported as were forgotten. |
| CacheRuns.CleanStatsAreExact | crates/rustorr-cache/src/cache.rs:412-421 | So they are exact when nothing failed late. |
| CacheRuns.LivePinsAreCounted | crates/rustorr-cache/src/cache.rs:275-295 | A live pin's torrent is open with a positive count and cannot be removed, so dropping never underflows. |
| CacheRuns.RecencyIsStrict | crates/rustorr-cache/src/cache.rs:108-113 | No two open torrents have the same tick. |
| CacheHistory.RecencyIsHistory | crates/rustorr-cache/src/cache.rs:108-254 | In every run, of two open torrents the one with the lower tick is the one whose last registering open, read or dropped pin came first. |
| CacheHistory.VictimsUsedLeast | crates/rustorr-cache/src/cache.rs:373-394 | No victim was used after an idle torrent that is spared. |
| CacheHistory.EntriesAreHistory | crates/rustorr-cache/src/cache.rs:139-261 | In every run, an open torrent has the layout it was registered with; a piece is complete if and only if it was recovered or reported done since, and a byte is demanded if and only if a demand since then covered it. |
| CacheRuns.EveryRunKeeps | crates/rustorr-cache/src/cache.rs:139-480 | Counts, pins, reader ids, ticks and demands hold in every reachable state. |
| CacheRuns.PinsStep | crates/rustorr-cache/src/cache.rs:275-295 | After every step the pin count is the number of live pins and the readers are exactly the live ranged ones. |
| CacheRuns.DemandsAddUp | crates/rustorr-cache/src/cache.rs:231-259 | The per-piece demand of any run adds up to all demanded bytes. |
| CacheRuns.LateFailureIsNotCounted | crates/rustorr-cache/src/disk.rs:269-305 | A failed manifest save leaves bytes stored but not counted. |
| CacheRuns.FailedRemoveIsStillCounted | crates/rustorr-cache/src/disk.rs:337-347 | A remove that fails after forgetting leaves a count the store does not hold, and the next remove reports it. |
| DnsRoundTrip.PackParses | crates/rustorr-discovery/src/dns.rs:69-162 | A packed message parses if and only if every question and record name takes at most 128 steps; then header, questions, counts and pointer records come back, names equal up to ASCII case, exactly so without sharing. |
| DnsReader.PackedIsFound | crates/rustorr-discovery/src/dns.rs:69-235 | An independent reader of whole packets finds in every packed message all its questions and records of all five kinds, each with type, class and ttl: the name of a pointer, the addresses, the texts cut at 255 bytes, and priority, weight, port and target of a service, names up to case. |
| DnsRoundTrip.ShortNamesParse | crates/rustorr-discovery/src/dns.rs:69-162 | With at most 63 labels a name when suffixes are shared, and 127 when not, everything comes back. |
| DnsPointers.PointersGoBack | crates/rustorr-discovery/src/dns.rs:175-204 | Every pointer of every packed message leads strictly back, to a name with the same labels up to case. |
| DnsPointers.NameShape | crates/rustorr-discovery/src/dns.rs:175-204 | A written name is some labels and then a zero byte or the one pointer counted for it. |
| DnsNested.NestedNamesAreLost | crates/rustorr-discovery/src/dns.rs:237-261 | A message of nested names with one-letter labels is read back if and only if there are at most 64, though unshared 127 are no trouble. |
| DnsRoundTrip.NameWritten | crates/rustorr-discovery/src/dns.rs:175-261 | A written name reads back in exactly one step a label, one a pointer and one for the end, and everything it filed reads back too. |
| DnsRoundTrip.NameInPacket | crates/rustorr-discovery/src/dns.rs:237-261 | The same inside a packet, with the exact condition for the reader's step limit. |
| DnsRoundTrip.RecordInPacket | crates/rustorr-discovery/src/dns.rs:279-318 | A record is read past exactly, and kept if it is a pointer record. |
| DnsRoundTrip.KeyLabels | crates/rustorr-discovery/src/dns.rs:176-196 | Two suffixes share a key only if their labels agree up to case. |
| DnsRoundTrip.ReadStable | crates/rustorr-discovery/src/dns.rs:237-261 | Bytes behind a name do not change how it reads. |
| DnsRoundTrip.ShownFolds | crates/rustorr-discovery/src/dns.rs:264-277 | Escaping commutes with lowering the case. |
| DnsRoundTrip.FlagsInvert | crates/rustorr-discovery/src/dns.rs:115-131 | The flag word parses back. |
| DnsWriter.PackMessage | crates/rustorr-discovery/src/dns.rs:69-110 | The writer, appending and patching, produces the specified packet. |
| DnsWriter.Writer.WriteName | crates/rustorr-discovery/src/dns.rs:175-204 | A name's bytes and the suffixes filed, compressed or not. |
| DnsWriter.Writer.WriteRecordOf | crates/rustorr-discovery/src/dns.rs:206-235 | A record with its length patched in afterwards. |
| DnsWriter.Writer.WriteDataOf | crates/rustorr-discovery/src/dns.rs:213-231 | The data of each kind of record; that a reader finds it is `PackedIsFound`. |
| DnsWriter.ParseMessage | crates/rustorr-discovery/src/dns.rs:113-162 | The offset loops compute the specified parse. |
| DnsWriter.CollectQuestions | crates/rustorr-discovery/src/dns.rs:135-141 | The question loop. |
| DnsWriter.CollectRecords | crates/rustorr-discovery/src/dns.rs:142-160 | The record loop, a placeholder for what is not kept. |
| DnsWriter.CollectRecord | crates/rustorr-discovery/src/dns.rs:279-312 | One record or none. |
| Dns.CollectName | crates/rustorr-discovery/src/dns.rs:237-261 | The loop of at most 128 steps, pointers followed and the end remembered at the first one. |
| JsonScan.Scan | crates/rustorr-http/src/go_decode.rs:133-155 | The loop over bytes and stack computes the specified result. |
| JsonScan.FeedAppend | crates/rustorr-http/src/go_decode.rs:163-290 | Two stretches read one after the other are the whole read at once. |
| JsonComplete.ScanAccepts | crates/rustorr-http/src/go_decode.rs:133-155 | For every JSON value, blanks before it and tail behind it (not continuing a number), the end returned is the value's. |
| JsonComplete.ValueFeeds | crates/rustorr-http/src/go_decode.rs:163-290 | Any value of the grammar, at any depth, is read to its end and leaves the stack as it was. |
| JsonSound.ScanIsSound | crates/rustorr-http/src/go_decode.rs:133-155 | What is accepted is blanks and one value of the grammar, nothing else. |
| JsonSound.StepSound | crates/rustorr-http/src/go_decode.rs:163-290 | Every step leaves state and stack explained by an unfinished value whose text is what was read. |
| JsonSound.CutShort | crates/rustorr-http/src/go_decode.rs:133-155 | "unexpected EOF" is answered if and only if the input is not blank, not accepted, and some continuation is accepted; "EOF" if and only if it is blank. |
| JsonSound.Completes | crates/rustorr-http/src/go_decode.rs:163-290 | From every state some bytes lead to acceptance. |
| CivilDate.CivilIsCounted | crates/rustorr-http/src/access_log.rs:185-196 | For every day since 1970-01-01 the formula gives the date reached by stepping the Gregorian calendar day by day. |
| CivilDate.TimestampIsExact | crates/rustorr-http/src/access_log.rs:181-203 | Date and clock together name exactly the given second. |
| CivilDate.DateSteps | crates/rustorr-http/src/access_log.rs:192-196 | The next day of the March year is the next day of the calendar. |
| CivilDate.MarchSteps | crates/rustorr-http/src/access_log.rs:188-192 | Consecutive day numbers are consecutive days of March years. |
| CivilDate.YearFound | crates/rustorr-http/src/access_log.rs:190-191 | The division finds the year that holds a day of an era. |
| Ebml.ElementReadsBack | crates/rustorr-gstreamer/src/cue.rs:404-438 | Every element the fixture writer emits is read back wherever it stands: identifier, size, payload, never as unknown-sized. |
| Ebml.SizeFieldReads | crates/rustorr-gstreamer/src/cue.rs:404-446 | A size field of any length, shortest or not, is read as the size it holds, and as unknown exactly when all its value bits are ones. |
| Ebml.OtherIdsAreLost | crates/rustorr-gstreamer/src/cue.rs:404-438 | An identifier that does not announce its own length is never read back. |
| Ebml.VintReadsBack | tools/baseline/fixture_media.py:151-155 | The size field reads back and is never the reserved value. |
| Ebml.WriteVint | tools/baseline/fixture_media.py:151-155 | The loop finds the shortest length that leaves the reserved value out. |
| Ebml.FindVintLength | crates/rustorr-gstreamer/src/cue.rs:440-447 | The bit loop computes the specified length. |
| Ebml.VintMeaning | crates/rustorr-gstreamer/src/cue.rs:440-447 | The length is the place of the highest bit of the first byte. |
| CueTimeline.TimelineTiles | crates/rustorr-gstreamer/src/cue.rs:289-353 | Whatever the bytes, segments are nonempty and adjacent, begin at exactly the cue times, end at the duration, and none exceeds the recorded longest. |
| CueWritten.WrittenTimeline | crates/rustorr-gstreamer/src/cue.rs:285-394 | Of cues written as any list of points, there is a timeline if and only if between two and a million of them have a time before the end and a cluster position in the video track; its segments begin at exactly those times. |
| CueWritten.VideoPositionReads | crates/rustorr-gstreamer/src/cue.rs:374-393 | Written positions belong to the video track exactly when the track they name last is that one and they give a cluster position. |
| CueTimeline.CollectTimeline | crates/rustorr-gstreamer/src/cue.rs:289-353 | The loop over cue points computes the specified timeline. |
| CueTimeline.BuildSegments | crates/rustorr-gstreamer/src/cue.rs:322-342 | The loop over sorted times computes the specified segments. |
| CueTimeline.SegmentsTile | crates/rustorr-gstreamer/src/cue.rs:322-342 | Those tile the rest and begin at exactly those times. |
| CueTimeline.SortedAscends | crates/rustorr-gstreamer/src/cue.rs:321-321 | Sorting puts the times in ascending order. |
| CueTimeline.FindVideoCueTime | crates/rustorr-gstreamer/src/cue.rs:355-372 | The first time of a cue point that has a position in the video track. |
| CueTimeline.FindVideoPosition | crates/rustorr-gstreamer/src/cue.rs:374-393 | Whether a position belongs to the video track. |
| HlsPlaylist.MediaItems | crates/rustorr-gstreamer/src/playlist.rs:239-276 | The loop lists every segment from the clamped start with its duration; there is no list exactly where the count is undefined or negative. |
| HlsPlaylist.ItemsAdjacent | crates/rustorr-gstreamer/src/playlist.rs:210-276 | A listed item is not empty and ends where the next begins, the last with the timeline. |
| HlsPlaylist.ItemsSum | crates/rustorr-gstreamer/src/playlist.rs:239-276 | The listed durations sum to what is left of the timeline. |
| HlsPlaylist.ItemWithinTarget | crates/rustorr-gstreamer/src/playlist.rs:239-276 | None exceeds the target duration. |
| HlsPlaylist.AcceptedMeansListed | crates/rustorr-gstreamer/src/service.rs:320-346 | With cues or a known duration, exactly the listed indices are accepted, if and only if the segment length fits in nanoseconds or the wrapped count leaves nothing to list. |
| HlsPlaylist.AcceptedIndices | crates/rustorr-gstreamer/src/service.rs:320-346 | How many indices are accepted, unknown durations included; all that are listed are. |
| HlsPlaylist.LongLengthIsListedButRefused | crates/rustorr-gstreamer/src/config.rs:112-135 | A length that normalisation lets through, whose one listed segment is refused. |
| HlsPlaylist.SomeLengthsHaveNoCount | crates/rustorr-gstreamer/src/playlist.rs:210-238 | A length for which the count is undefined. |
| HlsPlaylist.ItemsMatchSubtitles | crates/rustorr-gstreamer/src/service.rs:302-318 | Exactly when a listed item covers its subtitle range. |
| HlsPlaylist.LastItemEndsBeforeItsSubtitles | crates/rustorr-gstreamer/src/service.rs:302-318 | Seven-second segments of an unknown duration, where it does not. |
| HlsPlaylist.StartIndexHoldsTarget | crates/rustorr-gstreamer/src/service.rs:274-299 | A position inside the timeline, or below two hundred minutes when the duration is unknown, leads to a listed segment that holds it. |

## Left out

- Cue mode of the resegmenter, `seek_reset` and the end-of-stream remainder, which drops leftover audio on purpose.
- Fractions of seconds: timeline offset and segment length are `f64` in the source and whole seconds here; rounding is
  not modelled.
- Mp4Boundaries.SegmentsTile: that decode times are contiguous is asked of the fragments as the reader meets them, not of
  the bytes of the stream.
- The state of the reader after a parser error, except that deferred bytes are put back.
- Mp4Moov.InitMeans: speaks of boxes long enough for the field that is read; shorter ones are read as zero or refused,
  as in the source.
- Error texts: every error is a value that names its branch.
- Overflow of ticks, pin ids and stored counts beyond 64 bits: they are natural numbers here.
- The maps of torrents, locks, `Arc` and poisoning around the stores; the cache's critical sections are atomic steps,
  and no write to a torrent overlaps a remove or re-open of it (`store.rs:41-43`).
- CacheCrash.EveryRunKeeps: the disk store is a machine of file-system steps rather than a class, because a stop may come
  between any two of them; completed writes survive a stop and a rename is atomic, so power loss and `fsync` are not
  modelled. A torrent's layout follows from its info hash, so it is the same at every restart.
- `discard_except` and the truncation of file indices beyond 32 bits.
- CueTimeline.SortedAscends: the library sort of the source is modelled by insertion.
- Names and texts of DNS messages are bytes; a label longer than 63 bytes, which the writer cuts short, is not promised
  to come back.
- The unescaping other programs do on a shown DNS name.
- Decoding of the JSON value found and the quoting of a byte in an error message.
- The text of `EXTINF` lines.
- HlsPlaylist.ItemsAdjacent: items and ranges are described for segment lengths that fit in 64-bit nanoseconds; beyond,
  where the arithmetic wraps around, only what is listed, accepted or undefined is.
- Matroska prefix and seek-head parsing; `go_quote` and `redact_secrets`.
- GStreamer pipelines, HTTP, sockets, processes and the torrent engine.
