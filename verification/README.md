# mcp-repl: output timeline, interrupt observer and worker protocols

A Dafny model of the parts of mcp-repl that carry its promises to the client:

- **The output timeline** (`src/output_capture.rs`, `src/resolved_output.rs`,
  `src/pending_output_tape.rs`). Worker output passes a side buffer that holds
  back incomplete UTF-8 per stream, enters a bounded ring of bytes and events,
  and is drained by a cursor into rendered reply contents. `OutputRing.Ring`,
  `SideBuffer.Utf8Tails`, `Drain.OutputBuffer`, `Tape.OutputTimeline` and
  `Stdout.PendingOutputTape` are the objects; `Rendering.RenderTokens` is the
  reference for what a stream of labelled bytes and events looks like, and
  `Delivery` is the transition system of drains interleaved with appends, and
  `Interleaving` shows that the locked sections of the ring and the cursor are its steps.
- **The Windows Ctrl-C completion observer** (`src/windows_interrupt_observer.rs`):
  handler threads, the watcher, the runtime consumer, cleanup notifiers and
  rearming callers, one step per atomic or event operation, with every Win32
  call free to fail. Its failure latch is modelled word by word.
- **The readiness handshake** between the server's `InputState` and the R worker,
  over first-in first-out pipes, on Unix and on Windows.
- **Four sequential pieces**: the console marker decoder, argument quoting against
  the Microsoft C runtime, sandbox-plan resolution, and the Python stdin queue.

| file | models |
|---|---|
| `Sequences.dfy`, `Wrappers.dfy` | sequence facts and `Option` |
| `Utf8.dfy` | the left-to-right decoder of RFC 3629, rendering of bytes, flushable prefixes, sealing |
| `Timeline.dfy`, `RingScans.dfy`, `RangeReading.dfy` | chunks, events, line ends, and scans over them |
| `Eviction.dfy`, `HeadRetention.dfy`, `OutputRing.dfy` | what each policy keeps and refuses, and the ring under both |
| `Rendering.dfy`, `Renderer.dfy`, `StreamRendering.dfy` | the reference rendering, the rendering loops, and their agreement |
| `SideBuffer.dfy`, `TailRuns.dfy`, `Drain.dfy`, `Tape.dfy` | side buffer, its runs, cursor, timeline |
| `Delivery.dfy`, `Seams.dfy`, `Interleaving.dfy` | drains interleaved with appends: exactly once, where the cuts fall, and the same on the objects themselves |
| `Stdout.dfy`, `EndToEnd.dfy` | the end-to-end promise: for raw stdout, and for labelled text and events through the side buffer |
| `InterruptObserver.dfy`, `FailureLatch.dfy` | the Ctrl-C observer |
| `ConsoleInput.dfy`, `Readiness.dfy` | R's console input and the readiness handshake |
| `ConsoleMarkers.dfy`, `ArgQuoting.dfy`, `SandboxPlan.dfy`, `StdinQueue.dfy` | the sequential pieces |

Conventions. A Rust `String` is its UTF-8 byte sequence (`ArgQuoting` and
`SandboxPlan` use `string`, where only equality of characters matters). Offsets
and counters are natural numbers. A section under a lock is one step. A class
field holds what the source's field holds; a ghost `log` in the ring holds every
byte accepted since the last reset. `hide` statements only keep proofs small.

## Where the code does not meet the property

Each comes with an input on which it fails and the exact condition under which it holds.

- `flushable_prefix_len` is not idempotent: on the bytes E2 C3 it keeps one byte,
  and of that byte it keeps none (`Utf8.FlushableNotIdempotent`). It is idempotent
  exactly when, without the open sequence at its end, the input does not end inside
  another one (`Utf8.FlushableIdempotentIff`). The end-to-end result does not need it:
  the bytes that stay behind are only shown later.
- A cut of the output can show: "a\n" and "b" on stderr, drained apart, get a prefix
  each (`Rendering.StderrLinesFail`). It shows exactly when it tears a scalar or follows
  a newline on stderr with the same label behind it (`Rendering.CutVisibleIff`), and a
  drain that does not flush never tears a scalar (`Seams.DrainCutIsSeamlessIff`).
- A batch need not be answered: an empty one on Unix never is (`Readiness.EmptyBatchFails`).
  An outstanding batch can still be answered exactly when no line was rejected, the
  batch is not an empty one on Unix, and the server has not forgotten it while lines of
  it are to come (`Readiness.BatchIsAnsweredIff`).
- The server can reject a line of a batch it sent, after a reset
  (`Readiness.ForgottenLineFails`); it rejects one exactly when it forgot the batch in
  between (`Readiness.LineRejectedIff`).
- A command line need not round-trip: the program name `a \` comes back with two
  backslashes (`ArgQuoting.ProgramNameFails`), because the runtime reads the program
  name by other rules. It fails when the name contains a quote, or needs quotes and ends
  in a backslash; `ArgQuoting.CommandLineRoundTripsIff` is the exact condition.
- Output in Tail retention can be lost without a notice, in three ways. A text or image
  event heavier than the whole ring is dropped. An event that fits, but not together with
  a notice, evicts output silently: 26 units in a ring of 70 do
  (`OutputRing.LossWithoutNotice`). Bytes evict output silently when the ring is
  smaller than a notice. `OutputRing.Ring.AppendEventRetainingTail` and
  `OutputRing.Ring.AppendBytesRetainingTail` state it exactly: a visible loss adds a new notice if
  and only if the notice fits next to what is being appended.
- A callback boundary in console text can show: with a double-byte code page, the bytes
  82 40 in one callback are one character, and in two they are two others
  (`ConsoleMarkers.SplitCharacterShows`). For every code page, from any state and for any
  cut, a boundary is invisible exactly when the code page decodes the text on both sides
  of the cut together as it does apart (`ConsoleMarkers.BoundaryInvisibleIff`); for
  double-byte code pages, exactly when the cut does not follow a lead byte that has text
  behind it but not in the same callback (`ConsoleMarkers.DoubleByteBoundaryInvisibleIff`).

## Model

| member | source | states |
|---|---|---|
| Utf8.DecodeStep | src/resolved_output.rs:382-411 | one step of a left-to-right decoder takes 1-4 bytes of a scalar, 1-3 malformed bytes, or reports at most 3 truncated bytes |
| Utf8.EncodedScalarIsOneStep | src/resolved_output.rs:382-411 | conformance with section 3 of RFC 3629: every encoded scalar value is one step, whatever follows |
| Utf8.ScalarStepIsEncoded | src/resolved_output.rs:382-411 | and nothing else is: every scalar step spells the encoding of some scalar value |
| Utf8.RenderBytes | src/resolved_output.rs:382-411 | the loop over `from_utf8` errors produces the step-by-step rendering of the slice |
| Utf8.RenderSplitsIff | src/resolved_output.rs:382-411 | rendering distributes over a cut exactly when the cut tears no scalar |
| Utf8.RenderConcat | src/resolved_output.rs:382-411 | rendering distributes over concatenation when the right part does not start with a continuation byte |
| Utf8.EscapePrintable | src/resolved_output.rs:382-411 | escapes are printable ASCII starting with a backslash, so they render as themselves |
| Utf8.FlushablePrefixLen | src/output_capture.rs:1710-1729 | the shrinking-slice loop finds the point after which only an incomplete sequence remains |
| Utf8.HeldBackIsIncomplete | src/output_capture.rs:1710-1729 | what is held back is 1-3 bytes that begin a sequence without ending it |
| Utf8.FlushableIsLocal | src/output_capture.rs:1710-1729 | whether bytes are held back depends only on an open sequence at the end |
| Utf8.FlushableGrows | src/output_capture.rs:1710-1729 | appending bytes never takes back what was flushable |
| Utf8.FlushableNotIdempotent | src/output_capture.rs:1710-1729 | a concrete input on which taking the flushable prefix twice is not taking it once |
| Utf8.FlushableIdempotentIff | src/output_capture.rs:1710-1729 | idempotent exactly when the input without its open tail has no open tail of its own |
| Utf8.RenderAtFlushable | src/output_capture.rs:1710-1729 | rendering distributes over the cut at the flushable prefix |
| Utf8.EscapeIncompleteUtf8Tail | src/output_capture.rs:453-469 | the complete part stays and the incomplete tail is spelled in hex escapes |
| Utf8.SealingCommutesWithRendering | src/output_capture.rs:453-469 | sealing any byte string does not change its rendering |
| RingScans.DropToTiles | src/output_capture.rs:1486-1523 | dropping to an offset leaves chunks that tile the rest and hold exactly the later cells |
| RingScans.DropToLineEnds | src/output_capture.rs:1486-1523 | line ends past the cut are the line ends of the chunks that are left |
| RingScans.DropEchoesKeepsOthers | src/output_capture.rs:1371-1380 | dropping input echoes loses no other event and keeps the order of the others |
| RingScans.TrimBackKeeps | src/output_capture.rs:1382-1424 | shortening the last chunk leaves a prefix of the retained cells |
| RangeReading.ClipTiles | src/output_capture.rs:1187-1250 | clipping tiling chunks to a range gives that slice of their cells |
| RangeReading.RunsLabelExactly | src/output_capture.rs:1016-1053 | spans partition the bytes, carry each byte's label, and differ from their neighbours |
| RangeReading.CollectSlices | src/output_capture.rs:1187-1250 | the collecting loop, which starts and stops at the range, yields every overlapping slice |
| RangeReading.CollectEvents | src/output_capture.rs:1187-1250 | and every event inside the range, in order |
| RangeReading.AssembleSlices | src/output_capture.rs:1016-1053 | the assembled bytes and merged spans are the bytes and the maximal label runs of the slices |
| Eviction.EchoesGoOnlyForRoom | src/output_capture.rs:1371-1380 | no input echo gives way while the events would fit without it |
| Eviction.ChunksGoOnlyForRoom | src/output_capture.rs:1434-1484 | eviction leaves the rest of the ring from some chunk on, and every longer rest was too heavy |
| Eviction.EventsGoOnlyForRoom | src/output_capture.rs:1434-1484 | without chunks, the events left are the longest end of them that fits |
| Eviction.WhatFitsIsKept | src/output_capture.rs:1434-1484 | whatever rest of the ring fits next to what is needed is kept whole |
| Eviction.BytesTrimExactly | src/output_capture.rs:1382-1424 | Head trimming of bytes alone leaves exactly the room |
| HeadRetention.BytesTakenExactly | src/output_capture.rs:805-846 | in Head without echoes, all bytes are taken exactly when they fit, and otherwise exactly as many as fit next to a notice, however the sections cut them |
| HeadRetention.EventAcceptedIff | src/output_capture.rs:924-964 | in Head without echoes, a visible event is accepted exactly when it fits |
| HeadRetention.EventWithRoom | src/output_capture.rs:924-1004 | with room, an event is accepted and nothing gives way |
| HeadRetention.VisibleEventsComeFirst | src/output_capture.rs:945-963 | a visible event that fits next to a notice once all echoes are gone is never refused |
| OutputRing.Ring.constructor | src/output_capture.rs:720-736 | an empty ring with exact counters |
| OutputRing.Ring.PopOldestInputEcho | src/output_capture.rs:1346-1361 | removes the first input echo, wherever it is, and its weight |
| OutputRing.Ring.DropInputEchoesForRoom | src/output_capture.rs:1371-1380 | drops oldest echoes until the room is there or none is left, and no more |
| OutputRing.Ring.TrimToOffset | src/output_capture.rs:1486-1523 | keeps exactly the cells from the offset on and the events after it, with exact counters and line ends |
| OutputRing.Ring.TrimToOffsetConsumingBoundaryEvents | src/output_capture.rs:1525-1571 | the same, removing only the given number of events at the offset itself |
| OutputRing.Ring.MakeRoomFor | src/output_capture.rs:1434-1484 | eviction makes the room from the front, keeps exactly what `Eviction.MakeRoom` keeps, and reports exactly whether anything visible was lost |
| OutputRing.Ring.EvictUntil | src/output_capture.rs:1434-1484 | the eviction loop terminates with the room made and keeps exactly what `Eviction.Evict` keeps |
| OutputRing.Ring.AppendChunk | src/output_capture.rs:848-884 | opens one chunk with the labelled cells and their line ends |
| OutputRing.Ring.AppendTruncationNotice | src/output_capture.rs:1252-1278 | a notice that fits becomes the last event and leaves the room asked for; otherwise nothing changes |
| OutputRing.Ring.AppendBytesRetainingTail | src/output_capture.rs:777-803 | the log grows by exactly the bytes; what is kept is what eviction section by section keeps; a new notice is added if and only if something visible was lost and the notice fits |
| OutputRing.Ring.AppendTailChunk | src/output_capture.rs:777-803 | one locked section: keeps exactly what eviction keeps, opens one chunk with its bytes, and reports exactly whether anything visible was lost |
| OutputRing.Ring.ReportLoss | src/output_capture.rs:1252-1278 | announces a loss exactly when there was one and the notice fits, and otherwise leaves the ring alone |
| OutputRing.Ring.AppendEventRetainingTail | src/output_capture.rs:924-1004 | a visible event is appended if and only if it fits; a new notice precedes it if and only if something visible was lost and both fit; before them is exactly what eviction keeps; an echo displaces only older echoes |
| OutputRing.Ring.MakeRoomForInputEcho | src/output_capture.rs:1426-1432 | only older echoes give way to an echo, no more than needed, and it fits exactly when that is enough |
| OutputRing.Ring.TrimTailForRoom | src/output_capture.rs:1382-1424 | Head trimming terminates with the room made, keeps a prefix of bytes and of events, and exactly the one `Eviction.TrimTail` keeps |
| OutputRing.Ring.AppendOmissionNotice | src/output_capture.rs:1292-1312 | at most one omission notice, present whenever it can fit, behind exactly what trimming keeps (`HeadRetention.Omit`) |
| OutputRing.Ring.AppendHeadChunk | src/output_capture.rs:805-846 | one locked section keeps and takes exactly what `HeadRetention.TakeSection` does: a prefix of what was there and of what is offered, and it says when it lost something |
| OutputRing.Ring.AppendUsable | src/output_capture.rs:828-844 | when not everything fits, as much is taken as fits next to an omission notice, once echoes have given way |
| OutputRing.Ring.DropEchoesAnnounced | src/output_capture.rs:819-833 | echoes give way, no more than needed, and if any did there is an omission notice that can fit |
| OutputRing.Ring.AppendBytesRetainingHead | src/output_capture.rs:805-846 | over all sections, exactly what `HeadRetention.TakeInSections` keeps: a prefix of the retained bytes followed by a prefix of the offered ones, everything when there is room, any loss announced once |
| OutputRing.Ring.AppendEventRetainingHead | src/output_capture.rs:924-1004 | an event is accepted or refused exactly as `HeadRetention.OfferEvent` decides, with room always (but echoes only before an omission); loss or refusal leaves an omission notice that can fit, and never a second one |
| OutputRing.Ring.MakeRoomForVisible | src/output_capture.rs:945-963 | echoes give way to a visible event; it fits, or a notice is left instead of it |
| OutputRing.Ring.AppendMarkerEvent | src/output_capture.rs:1006-1014 | markers are always accepted and change nothing else |
| OutputRing.Ring.Reset | src/output_capture.rs:1175-1185 | back to an empty ring |
| OutputRing.Ring.ReadRange | src/output_capture.rs:1016-1053 | in Tail, the slice of the log between the clamped offsets, with its maximal label runs and its events |
| OutputRing.Ring.SawStderrInRange | src/output_capture.rs:1055-1077 | the scan that stops early answers whether any retained byte of the range was written to stderr |
| OutputRing.Ring.ConsumeTo | src/output_capture.rs:1153-1164 | removes bytes below and events up to the clamped offset, or nothing |
| OutputRing.Ring.ConsumeToWithBoundaryEvents | src/output_capture.rs:1166-1173 | the same, but exactly n events at the offset |
| OutputRing.Ring.AppendBytes | src/output_capture.rs:751-775 | under either policy the ring stays within capacity with exact counters; in Tail the log grows by the bytes, with a new notice exactly when something visible was lost and it fits; in Head what is taken is exact, everything when there is room, and any loss is announced when the notice can fit |
| OutputRing.Ring.AppendEvent | src/output_capture.rs:912-922 | dispatch on markers and retention; with room, under either policy, exactly one event is added at the end (in Head an echo only before an omission); in Tail a new notice exactly when something visible was lost and both fit, in Head an omission notice that can fit whenever anything was lost or refused |
| OutputRing.LossWithoutNotice | src/output_capture.rs:924-964 | a run on a ring of 70 bytes in which an event that fits evicts output and no notice is added |
| Rendering.CutAtBoundary | src/resolved_output.rs:413-491 | rendering a stream is rendering two parts in turn when no label run crosses the cut |
| Rendering.PieceCut | src/resolved_output.rs:166-255 | a run cut in two shows the same characters exactly at a seamless point, and more characters otherwise |
| Rendering.CutVisibleIff | src/resolved_output.rs:166-190 | two drains with the carried state show what one drain shows if and only if the cut is seamless; the final state is always the same |
| Rendering.StderrLinesFail | src/resolved_output.rs:192-255 | two stderr lines of one label drained apart show something else than drained at once |
| Rendering.DrainsInvisible | src/resolved_output.rs:413-531 | any number of seamless drains shows what a single drain shows |
| Renderer.PushText | src/resolved_output.rs:116-148 | text is merged into the last content or pushed as a new one, and the shown characters grow by exactly it |
| Renderer.PushPiece | src/resolved_output.rs:192-255 | a span's text with its stderr lead, and the state it leaves |
| Renderer.Emit | src/resolved_output.rs:317-380 | the walk over the spans shows the pieces of the interval that spans cover and the gaps between them as default stdout; for covering spans that is every byte once (`StreamRendering.PiecesAreRuns`) |
| Renderer.PushEvent | src/resolved_output.rs:257-306 | echoes, images, text events and markers show and leave what the reference says |
| Renderer.RenderBytesWithEventsAndSpans | src/resolved_output.rs:413-491 | the main loop equals the walk over events and text between them |
| Renderer.ContentsFromOutputRange | src/resolved_output.rs:500-531 | rebasing the events of a range changes nothing in what is shown |
| StreamRendering.PiecesAreRuns | src/resolved_output.rs:308-380 | emitting the pieces of a covering span list is rendering the bytes' label runs |
| StreamRendering.WalkIsFold | src/resolved_output.rs:413-491 | the main loop on sorted events and exact spans equals the reference rendering of the token stream |
| StreamRendering.RangeRendersAsTokens | src/resolved_output.rs:500-531 | a range read from the ring renders as its token stream |
| SideBuffer.MaterializeRendersSame | src/output_capture.rs:437-469 | text leaving the side buffer, sealed or not, renders as it was pushed |
| SideBuffer.SplitReadyConserves | src/output_capture.rs:320-351 | drained plus pending is what was queued: per stream the same bytes, the same events in order |
| SideBuffer.SplitGapsConserves | src/output_capture.rs:364-407 | the same for the drain that seals around visible gaps |
| SideBuffer.SplitBoundedConserves | src/output_capture.rs:353-362 | and for the bounded drain |
| SideBuffer.SplitReadyBlocks | src/output_capture.rs:320-351 | after a drain the front is a 1-3 byte incomplete prefix |
| SideBuffer.SplitGapsBlocks | src/output_capture.rs:364-407 | and only markers wait behind it after sealing around gaps |
| SideBuffer.BlockedWithinCapacity | src/output_capture.rs:353-419 | bytes blocked behind the front never exceed the capacity |
| SideBuffer.SplitBoundedKeeps | src/output_capture.rs:353-362 | each stream keeps at most one open entry, its last |
| SideBuffer.PlacedKeeps | src/output_capture.rs:256-296 | placing pushed bytes keeps one open entry per stream, its last |
| SideBuffer.PlacedConserves | src/output_capture.rs:256-296 | a push adds its bytes at the end of its own stream and touches no other stream or event |
| SideBuffer.Utf8Tails.Push | src/output_capture.rs:256-296 | continues the open entry, or seals it and queues a new one, then drains within bounds |
| SideBuffer.Utf8Tails.PushEvent | src/output_capture.rs:298-305 | events queue behind what is pending |
| SideBuffer.Utf8Tails.Drain | src/output_capture.rs:307-314 | sealing everything empties the buffer in order |
| SideBuffer.Utf8Tails.DrainReady | src/output_capture.rs:320-351 | the loop refines its one-step specification |
| SideBuffer.Utf8Tails.DrainReadyAfterVisibleGaps | src/output_capture.rs:364-407 | the loop refines its one-step specification |
| SideBuffer.Utf8Tails.DrainReadyBounded | src/output_capture.rs:353-362 | falls back to sealing around gaps only when too much is blocked |
| SideBuffer.Utf8Tails.BlockedSideBufferBytes | src/output_capture.rs:409-419 | the weight of everything behind an open front |
| TailRuns.RunTails | src/output_capture.rs:256-419 | over any run of pushes and drains, what left followed by what is pending is everything pushed: per stream the bytes, the events in push order, and all together each push at the end or, when it continues an open sequence of its stream, directly behind it |
| TailRuns.SplitBoundedOrder | src/output_capture.rs:320-407 | draining adds, loses and moves nothing between streams and events |
| TailRuns.PlacedOrder | src/output_capture.rs:256-296 | a push goes to the end, or behind the last byte of its stream when that byte leaves a sequence open |
| TailRuns.PushOrderKept | src/output_capture.rs:256-305 | where no text continues its stream, that is the order of the pushes |
| Delivery.DrainRemovesExactlyWhatItRead | src/output_capture.rs:571-583 | a drain that read a snapshot removes exactly it, even if the ring grew meanwhile; events that arrived at the boundary survive |
| Delivery.ExactlyOnce | src/output_capture.rs:615-648 | over every interleaving of appends and drains, delivered plus retained is everything appended, in order; the sections of `Interleaving` are its steps |
| Seams.ReadCutIsClean | src/output_capture.rs:1683-1700 | a drain that does not flush, at whatever end it measured, stops where only two stderr lines can be split, whatever is appended later |
| Seams.DrainCutIsSeamlessIff | src/output_capture.rs:1683-1700 | for any ring and any later output, the cut of a drain is invisible if and only if it does not follow a newline on stderr with the same label behind it |
| Seams.CleanDrainsAreInvisible | src/resolved_output.rs:413-531 | any number of such drains show what one drain shows, unless a cut splits stderr lines |
| Interleaving.TextSection | src/output_capture.rs:751-803 | with room, appending text to the ring is a step of the interleaved system |
| Interleaving.SectionsAppendText | src/output_capture.rs:777-803 | the sections in which a long text is appended append that text, so scripts of sections cover it |
| Interleaving.EventSection | src/output_capture.rs:912-1014 | with room, so is appending an event |
| Interleaving.ReadSection | src/output_capture.rs:621-630 | so is reading for a drain, at any time after its measurement |
| Interleaving.FinishSection | src/output_capture.rs:631-643 | rendering and advancing is the last step, and shows the reference rendering of what was read |
| Interleaving.RunInterleaved | src/output_capture.rs:615-648 | any interleaving of appends with the sections of drains that the capacity has room for, on the objects: delivered plus retained is what was appended, each part is shown by its reference rendering, and without flushing or split stderr lines the whole is what one rendering shows; without text on stderr the client has always seen a front part of it |
| Drain.TrimRangeToCompleteUtf8 | src/output_capture.rs:1683-1700 | cuts a range to its complete UTF-8 with exact spans and the events up to the new end |
| Drain.BoundaryCount | src/output_capture.rs:1702-1708 | how many events of the range sit at the boundary |
| Drain.OutputBuffer.StartCapture | src/output_capture.rs:521-536 | a first capture starts at the ring's start, a later one changes nothing |
| Drain.OutputBuffer.ReadForDrain | src/output_capture.rs:621-630 | the range up to an end measured earlier holds the bytes up to the last complete sequence, and its events, however much was appended since |
| Drain.OutputBuffer.AdvanceOffsetTo | src/output_capture.rs:571-583 | moves the cursor, and removes from the ring exactly what a drain consumes |
| Drain.ReadIsStep | src/output_capture.rs:621-630 | reading such a range is the reading step of the interleaved system |
| Drain.OutputBuffer.DrainFormatted | src/output_capture.rs:615-648 | shows the reference rendering of the tokens up to an offset, carries the state, says whether any of the bytes were stderr, and leaves exactly the tokens after it |
| Tape.OutputTimeline.AppendPending | src/output_capture.rs:202-216 | what left the side buffer enters the log in order; with room, it becomes the end of the ring's stream |
| Tape.OutputTimeline.AppendText | src/output_capture.rs:102-126 | raw text always continues its stream; the side buffer and the ring change as specified |
| Tape.OutputTimeline.AppendEvent | src/output_capture.rs:196-200 | an event passes the side buffer in order |
| Tape.OutputTimeline.SealUtf8Tails | src/output_capture.rs:180-184 | sealing flushes the whole side buffer into the ring |
| Tape.OutputTimeline.SealUtf8TailsBlockingVisibleOutput | src/output_capture.rs:186-190 | sealing only what blocks visible output |
| Stdout.PendingOutputTape.DrainOutput | src/pending_output_tape.rs:116-119 | seal what blocks, then drain to the last complete sequence |
| Stdout.PendingOutputTape.DrainFinalOutput | src/pending_output_tape.rs:121-129 | seal everything, then drain to the end |
| Stdout.DrainStaysStable | src/output_capture.rs:1683-1700 | a drain stops where no later byte can join a scalar across the cut |
| Stdout.FinalDrainCompletes | src/output_capture.rs:453-469 | what was shown before plus the sealed rest renders the whole |
| Stdout.RunStdout | src/pending_output_tape.rs:116-129 | for any script of writes and drains that the capacity has room for, the client has seen the rendering of everything written |
| Stdout.RoomIsBounded | src/output_capture.rs:777-803 | four times the output is always room enough |
| EndToEnd.LedgerMass | src/output_capture.rs:437-469 | what has left the side buffer weighs at most four times the bytes pushed plus the events |
| EndToEnd.PassedAsPushed | src/output_capture.rs:437-469 | where no incomplete sequence was sealed, the ring received what was pushed as it was |
| EndToEnd.RunOutput | src/pending_output_tape.rs:116-129 | for any script of labelled text, events, seals and drains that the capacity has room for: everything pushed has left the side buffer in the order of `TailRuns.RunTails`, the parts shown make it up, and unless a cut splits stderr lines the client has seen its one rendering; when all text is complete and none is on stderr, or there is only the final drain, that is the rendering of what was pushed, in order |
| InterruptObserver.HandlerKeepsClaim | src/windows_interrupt_observer.rs:787-854 | a handler step moves the one in-flight claim along its path, under any failing call |
| InterruptObserver.WatcherKeepsExit | src/windows_interrupt_observer.rs:856-910 | past the join, the claiming thread has ended |
| InterruptObserver.ConsumerKeepsCleanup | src/windows_interrupt_observer.rs:662-775 | at most one notified cleanup is outstanding, and each completion consumes one |
| InterruptObserver.ConsumerKeepsOrder | src/windows_interrupt_observer.rs:940-949 | completions are consumed in claim order |
| InterruptObserver.NotifierKeepsCleanup | src/windows_interrupt_observer.rs:638-653 | overlapping notifiers never signal twice for one cleanup |
| InterruptObserver.RearmKeepsRearm | src/windows_interrupt_observer.rs:383-434 | every rearming step keeps an observer registered |
| InterruptObserver.StepKeeps | src/windows_interrupt_observer.rs:638-949 | every step of every actor keeps the whole invariant and never changes a recorded failure |
| InterruptObserver.CompletionsAreEarned | src/windows_interrupt_observer.rs:662-949 | over every run, each returned completion belongs to a distinct claim, in order, whose handler thread has exited, and a cleanup was notified for each |
| InterruptObserver.NoImpossibleFailure | src/windows_interrupt_observer.rs:787-949 | the four internal-inconsistency failures are unreachable, whichever Win32 calls fail |
| InterruptObserver.SecondCallbackDoesNothing | src/windows_interrupt_observer.rs:787-809 | a second callback on a thread that claimed changes nothing shared and never reports overlap |
| InterruptObserver.AlwaysObserved | src/windows_interrupt_observer.rs:383-434 | some observer is registered at every step, and exactly the active one when the guard is free and nothing failed |
| InterruptObserver.FirstFailureStays | src/windows_interrupt_observer.rs:951-1005 | a recorded failure is the failure of the rest of the run |
| InterruptObserver.InterruptCompletes | src/windows_interrupt_observer.rs:662-949 | a run exists that claims, joins, cleans up and returns an interrupt, leaving all free |
| FailureLatch.EveryReadIsTheFirstFailure | src/windows_interrupt_observer.rs:958-1005 | every read is nothing or the (kind, code) of the first recorder, and once one is returned all later ones are the same |
| FailureLatch.LaterChecksFail | src/windows_interrupt_observer.rs:951-973 | once published, every later check fails with the first failure |
| FailureLatch.RecordingEnds | src/windows_interrupt_observer.rs:958-1005 | a spinning reader is at most two steps of the winner away from the published failure |
| ConsoleInput.QueuedLinesSpell | src/r_session.rs:770-782 | a batch is queued as whole console lines that spell it, with its missing last newline |
| ConsoleInput.OneWayToSplit | src/r_session.rs:770-782 | no other lines spell the same text |
| ConsoleInput.SplitConsoleLine | src/r_session.rs:869-884 | a long line is cut at the last character boundary that fits, or the assertion fails |
| ConsoleInput.CutKeepsText | src/r_session.rs:869-884 | both sides of the cut are valid UTF-8 |
| ConsoleInput.SplitFitsIff | src/r_session.rs:869-884 | the assertion fails exactly when R's buffer cannot hold the first character |
| ConsoleInput.ReadTurnConserves | src/r_session.rs:1250-1267 | a read takes its line off the front of the queued text byte for byte |
| ConsoleInput.Session.BeginInput | src/r_session.rs:62-81 | a batch is refused while one is active and otherwise queued whole |
| ConsoleInput.Session.Read | src/r_session.rs:1250-1279 | one pass of the read loop: a line, or readiness when nothing is left |
| Readiness.InputState.BeginInput | src/input_state.rs:21-30 | readiness is spent by a batch, or the batch is refused |
| Readiness.InputState.ClearRequestProgress | src/input_state.rs:32-35 | progress is forgotten, readiness is not |
| Readiness.InputState.RecordReadyAt | src/input_state.rs:66-81 | readiness is recorded and completes an active request |
| Readiness.InputState.ValidateActiveInput | src/input_state.rs:56-64 | lines are accepted while active and not completed |
| Readiness.StepKeeps | src/r_session.rs:1207-1351 | every message, lock section and wake-up keeps the handshake invariant |
| Readiness.ConversationKeepsToItsRules | src/r_session.rs:62-77 | no batch reaches an active worker, and the server's view of the conversation follows its rules |
| Readiness.EachBatchIsAnsweredOnce | src/r_session.rs:1250-1331 | each batch follows a readiness report and is answered by exactly one, after lines that spell the batch |
| Readiness.OneToken | src/input_state.rs:21-30 | exactly one readiness token is about at any time |
| Readiness.NoLostWakeUp | src/r_session.rs:794-818 | a worker asleep with queued input, or on Windows waiting with an active batch, has a wake-up coming, and no wake-up is left over on Windows |
| Readiness.LineRejectedIff | src/ipc/server_connection.rs:185-207 | an `input_line` is rejected exactly when the server forgot its batch; it never arrives late |
| Readiness.ForgottenLineFails | src/ipc/server_connection.rs:185-207 | a run in which the server resets between a batch and its line, and rejects the line |
| Readiness.EmptyBatchIsNeverAnswered | src/r_session.rs:770-803 | after an empty batch the Unix worker never speaks again |
| Readiness.EmptyBatchSticks | src/r_session.rs:62-77 | in every ready Unix state, sending an empty batch is a step into a state that never leaves |
| Readiness.EmptyBatchIsStuck | src/r_session.rs:770-803 | on Unix every state with an outstanding empty batch is such a state |
| Readiness.EmptyBatchFails | src/r_session.rs:770-803 | a run from the start in which a batch is sent and no continuation answers it |
| Readiness.AnswerComes | src/r_session.rs:1250-1331 | from every state that meets the condition, the enabled moves lead to the answer |
| Readiness.BatchIsAnsweredIff | src/r_session.rs:1207-1351 | in any reachable state with an outstanding batch, some continuation answers it if and only if no line was rejected, the batch is not an empty one on Unix, and it is not forgotten with lines to come |
| ConsoleMarkers.BoundaryInvisibleIff | src/r_session.rs:995-1070 | for every code page, from any state and for any cut, two callbacks give the output and state of one if and only if the code page decodes the text before and behind the cut together as it does apart |
| ConsoleMarkers.BoundaryInvisibleWhenDistributing | src/r_session.rs:995-1070 | so with a code page that distributes no boundary shows |
| ConsoleMarkers.DoubleByteDistributesIff | src/r_session.rs:914-955 | a double-byte code page distributes at a cut exactly when the cut does not follow a dangling lead byte |
| ConsoleMarkers.DoubleByteBoundaryInvisibleIff | src/r_session.rs:914-1070 | with one, a callback boundary shows exactly when it comes between the two bytes of a character |
| ConsoleMarkers.WideTellsApart | src/r_session.rs:914-955 | a concrete double-byte code page that meets the assumption of it |
| ConsoleMarkers.SplitCharacterShows | src/r_session.rs:914-1070 | and one of its characters, cut by a callback boundary, comes out as two others |
| ConsoleMarkers.ChunkingInvisible | src/r_session.rs:995-1070 | any number of callbacks give what one gives when the text joins at every boundary |
| ConsoleMarkers.DistributingJoins | src/r_session.rs:995-1070 | which it always does with a code page that distributes |
| ConsoleMarkers.LastRunGoesOn | src/r_session.rs:995-1070 | the text a callback ends with is determined by the bytes and the state, however earlier callbacks cut them |
| ConsoleMarkers.RunsDecode | src/r_session.rs:995-1070 | decoding whole runs between markers, as the code does, equals an independent byte-at-a-time decoder when code-page decoding distributes |
| ConsoleMarkers.EmbeddedTextSurvives | src/r_session.rs:958-1070 | for every code page, valid text between the markers comes out unchanged however it is cut |
| ConsoleMarkers.FindMarker | src/r_session.rs:907-911 | the first occurrence, or none |
| ConsoleMarkers.TrailingMarkerPrefixLen | src/r_session.rs:981-992 | the longest end that could still become one of the markers |
| ConsoleMarkers.ConsoleDecodeState.DecodeConsoleBytes | src/r_session.rs:995-1070 | for every code page, the cursor loop refines the decoder that decodes each run between markers as a whole, output and state |
| ArgQuoting.QuoteForConsole | src/windows_conpty.rs:651-681 | the loop produces the specified quoting for every argument |
| ArgQuoting.QuoteForSandboxSetup | src/windows_sandbox_setup.rs:1395-1429 | so does the second loop: the two agree on every input |
| ArgQuoting.ParseQuoted | src/windows_conpty.rs:659-680 | the runtime's backslash and quote rules undo the quoted body |
| ArgQuoting.ArgsRoundTrip | src/windows_conpty.rs:444-450 | joined and split, every argument list comes back |
| ArgQuoting.ArgsRoundTripIff | src/windows_conpty.rs:444-450 | exactly when no argument contains the terminator |
| ArgQuoting.CommandLineSplits | src/windows_conpty.rs:444-450 | with the program name in front, the arguments still come back and the name is read as specified |
| ArgQuoting.CommandLineRoundTripsIff | src/windows_conpty.rs:444-450 | the exact condition for the whole command line to come back |
| ArgQuoting.ProgramNameFails | src/windows_conpty.rs:444-450 | a program name with a blank and a final backslash does not come back |
| SandboxPlan.LastMode | src/sandbox_cli.rs:62-74 | the last operation that sets a mode, and none after it |
| SandboxPlan.ValidateOperations | src/sandbox_cli.rs:282-351 | the checking loop gives the specified verdict |
| SandboxPlan.Resolve | src/sandbox_cli.rs:223-280 | check, skip ahead, apply |
| SandboxPlan.SkippingAheadIsFaithful | src/sandbox_cli.rs:223-280 | applying from the last explicit mode equals applying everything whenever that succeeds |
| SandboxPlan.CheckedPlanApplies | src/sandbox_cli.rs:282-381 | checked operations apply, or inherit a state nobody supplied |
| SandboxPlan.ValidatedPlanResolvesIff | src/sandbox_cli.rs:223-381 | a validated plan fails to resolve exactly when it ends on inherit without a state, with that error |
| SandboxPlan.StartUpCheckSuffices | src/sandbox_cli.rs:216-280 | a plan that passed at start-up and does not end on inherit resolves to the same sandbox whatever state a call supplies |
| StdinQueue.NormalizePtyInputPayload | src/python_input_queue.rs:113-132 | the index loop refines the normalisation |
| StdinQueue.NormalizeIdempotent | src/python_input_queue.rs:113-132 | normalising twice is normalising once; only CR-free text is left as it is |
| StdinQueue.ReadyIsTerminated | src/python_input_queue.rs:105-132 | a prepared payload has no CR, ends in a newline, and is empty only for the empty payload |
| StdinQueue.PythonInputQueue.PushPayload | src/python_input_queue.rs:24-26 | a payload queues behind the others |
| StdinQueue.PythonInputQueue.BeginReadConsumer | src/python_input_queue.rs:41-47 | one read consumer at a time |
| StdinQueue.PythonInputQueue.ClearAfterInterrupt | src/python_input_queue.rs:58-61 | an interrupt drops everything and ends the read |
| StdinQueue.PythonInputQueue.ClearAfterCellFinish | src/python_input_queue.rs:63-67 | a finished cell drops what is left of its payload, unless a read is under way |
| StdinQueue.PythonInputQueue.TakeCellPayload | src/python_input_queue.rs:28-35 | a cell takes the next payload and drops the rest of the last |
| StdinQueue.PythonInputQueue.ConsumeLine | src/python_input_queue.rs:69-77 | refill, find the newline, consume through it |
| StdinQueue.PythonInputQueue.ConsumeBytes | src/python_input_queue.rs:79-89 | refill, and take at most so many bytes of the current payload |
| StdinQueue.PythonInputQueue.RefillStdinBytes | src/python_input_queue.rs:91-102 | the next payload is prepared only when the current one is used up |
| StdinQueue.ReadsDeliverAPrefix | src/python_input_queue.rs:69-102 | over any mix of pushes and reads, delivered plus pending is the prepared payloads in order |
| StdinQueue.LineReadsAreLines | src/python_input_queue.rs:69-77 | a line read has one newline, at its end; nothing is read exactly when the next payload is missing or empty |
| StdinQueue.CleanThroughout | src/python_input_queue.rs:24-102 | whatever calls are made, what is left of a payload ends in a newline |
| StdinQueue.EveryLineReadIsALine | src/python_input_queue.rs:24-102 | in any run of all calls on a new queue, every line read is one line or the rest of one; nothing is read exactly when the next payload is missing or empty |
| StdinQueue.LinesDeliverEverything | src/python_input_queue.rs:69-102 | without empty payloads, reading lines to the end delivers everything as its lines |

## Left out

- Head retention: trimming the tail does not lower `end_offset` (src/output_capture.rs:1404-1421), so tiling and byte/event alignment are stated for Tail only; for Head the model has counters, capacity, exactly what is kept, and notices.
- Rendering of a range read from a Head ring whose tail was trimmed: its offsets have gaps, so `StreamRendering.RangeRendersAsTokens` does not apply.
- The grouping of equal-looking text into content items: rendering is compared character by character with its labels; `Renderer.PushText` states when a new item is pushed.
- Drain.OutputBuffer.DrainFormatted: one drain without a concurrent append; `Interleaving.RunInterleaved` has the concurrent case, without the "saw stderr" flag.
- Interleaving.RunInterleaved: states nothing about a run in which output is evicted; there the contracts of the ring say what is lost and announced.
- Stdout.RunStdout: one raw stdout stream, because only there can the expected text be written down without the order of streams; `EndToEnd.RunOutput` has labelled streams and events, in the order in which they leave the side buffer.
- Settle state, progress sequence as seen by waiters, `last_text_ends_with_newline` and the status lines built from it.
- A ring of capacity zero, counter overflow, mutex poisoning and real time.
- The observer's thread ids are never reused by a later handler thread; with reuse the comparison at src/windows_interrupt_observer.rs:803-807 could only accept more.
- The observer's initialisation, `notify_input` failing, and the debug-only test hooks.
- Liveness of the observer: `InterruptObserver.InterruptCompletes` shows one completed run, not that every run completes.
- Interrupts, shutdown and the save prompt in the readiness handshake; a send that times out after the readiness is spent.
- EndToEnd.RunOutput: appends and drains one at a time; `Interleaving.RunInterleaved` has them interleaved, behind the side buffer.
- Which code pages distribute over which cuts: code-page decoding is a parameter, and the results about callback boundaries name what they need of it.
- Surrogate pairs in Windows command lines: a character is one unit, which the quoting and splitting rules never split.
- The search for the executable in the command line, which is not done by the C runtime.
- Parsing of sandbox options and host patterns: trimming and pattern validity are parameters.
- The CPython side of managed stdin, R start-up, plots, pipes, and the server that drives the workers.
