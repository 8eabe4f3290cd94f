/**
  The promise to the client: however a worker's raw standard output is split into
  reads and whenever the tape is drained, the client sees the rendering of the
  whole byte sequence.
 */
module Stdout {
  import opened Sequences
  import opened Utf8
  import opened Wrappers
  import opened Timeline
  import opened Rendering
  import opened Renderer
  import opened StreamRendering
  import opened Delivery
  import opened OutputRing
  import opened SideBuffer
  import opened Drain
  import opened Tape

  const STDOUT := Key(false, Worker, Raw)

  class PendingOutputTape {
    const timeline: OutputTimeline
    const output: OutputBuffer

    ghost predicate Valid()
      reads this, timeline, timeline.ring, timeline.tails, output
    {
      timeline.Valid() && output.ring == timeline.ring
    }

    /** `with_timeline`. */
    constructor (capacity: nat)
      requires capacity > 0
      ensures Valid() && fresh(timeline.ring) && fresh(timeline.tails) && fresh(output)
      ensures timeline.ring.capacity == capacity && timeline.ring.log == [] && timeline.ring.events == []
      ensures timeline.ring.startOffset == 0 && timeline.tails.entries == []
      ensures output.offset == Some(0) && output.lastRendered == None
    {
      var t := new OutputTimeline(capacity);
      timeline := t;
      output := new OutputBuffer(t.ring);
      new;
      output.StartCapture();
    }

    /** `drain_output`. */
    method DrainOutput() returns (contents: seq<Content>, ghost ready: seq<Ready>, ghost before: View, ghost upTo: nat)
      requires Valid()
      modifies timeline.ring, timeline.tails, output
      ensures Valid()
      ensures timeline.tails.entries == SplitGaps(old(timeline.tails.entries)).staying
      ensures ready == MaterializeAll(SplitGaps(old(timeline.tails.entries)).leaving)
      ensures old(timeline.ring.Total()) + ReadySize(ready) < timeline.ring.capacity
              && old(output.offset) == Some(old(timeline.ring.startOffset)) ==>
                && before.start == old(timeline.ring.startOffset) && before.Ok()
                && before.Stream() == old(ViewOf(timeline.ring)).Stream() + ReadyTokens(ready)
                && output.offset == Some(upTo) && timeline.ring.startOffset == upTo
                && Drained(before, upTo, false, ViewOf(timeline.ring), Bundle, old(output.lastRendered),
                           Shown(contents, output.lastRendered))
    {
      hide SplitGaps, Drained, ReadyTokens, ReadySize, MaterializeAll, Tokens, Sorted, ReadyCells, WellKept;
      ready := timeline.SealUtf8TailsBlockingVisibleOutput();
      before := ViewOf(timeline.ring);
      var sawStderr;
      contents, sawStderr, upTo := output.DrainFormatted(Bundle, false);
    }

    /** `drain_final_output`, and `drain_sealed_output`. */
    method DrainFinalOutput()
        returns (contents: seq<Content>, ghost ready: seq<Ready>, ghost before: View, ghost upTo: nat)
      requires Valid()
      modifies timeline.ring, timeline.tails, output
      ensures Valid() && timeline.tails.entries == []
      ensures ready == MaterializeAll(CloseAll(old(timeline.tails.entries)))
      ensures old(timeline.ring.Total()) + ReadySize(ready) < timeline.ring.capacity
              && old(output.offset) == Some(old(timeline.ring.startOffset)) ==>
                && before.start == old(timeline.ring.startOffset) && before.Ok()
                && before.Stream() == old(ViewOf(timeline.ring)).Stream() + ReadyTokens(ready)
                && output.offset == Some(upTo) && timeline.ring.startOffset == upTo
                && Drained(before, upTo, true, ViewOf(timeline.ring), Bundle, old(output.lastRendered),
                           Shown(contents, output.lastRendered))
    {
      hide Drained, ReadyTokens, ReadySize, MaterializeAll, Tokens, Sorted, ReadyCells, WellKept;
      ready := timeline.SealUtf8Tails();
      before := ViewOf(timeline.ring);
      var sawStderr;
      contents, sawStderr, upTo := output.DrainFormatted(Bundle, true);
    }
  }

  // ----- raw standard output in the side buffer

  /** What the side buffer holds back of the bytes written so far. */
  function Held(all: seq<byte>): seq<Entry> {
    if Flushable(all) == |all| then [] else [PendingText(STDOUT, all[Flushable(all)..], false)]
  }

  /** What leaves the side buffer when more bytes arrive. */
  function Released(all: seq<byte>, more: seq<byte>): seq<Ready> {
    var now := all + more;
    if Flushable(all) < Flushable(now) then [ReadyText(STDOUT, now[Flushable(all)..Flushable(now)])] else []
  }

  lemma HeldIsOpen(all: seq<byte>)
    ensures Held(all) != [] ==> Held(all)[0].Open() && Flushable(all[Flushable(all)..]) == 0
  {
    if Flushable(all) < |all| {
      HeldBackIsIncomplete(all);
    }
  }

  lemma SplitOfOne(b: seq<byte>, capacity: nat)
    requires b != []
    ensures var f := Flushable(b);
            var split := SplitBounded([PendingText(STDOUT, b, false)], capacity);
            && MaterializeAll(split.leaving) == (if f > 0 then [ReadyText(STDOUT, b[..f])] else [])
            && split.staying == (if f < |b| then [PendingText(STDOUT, b[f..], false)] else [])
  {
    hide Flushable;
    var e := PendingText(STDOUT, b, false);
    var es := [e];
    assert es[1..] == [] && SplitReady([]) == Split([], []);
    assert b[..|b|] == b && b[0..] == b;
    var leaving := SplitReady(es).leaving;
    if leaving != [] {
      assert leaving[1..] == [];
    }
    assert SumEntries([]) == 0;
    var staying := SplitReady(es).staying;
    if staying != [] {
      assert staying[1..] == [];
    }
  }

  /** Pushing more raw stdout releases what has become complete, and holds back the rest. */
  lemma PushReleases(all: seq<byte>, more: seq<byte>, i: nat, capacity: nat)
    requires more != [] && FoundAt(Held(all), i, STDOUT)
    ensures var split := SplitBounded(Placed(Held(all), i, STDOUT, more, true), capacity);
            MaterializeAll(split.leaving) == Released(all, more) && split.staying == Held(all + more)
  {
    hide Flushable, SplitBounded, MaterializeAll, Placed, Held;
    var f := Flushable(all);
    var b := all[f..] + more;
    FlushableGrows(all, more);
    PlacedIsOne(all, more, i);
    SplitOfOne(b, capacity);
    ReleasedSlices(all, more);
  }

  lemma ReleasedSlices(all: seq<byte>, more: seq<byte>)
    requires Flushable(all + more) == Flushable(all) + Flushable(all[Flushable(all)..] + more)
    ensures var b := all[Flushable(all)..] + more;
            var f := Flushable(b);
            && Released(all, more) == (if f > 0 then [ReadyText(STDOUT, b[..f])] else [])
            && Held(all + more) == (if f < |b| then [PendingText(STDOUT, b[f..], false)] else [])
  {
    hide Flushable;
    var f := Flushable(all);
    var now, b := all + more, all[f..] + more;
    TakeDropConcat(all, more, f);
    TakeDropSlices(now, f, f + Flushable(b));
  }

  lemma PlacedIsOne(all: seq<byte>, more: seq<byte>, i: nat)
    requires FoundAt(Held(all), i, STDOUT)
    ensures Placed(Held(all), i, STDOUT, more, true) == [PendingText(STDOUT, all[Flushable(all)..] + more, false)]
  {
    HeldIsOpen(all);
    hide Flushable;
    var f := Flushable(all);
    if f == |all| {
      assert all[f..] == [] && [] + more == more;
    } else {
      assert Held(all)[0].Open();
    }
  }

  /** A drain in between releases nothing: nothing visible waits behind the held bytes. */
  lemma NothingBehindHeld(all: seq<byte>)
    ensures SplitGaps(Held(all)) == Split([], Held(all))
  {
    HeldIsOpen(all);
    if Held(all) != [] {
      assert Held(all)[1..] == [];
    }
  }

  /** The final seal releases the held bytes, escaped. */
  lemma SealReleases(all: seq<byte>)
    ensures MaterializeAll(CloseAll(Held(all)))
         == if Flushable(all) < |all| then [ReadyText(STDOUT, Escape(all[Flushable(all)..]))] else []
  {
    HeldIsOpen(all);
    hide Flushable, Escape;
    if Flushable(all) < |all| {
      var tail := all[Flushable(all)..];
      assert CloseAll(Held(all)) == [PendingText(STDOUT, tail, true)];
      assert CloseAll(Held(all))[1..] == [];
      assert tail[..0] == [] && tail[0..] == tail && [] + Escape(tail) == Escape(tail);
    } else {
      assert CloseAll(Held(all)) == [];
    }
  }

  // ----- cuts that stay invisible

  /** Whatever arrives later, no scalar will cross this cut. */
  predicate Stable(all: seq<byte>, c: nat) {
    c <= |all| && (Flushable(all[..c]) == c || (c < |all| && !IsContinuation(all[c])))
  }

  lemma StableRenders(all: seq<byte>, c: nat)
    requires Stable(all, c)
    ensures Render(all) == Render(all[..c]) + Render(all[c..])
  {
    TakeThenDrop(all, c);
    if c < |all| && !IsContinuation(all[c]) {
      RenderConcat(all[..c], all[c..]);
    } else {
      CompleteThenAnything(all[..c], all[c..]);
    }
  }

  lemma CompleteThenAnything(a: seq<byte>, b: seq<byte>)
    requires Flushable(a) == |a|
    ensures Render(a + b) == Render(a) + Render(b)
  {
    hide *;
    var s := a + b;
    assert s[..|a|] == a && s[|a|..] == b && a[0..] == a;
    NotTornAfterComplete(a, a, b);
    RenderSplitsIff(s, |a|);
  }

  lemma StableGrows(all: seq<byte>, more: seq<byte>, c: nat)
    requires Stable(all, c)
    ensures Stable(all + more, c)
  {
    assert (all + more)[..c] == all[..c];
  }

  /** A drain stops at a stable cut, and shows the rendering of what lies between. */
  lemma DrainStaysStable(all: seq<byte>, c: nat)
    requires Stable(all, c) && c <= Flushable(all)
    ensures var next := c + Flushable(all[c..Flushable(all)]);
            && c <= next <= Flushable(all) && Stable(all, next)
            && Render(all[..next]) == Render(all[..c]) + Render(all[c..next])
  {
    hide Flushable, Render, DecodeStep;
    var f := Flushable(all);
    var range := all[c..f];
    var next := c + Flushable(range);
    if next < f {
      HeldBackIsIncomplete(range);
      assert range[Flushable(range)] == all[next];
    } else if f < |all| {
      HeldBackIsIncomplete(all);
    } else {
      assert all[..next] == all;
    }
    StableInside(all, c, next);
  }

  lemma StableInside(all: seq<byte>, c: nat, next: nat)
    requires Stable(all, c) && c <= next <= |all|
    ensures Render(all[..next]) == Render(all[..c]) + Render(all[c..next])
  {
    hide Flushable, Render;
    var front := all[..next];
    assert front[..c] == all[..c] && front[c..] == all[c..next];
    if c < next {
      assert front[c] == all[c];
      StableRenders(front, c);
    } else {
      assert front == all[..c] && all[c..next] == [];
      RenderNone();
      assert Render(all[..c]) + [] == Render(all[..c]);
    }
  }

  lemma RenderNone()
    ensures Render([]) == []
  {
  }

  /** Sealing and showing the rest completes the rendering of everything. */
  lemma FinalDrainCompletes(all: seq<byte>, c: nat)
    requires Stable(all, c) && c <= Flushable(all)
    ensures Render(all) == Render(all[..c]) + Render(EscapeTail(all)[c..])
  {
    var f := Flushable(all);
    var e := EscapeTail(all);
    SealingCommutesWithRendering(all);
    EscapePrintable(all[f..]);
    hide Flushable, Escape;
    assert e[..c] == all[..c];
    assert Stable(e, c) by {
      if c < f {
        assert e[c] == all[c];
      } else if f < |all| {
        assert e[c] == Escape(all[f..])[0];
      }
    }
    StableRenders(e, c);
  }

  // ----- streams of standard output

  function StdoutTokens(bytes: seq<byte>): seq<Token> {
    CellTokens(Cells(bytes, STDOUT))
  }

  lemma StdoutConcat(a: seq<byte>, b: seq<byte>)
    ensures StdoutTokens(a + b) == StdoutTokens(a) + StdoutTokens(b)
  {
  }

  function StdoutGlyphs(bytes: seq<byte>): seq<Glyph> {
    Chars(Render(bytes), TextStream.Stdout, Worker, ReplyAndTranscript)
  }

  lemma StdoutRenders(bytes: seq<byte>, st: Carried)
    ensures RenderTokens(StdoutTokens(bytes), Bundle, st).out == StdoutGlyphs(bytes)
  {
    if bytes == [] {
      assert StdoutTokens(bytes) == [];
    } else {
      assert StdoutTokens(bytes) == RunTokens(bytes, STDOUT);
      RenderRun(bytes, STDOUT, Bundle, st);
    }
  }

  /** A ring whose stream is standard output only holds exactly those bytes. */
  lemma OnlyStdout(v: View, bytes: seq<byte>)
    requires v.Ok() && v.Stream() == StdoutTokens(bytes)
    ensures v.events == [] && v.cells == Cells(bytes, STDOUT) && BytesOf(v.cells) == bytes
  {
    if v.events != [] {
      var k := FirstEvent(v);
      assert false;
    }
    CellsFromTokens(v.cells, Cells(bytes, STDOUT));
    BytesOfCells(bytes, STDOUT);
  }

  lemma FirstEvent(v: View) returns (k: nat)
    requires v.Ok() && v.events != []
    ensures k < |v.Stream()| && v.Stream()[k].E?
  {
    TokensCons(v.cells, v.events, v.start);
    k := v.events[0].offset - v.start;
  }

  lemma CellsFromTokens(a: seq<Cell>, b: seq<Cell>)
    requires CellTokens(a) == CellTokens(b)
    ensures a == b
  {
    forall i | 0 <= i < |a|
      ensures a[i] == b[i]
    {
      assert CellTokens(a)[i] == B(a[i]) && CellTokens(b)[i] == B(b[i]);
    }
    assert |CellTokens(a)| == |CellTokens(b)|;
  }

  /** One drain of a stream of standard output. */
  lemma StdoutDrained(v: View, bytes: seq<byte>, upTo: nat, flush: bool, left: View, st: Carried, shown: Rendered)
    requires v.Ok() && v.Stream() == StdoutTokens(bytes)
    requires Drained(v, upTo, flush, left, Bundle, st, shown)
    ensures var n := if flush then |bytes| else Flushable(bytes);
            && upTo == v.start + n
            && shown.out == StdoutGlyphs(bytes[..n])
            && left.Stream() == StdoutTokens(bytes[n..])
  {
    hide Flushable, RenderTokens, StdoutTokens, StdoutGlyphs, Taken, BytesOf, Cells;
    OnlyStdout(v, bytes);
    var n := upTo - v.start;
    TakenStdout(v, bytes, n);
    StdoutRenders(bytes[..n], st);
    StdoutConcat(bytes[..n], bytes[n..]);
    TakeThenDrop(bytes, n);
    CancelPrefix(StdoutTokens(bytes[..n]), left.Stream(), StdoutTokens(bytes[n..]));
  }

  lemma TakenStdout(v: View, bytes: seq<byte>, n: nat)
    requires v.Ok() && v.events == [] && v.cells == Cells(bytes, STDOUT) && n <= |bytes|
    ensures Taken(v, v.start + n).Stream() == StdoutTokens(bytes[..n])
  {
    assert v.cells[..n] == Cells(bytes[..n], STDOUT);
    assert Taken(v, v.start + n) == View(v.start, v.cells[..n], []);
  }

  // ----- any script of writes and drains

  datatype Op = Write(bytes: seq<byte>) | DrainNow

  /** Everything the script writes. */
  function Written(script: seq<Op>): seq<byte> {
    if script == [] then []
    else
      Written(script[..|script| - 1]) +
      match script[|script| - 1]
      case Write(bytes) => bytes
      case DrainNow => []
  }

  /** Where a drain stops that starts at `c`. */
  function NextCut(all: seq<byte>, c: nat): nat {
    if c <= Flushable(all) then c + Flushable(all[c..Flushable(all)]) else c
  }

  /** How much of what was written the drains of a script have shown. */
  function Cursor(script: seq<Op>): nat {
    if script == [] then 0
    else
      var c := Cursor(script[..|script| - 1]);
      match script[|script| - 1]
      case Write(_) => c
      case DrainNow => NextCut(Written(script), c)
  }

  /** The most the ring has to hold while a script runs: bytes fit to leave and not yet drained. */
  function Peak(script: seq<Op>): nat {
    if script == [] then 0
    else Max(Peak(script[..|script| - 1]), SaturatingSub(Flushable(Written(script)), Cursor(script)))
  }

  /** The room a script and its final drain need, which escapes an unfinished sequence. */
  function RoomFor(script: seq<Op>): nat {
    Max(Peak(script), SaturatingSub(|EscapeTail(Written(script))|, Cursor(script)))
  }

  /** A capacity of four times the output is always enough. */
  lemma RoomIsBounded(script: seq<Op>)
    ensures RoomFor(script) <= 4 * |Written(script)|
  {
    EscapeTailBound(Written(script));
    PeakIsBounded(script);
  }

  lemma {:induction false} PeakIsBounded(script: seq<Op>)
    ensures Peak(script) <= |Written(script)|
  {
    if script != [] {
      PeakIsBounded(script[..|script| - 1]);
    }
  }

  lemma {:induction false} PeakGrows(script: seq<Op>, i: nat)
    requires i <= |script|
    ensures Peak(script[..i]) <= Peak(script)
    decreases |script|
  {
    hide Flushable, Cursor, Written;
    if i == |script| {
      assert script[..i] == script;
    } else {
      PeakGrows(script[..|script| - 1], i);
      assert script[..|script| - 1][..i] == script[..i];
    }
  }

  /** The tape holds what has not been shown of `all`, and the rest has been shown. */
  ghost predicate Follows(tape: PendingOutputTape, all: seq<byte>, shown: seq<Glyph>)
    reads tape, tape.timeline, tape.timeline.ring, tape.timeline.tails, tape.output
  {
    && tape.Valid()
    && var c := tape.timeline.ring.startOffset;
    && c <= Flushable(all) && Stable(all, c)
    && ViewOf(tape.timeline.ring).Stream() == StdoutTokens(all[c..Flushable(all)])
    && tape.timeline.tails.entries == Held(all)
    && tape.output.offset == Some(c)
    && shown == StdoutGlyphs(all[..c])
  }

  lemma FollowsTotal(tape: PendingOutputTape, all: seq<byte>, shown: seq<Glyph>)
    requires Follows(tape, all, shown)
    ensures tape.timeline.ring.Total() == Flushable(all) - tape.timeline.ring.startOffset
  {
    var ring := tape.timeline.ring;
    OnlyStdout(ViewOf(ring), all[ring.startOffset..Flushable(all)]);
    TailTotal(ring);
  }

  /** `append_text` of raw worker stdout. */
  method WriteOnce(tape: PendingOutputTape, bytes: seq<byte>, ghost all: seq<byte>, ghost shown: seq<Glyph>)
    requires tape.Valid()
    modifies tape.timeline.ring, tape.timeline.tails
    ensures tape.Valid()
    ensures old(Follows(tape, all, shown))
            && Flushable(all + bytes) - old(tape.timeline.ring.startOffset) < tape.timeline.ring.capacity ==>
              Follows(tape, all + bytes, shown) && tape.timeline.ring.startOffset == old(tape.timeline.ring.startOffset)
  {
    hide Flushable, Render, StdoutTokens, Stable, Held;
    ghost var ok := Follows(tape, all, shown);
    ghost var c := tape.timeline.ring.startOffset;
    if ok {
      FollowsTotal(tape, all, shown);
      FlushableMonotone(all, bytes);
      StableGrows(all, bytes, c);
    }
    ghost var ready, i;
    ready, i := tape.timeline.AppendText(bytes, STDOUT, false);
    if bytes == [] {
      assert all + bytes == all;
      NothingReady();
      assert ViewOf(tape.timeline.ring).Stream() + [] == ViewOf(tape.timeline.ring).Stream();
    } else if ok {
      PushReleases(all, bytes, i, tape.timeline.ring.capacity);
      ReleasedTokens(all, bytes, c);
    }
    if ok {
      assert (all + bytes)[..c] == all[..c];
    }
  }

  lemma FlushableMonotone(all: seq<byte>, more: seq<byte>)
    ensures Flushable(all) <= Flushable(all + more)
  {
    FlushableGrows(all, more);
  }

  lemma NothingReady()
    ensures ReadyTokens([]) == [] && ReadySize([]) == 0
  {
  }

  lemma ReadyOne(key: Key, bytes: seq<byte>)
    ensures ReadyTokens([ReadyText(key, bytes)]) == CellTokens(Cells(bytes, key))
    ensures ReadySize([ReadyText(key, bytes)]) == |bytes|
  {
    var ready := [ReadyText(key, bytes)];
    assert ready[..0] == [];
    assert [] + CellTokens(Cells(bytes, key)) == CellTokens(Cells(bytes, key));
  }

  lemma ReleasedTokens(all: seq<byte>, more: seq<byte>, c: nat)
    requires c <= Flushable(all) <= Flushable(all + more)
    ensures var now := all + more;
            && ReadySize(Released(all, more)) == Flushable(now) - Flushable(all)
            && StdoutTokens(all[c..Flushable(all)]) + ReadyTokens(Released(all, more))
               == StdoutTokens(now[c..Flushable(now)])
  {
    hide Flushable;
    var f, now := Flushable(all), all + more;
    var g := Flushable(now);
    var piece := now[f..g];
    ReadyOne(STDOUT, piece);
    NothingReady();
    StdoutConcat(all[c..f], piece);
    assert all[c..f] + piece == now[c..g];
    if f == g {
      assert piece == [] && StdoutTokens(piece) == [];
    }
  }

  method DrainOnce(tape: PendingOutputTape, ghost all: seq<byte>, ghost shown: seq<Glyph>)
      returns (contents: seq<Content>)
    requires tape.Valid()
    modifies tape.timeline.ring, tape.timeline.tails, tape.output
    ensures tape.Valid()
    ensures old(Follows(tape, all, shown)) && old(tape.timeline.ring.Total()) < tape.timeline.ring.capacity ==>
              && Follows(tape, all, shown + Flat(contents))
              && tape.timeline.ring.startOffset == NextCut(all, old(tape.timeline.ring.startOffset))
  {
    hide Flushable, Render, StdoutTokens, Stable, Held, Drained, Flat;
    ghost var ring := tape.timeline.ring;
    ghost var c, f := ring.startOffset, Flushable(all);
    ghost var ok := Follows(tape, all, shown) && ring.Total() < ring.capacity;
    NothingBehindHeld(all);
    NothingReady();
    NoneMaterialize();
    ghost var st := tape.output.lastRendered;
    ghost var ready, before, upTo;
    contents, ready, before, upTo := tape.DrainOutput();
    if ok {
      assert StdoutTokens(all[c..f]) + [] == StdoutTokens(all[c..f]);
      StdoutDrained(before, all[c..f], upTo, false, ViewOf(ring), st, Shown(contents, tape.output.lastRendered));
      DrainStaysStable(all, c);
      AfterDrain(all, c, f, upTo);
    }
  }

  lemma NoneMaterialize()
    ensures MaterializeAll([]) == []
  {
  }

  lemma AfterDrain(all: seq<byte>, c: nat, f: nat, upTo: nat)
    requires c <= upTo <= f <= |all|
    requires Render(all[..upTo]) == Render(all[..c]) + Render(all[c..upTo])
    ensures all[c..f][..upTo - c] == all[c..upTo] && all[c..f][upTo - c..] == all[upTo..f]
    ensures StdoutGlyphs(all[..c]) + StdoutGlyphs(all[c..upTo]) == StdoutGlyphs(all[..upTo])
  {
    hide Render;
    CharsConcat(Render(all[..c]), Render(all[c..upTo]), TextStream.Stdout, Worker, ReplyAndTranscript);
  }

  method DrainLast(tape: PendingOutputTape, ghost all: seq<byte>, ghost shown: seq<Glyph>)
      returns (contents: seq<Content>)
    requires tape.Valid()
    modifies tape.timeline.ring, tape.timeline.tails, tape.output
    ensures old(Follows(tape, all, shown))
            && |EscapeTail(all)| - old(tape.timeline.ring.startOffset) < tape.timeline.ring.capacity ==>
              shown + Flat(contents) == StdoutGlyphs(all)
  {
    hide Flushable, Render, StdoutTokens, Stable, Held, Drained, Flat, Escape;
    ghost var ring := tape.timeline.ring;
    ghost var c, f, e := ring.startOffset, Flushable(all), EscapeTail(all);
    ghost var ok := Follows(tape, all, shown) && |e| - c < ring.capacity;
    if ok {
      FollowsTotal(tape, all, shown);
      SealReleases(all);
      SealedTokens(all, c);
    }
    ghost var st := tape.output.lastRendered;
    ghost var ready, before, upTo;
    contents, ready, before, upTo := tape.DrainFinalOutput();
    if ok {
      StdoutDrained(before, e[c..], upTo, true, ViewOf(ring), st, Shown(contents, tape.output.lastRendered));
      assert e[c..][..|e[c..]|] == e[c..];
      FinalDrainCompletes(all, c);
      CharsConcat(Render(all[..c]), Render(e[c..]), TextStream.Stdout, Worker, ReplyAndTranscript);
    }
  }

  lemma SealedTokens(all: seq<byte>, c: nat)
    requires c <= Flushable(all)
    ensures var f := Flushable(all);
            var ready := if f < |all| then [ReadyText(STDOUT, Escape(all[f..]))] else [];
            && f + ReadySize(ready) == |EscapeTail(all)|
            && StdoutTokens(all[c..f]) + ReadyTokens(ready) == StdoutTokens(EscapeTail(all)[c..])
  {
    hide Flushable, Escape;
    var f, e := Flushable(all), EscapeTail(all);
    var tail := Escape(all[f..]);
    ReadyOne(STDOUT, tail);
    NothingReady();
    StdoutConcat(all[c..f], tail);
    assert all[c..f] + tail == e[c..];
    if f == |all| {
      assert tail == [] && StdoutTokens(tail) == [];
    }
  }

  lemma EscapeTailBound(all: seq<byte>)
    ensures Flushable(all) <= |EscapeTail(all)| <= 4 * |all|
  {
  }

  /** One more operation of the script. */
  lemma NextOperation(script: seq<Op>, i: nat)
    requires i < |script|
    ensures var before, now := script[..i], script[..i + 1];
            && Written(now) == Written(before) + (match script[i] case Write(bytes) => bytes case DrainNow => [])
            && Cursor(now) == (if script[i].DrainNow? then NextCut(Written(now), Cursor(before)) else Cursor(before))
            && Peak(now) == Max(Peak(before), SaturatingSub(Flushable(Written(now)), Cursor(now)))
            && Peak(now) <= Peak(script)
  {
    hide Flushable, NextCut;
    assert script[..i + 1][..i] == script[..i];
    PeakGrows(script, i + 1);
  }

  lemma StartFollows(tape: PendingOutputTape)
    requires tape.Valid() && tape.timeline.ring.log == [] && tape.timeline.ring.events == []
    requires tape.timeline.ring.startOffset == 0 && tape.timeline.tails.entries == [] && tape.output.offset == Some(0)
    ensures Follows(tape, [], [])
  {
    var none: seq<byte> := [];
    assert none[..0] == none && none[0..0] == none;
    assert Cells(none, STDOUT) == [] && CellTokens([]) == [];
  }

  /**
    Runs any script of writes and drains and a final drain.  When the capacity
    exceeds the room the script needs, so that nothing is evicted, the client has
    seen the rendering of everything written, however it was split and drained.
   */
  method RunStdout(capacity: nat, script: seq<Op>) returns (shown: seq<Glyph>)
    requires capacity > 0
    ensures RoomFor(script) < capacity ==> shown == StdoutGlyphs(Written(script))
  {
    hide Flushable, Render, Stable, Held, Flat, Escape, EscapeTail, StdoutTokens, StdoutGlyphs, Written, Cursor;
    hide Peak, NextCut, Ascending, Tiles, Sorted, Flatten, LineEnds, SumLens, SumSizes, Tokens, WellKept;
    var tape := new PendingOutputTape(capacity);
    shown := [];
    StartFollows(tape);
    AtTheStart();
    ghost var roomy := RoomFor(script) < capacity;
    var i := 0;
    assert script[..0] == [];
    while i < |script|
      invariant i <= |script| && fresh(tape.timeline.ring) && fresh(tape.timeline.tails) && fresh(tape.output)
      invariant tape.Valid() && tape.timeline.ring.capacity == capacity
      invariant roomy ==>
                  Follows(tape, Written(script[..i]), shown) && tape.timeline.ring.startOffset == Cursor(script[..i])
      invariant roomy ==> SaturatingSub(Flushable(Written(script[..i])), Cursor(script[..i])) < capacity
    {
      ghost var all := Written(script[..i]);
      NextOperation(script, i);
      match script[i] {
        case Write(bytes) =>
          WriteOnce(tape, bytes, all, shown);
        case DrainNow =>
          assert all + [] == all;
          if roomy {
            FollowsTotal(tape, all, shown);
          }
          var contents := DrainOnce(tape, all, shown);
          shown := shown + Flat(contents);
      }
      i := i + 1;
    }
    assert script[..i] == script;
    var contents := DrainLast(tape, Written(script), shown);
    shown := shown + Flat(contents);
  }

  lemma AtTheStart()
    ensures Written([]) == [] && Cursor([]) == 0 && Peak([]) == 0 && Flushable([]) == 0
  {
  }
}
