/**
  `OutputBuffer`: the cursor that drains a ring into rendered contents, carrying
  its offset and the renderer's text state from one drain to the next.
 */
module Drain {
  import opened Sequences
  import opened Utf8
  import opened Wrappers
  import opened Timeline
  import opened RingScans
  import opened RangeReading
  import opened Rendering
  import opened Renderer
  import opened StreamRendering
  import opened Delivery
  import opened OutputRing

  // ----- trimming a range to complete UTF-8

  function TrimOne(span: Span, k: nat): seq<Span> {
    if span.start >= k then []
    else
      var end := if span.end < k then span.end else k;
      if span.start < end then [span.(end := end)] else []
  }

  function TrimSpans(spans: seq<Span>, k: nat): seq<Span> {
    if spans == [] then [] else TrimSpans(spans[..|spans| - 1], k) + TrimOne(spans[|spans| - 1], k)
  }

  ghost predicate EndAt(spans: seq<Span>, n: nat) {
    && (spans != [] ==> spans[|spans| - 1].end == n)
    && forall i :: 0 <= i < |spans| ==> spans[i].start < spans[i].end <= n
  }

  lemma {:induction false} RunsEnd(cells: seq<Cell>)
    ensures EndAt(Runs(cells), |cells|)
  {
    hide EndAt, AddRun;
    if cells == [] {
      NoSpansEnd();
    } else {
      var n := |cells| - 1;
      RunsEnd(cells[..n]);
      AddRunEnds(Runs(cells[..n]), n, cells[n].key);
    }
  }

  lemma NoSpansEnd()
    ensures EndAt([], 0)
  {
  }

  lemma AddRunEnds(spans: seq<Span>, n: nat, key: Key)
    requires EndAt(spans, n)
    ensures EndAt(AddRun(spans, n, key, 1), n + 1)
  {
  }

  lemma {:induction false} TrimSpansWhole(spans: seq<Span>, k: nat)
    requires forall i :: 0 <= i < |spans| ==> spans[i].start < spans[i].end <= k
    ensures TrimSpans(spans, k) == spans
  {
    if spans != [] {
      var n := |spans| - 1;
      WholeSpanStays(spans[n], k);
      TrimSpansLast(spans, k);
      hide TrimOne, TrimSpans;
      TrimSpansWhole(spans[..n], k);
      assert spans[..n] + [spans[n]] == spans;
    }
  }

  lemma TrimSpansLast(spans: seq<Span>, k: nat)
    requires spans != []
    ensures var n := |spans| - 1;
            TrimSpans(spans, k) == TrimSpans(spans[..n], k) + TrimOne(spans[n], k)
  {
    hide TrimOne;
  }

  lemma WholeSpanStays(span: Span, k: nat)
    requires span.start < span.end <= k
    ensures TrimOne(span, k) == [span]
  {
  }

  lemma TrimAddRun(spans: seq<Span>, n: nat, key: Key, k: nat)
    requires k <= n
    requires spans != [] ==> spans[|spans| - 1].end == n
    ensures TrimSpans(AddRun(spans, n, key, 1), k) == TrimSpans(spans, k)
  {
    var more := AddRun(spans, n, key, 1);
    var last := more[|more| - 1];
    if spans != [] && spans[|spans| - 1].key == key {
      assert more[..|more| - 1] == spans[..|spans| - 1];
      assert TrimOne(last, k) == TrimOne(spans[|spans| - 1], k);
    } else {
      assert more[..|more| - 1] == spans;
      assert TrimOne(last, k) == [];
    }
  }

  /** Trimming the spans of a range gives the spans of the trimmed range. */
  lemma {:induction false} TrimSpansOfRuns(cells: seq<Cell>, k: nat)
    requires k <= |cells|
    ensures TrimSpans(Runs(cells), k) == Runs(cells[..k])
  {
    hide AddRun, TrimSpans, TrimOne;
    if k == |cells| {
      assert cells[..k] == cells;
      RunsEnd(cells);
      TrimSpansWhole(Runs(cells), k);
    } else {
      var n := |cells| - 1;
      var front := cells[..n];
      TrimSpansOfRuns(front, k);
      assert front[..k] == cells[..k];
      RunsEnd(front);
      TrimAddRun(Runs(front), n, cells[n].key, k);
    }
  }

  /** `trim_range_to_complete_utf8`, which returns the new end with the range. */
  method TrimRangeToCompleteUtf8(range: OutputRange, ghost cells: seq<Cell>) returns (trimmed: OutputRange)
    ensures RangeOf(range, cells) ==>
              && RangeOf(trimmed, cells[..Flushable(range.bytes)]) && trimmed.start == range.start
              && trimmed.events == range.events[..Through(range.events, trimmed.end)]
  {
    hide Flushable, Runs, BytesOf, Sorted, Through, TrimOne;
    var flushable := FlushablePrefixLen(range.bytes);
    if flushable == |range.bytes| {
      TrimNothing(range, cells);
      return range;
    }
    var end := range.start + flushable;
    var events := RetainThrough(range.events, range.start, range.end, end);
    var spans := [];
    for i := 0 to |range.spans|
      invariant spans == TrimSpans(range.spans[..i], flushable)
    {
      assert range.spans[..i + 1][..i] == range.spans[..i];
      spans := spans + TrimOne(range.spans[i], flushable);
    }
    assert range.spans[..|range.spans|] == range.spans;
    trimmed := OutputRange(range.start, end, range.bytes[..flushable], events, spans);
    if RangeOf(range, cells) {
      TrimSpansOfRuns(cells, flushable);
      SliceBytes(cells, 0, flushable);
      assert range.bytes[..flushable] == range.bytes[0..flushable] && cells[..flushable] == cells[0..flushable];
    }
  }

  lemma TrimNothing(range: OutputRange, cells: seq<Cell>)
    ensures RangeOf(range, cells) ==>
              && RangeOf(range, cells[..|range.bytes|])
              && range.events == range.events[..Through(range.events, range.end)]
  {
    if RangeOf(range, cells) {
      assert cells[..|range.bytes|] == cells;
      SortedPairs(range.events, range.start, range.end);
      AllThrough(range.events, range.end);
    }
  }

  lemma {:induction false} AllThrough(events: seq<Event>, o: nat)
    requires forall i :: 0 <= i < |events| ==> events[i].offset <= o
    ensures Through(events, o) == |events| && events[..Through(events, o)] == events
  {
    if events != [] {
      AllThrough(events[1..], o);
    }
  }

  method RetainThrough(events: seq<Event>, ghost lo: nat, ghost hi: nat, o: nat) returns (kept: seq<Event>)
    ensures Sorted(events, lo, hi) && lo <= o <= hi ==>
              kept == events[..Through(events, o)] && Sorted(kept, lo, o)
  {
    ghost var sorted := Sorted(events, lo, hi) && lo <= o <= hi;
    ghost var n := Through(events, o);
    if sorted {
      ThroughSplits(events, lo, hi, o);
    }
    kept := [];
    for i := 0 to |events|
      invariant sorted ==> kept == events[..if i < n then i else n]
    {
      if events[i].offset <= o {
        kept := kept + [events[i]];
      }
    }
    if sorted {
      assert events == events[..n] + events[n..];
      SortedSplit(events[..n], events[n..], lo, o, hi);
    }
  }

  // ----- the cursor

  /** What the Tail ring holds. */
  ghost function ViewOf(ring: Ring): View
    requires ring.Valid() && ring.retention.Tail?
    reads ring
  {
    View(ring.startOffset, ring.log[ring.startOffset..], ring.events)
  }

  class OutputBuffer {
    const ring: Ring
    var offset: Option<nat>
    var lastRendered: Carried

    constructor (ring: Ring)
      ensures this.ring == ring && offset == None && lastRendered == None
    {
      this.ring := ring;
      offset, lastRendered := None, None;
    }

    /** `start_capture`. */
    method StartCapture()
      modifies this
      ensures offset == if old(offset).Some? then old(offset) else Some(ring.startOffset)
      ensures lastRendered == old(lastRendered)
    {
      if offset.None? {
        offset := Some(ring.startOffset);
      }
    }

    /** The range a drain will show: up to the measured end, or to the last complete sequence before it. */
    method ReadForDrain(start: nat, end: nat, flushIncomplete: bool) returns (range: OutputRange)
      requires ring.Valid() && ring.retention.Tail?
      ensures start <= ring.startOffset <= end <= ring.endOffset ==>
                ReadsView(ViewOf(ring), end, range, flushIncomplete)
    {
      hide Flushable, Runs, BytesOf, EventsIn, Through, Sorted, Ascending, Tiles, Flatten, LineEnds, SumLens,
          SumSizes, Clip;
      ghost var cells;
      range, cells := ring.ReadRange(start, end);
      if start <= ring.startOffset <= end <= ring.endOffset {
        ghost var v := ViewOf(ring);
        SliceDrop(ring.log, v.start, 0, end - v.start);
        assert v.cells[0..end - v.start] == v.cells[..end - v.start];
        ReadIsRangeOf(v, end, range, cells);
        TrimmedCells(v.cells, cells, end - v.start, Flushable(range.bytes));
        ThroughPrefix(v.events, v.start + Flushable(range.bytes), end);
      }
      if !flushIncomplete {
        range := TrimRangeToCompleteUtf8(range, cells);
      }
    }

    /** `advance_offset_to_with_rendered_text_and_boundary_events`. */
    method AdvanceOffsetTo(target: nat, state: Carried, boundary: nat)
      requires ring.Valid() && ring.retention.Tail?
      modifies this, ring
      ensures ring.Valid() && ring.log == old(ring.log) && ring.endOffset == old(ring.endOffset)
      ensures offset == Some(target) && lastRendered == state
      ensures old(ring.startOffset) <= target <= ring.endOffset ==>
                ViewOf(ring) == Consume(old(ViewOf(ring)), target, boundary)
    {
      hide DropTo, DropEventsAt, DropEventsBelow;
      ghost var v := ViewOf(ring);
      offset := Some(target);
      lastRendered := state;
      ring.ConsumeToWithBoundaryEvents(target, boundary);
      if v.start <= target <= ring.endOffset {
        DropDrop(ring.log, v.start, target - v.start);
      }
    }

    /**
      `drain_formatted` with no append in between: shows the tokens up to an
      offset, and leaves exactly the tokens after it.
     */
    method DrainFormatted(mode: ProjectionMode, flushIncomplete: bool)
        returns (contents: seq<Content>, sawStderr: bool, ghost upTo: nat)
      requires ring.Valid() && ring.retention.Tail?
      modifies this, ring
      ensures ring.Valid() && ring.log == old(ring.log) && ring.endOffset == old(ring.endOffset)
      ensures old(offset).None? ==>
                contents == [] && !sawStderr && offset == None && ViewOf(ring) == old(ViewOf(ring))
      ensures old(offset).Some? && old(offset).value <= old(ring.startOffset) ==>
                && offset == Some(upTo) && ring.startOffset == upTo
                && Drained(old(ViewOf(ring)), upTo, flushIncomplete, ViewOf(ring),
                           mode, old(lastRendered), Shown(contents, lastRendered))
                && (sawStderr <==> HasStderr(old(ViewOf(ring)).cells[..upTo - old(ring.startOffset)]))
    {
      hide HasStderr, ReadsView, Drained, Runs, BytesOf, DropTo, DropEventsAt, DropEventsBelow, CountAt, Flat, Consume;
      contents, sawStderr, upTo := [], false, 0;
      if offset.None? {
        return;
      }
      ghost var v := ViewOf(ring);
      ghost var st := lastRendered;
      var inStep := offset.value <= ring.startOffset;
      var range := ReadForDrain(offset.value, ring.endOffset, flushIncomplete);
      upTo := range.end;
      var boundary := BoundaryCount(range.events, range.end);
      sawStderr := ring.SawStderrInRange(Min(offset.value, range.end), range.end);
      var state;
      contents, state := ContentsFromOutputRange(range, mode, lastRendered);
      if inStep {
        DrainMeaning(v, range, flushIncomplete, mode, st);
        ConsumeStart(v, range.end, boundary);
        TakenCells(ring.log, v.start, range.end, v.cells);
      }
      AdvanceOffsetTo(range.end, state, boundary);
    }
  }

  lemma TakenCells(log: seq<Cell>, start: nat, end: nat, cells: seq<Cell>)
    requires start <= end <= |log| && cells == log[start..]
    ensures cells[..end - start] == log[start..end]
  {
  }

  lemma ConsumeStart(v: View, c: nat, n: nat)
    requires v.start <= c <= v.End()
    ensures Consume(v, c, n).start == c
  {
  }

  /** Cutting what was read again is cutting the view earlier. */
  lemma TrimmedCells(all: seq<Cell>, cells: seq<Cell>, n: nat, k: nat)
    requires k <= n <= |all| && cells == all[..n]
    ensures cells[..k] == all[..k]
  {
  }

  /** Where a drain stops that has measured `end`: there, or at the last complete sequence before. */
  function ReadEnd(v: View, end: nat, flushIncomplete: bool): (upTo: nat)
    requires v.start <= end <= v.End()
    ensures v.start <= upTo <= end
  {
    if flushIncomplete then end else v.start + Flushable(BytesOf(v.cells[..end - v.start]))
  }

  /** The range holds what a drain of v that has measured `end` takes. */
  ghost predicate ReadsView(v: View, end: nat, range: OutputRange, flushIncomplete: bool)
    requires v.start <= end <= v.End()
  {
    && v.Ok() && range.start == v.start
    && range.end == ReadEnd(v, end, flushIncomplete)
    && range.events == v.events[..Through(v.events, range.end)]
    && RangeOf(range, v.cells[..range.end - v.start])
  }

  /** Where a drain of v stops: at its end, or at the last complete sequence. */
  function DrainEnd(v: View, flushIncomplete: bool): (end: nat)
    ensures v.start <= end <= v.End()
  {
    if flushIncomplete then v.End() else v.start + Flushable(BytesOf(v.cells))
  }

  /** A drain of v up to an offset: what it shows, and what it leaves. */
  ghost predicate Drained(v: View, upTo: nat, flushIncomplete: bool, left: View, mode: ProjectionMode, st: Carried,
                          shown: Rendered)
  {
    && upTo == DrainEnd(v, flushIncomplete)
    && shown == RenderTokens(Taken(v, upTo).Stream(), mode, st)
    && v.Stream() == Taken(v, upTo).Stream() + left.Stream()
  }

  /** What a range that was read shows. */
  lemma ReadShows(v: View, end: nat, range: OutputRange, flushIncomplete: bool, mode: ProjectionMode, st: Carried)
    requires v.start <= end <= v.End() && ReadsView(v, end, range, flushIncomplete)
    ensures Taken(v, range.end).events == range.events
    ensures RenderRange(range, mode, st) == RenderTokens(Taken(v, range.end).Stream(), mode, st)
  {
    hide Tokens, RenderTokens, Runs, BytesOf, Through, RenderRange, Rebase;
    RangeRendersAsTokens(range, v.cells[..range.end - v.start], mode, st);
  }

  lemma DrainMeaning(v: View, range: OutputRange, flushIncomplete: bool, mode: ProjectionMode, st: Carried)
    requires ReadsView(v, v.End(), range, flushIncomplete)
    ensures v.start <= range.end <= v.End()
    ensures Drained(v, range.end, flushIncomplete, Consume(v, range.end, CountAt(range.events, range.end)), mode, st,
                    RenderRange(range, mode, st))
  {
    hide Tokens, RenderTokens, Runs, BytesOf, DropEventsAt, DropEventsBelow, Through, CountAt;
    hide Flushable, RenderRange, Rebase, RangeOf, Sorted;
    assert v.cells[..|v.cells|] == v.cells;
    ReadShows(v, v.End(), range, flushIncomplete, mode, st);
    DrainRemovesExactlyWhatItRead(v, v, range.end);
  }

  method BoundaryCount(events: seq<Event>, o: nat) returns (n: nat)
    ensures n == CountAt(events, o)
  {
    n := 0;
    var i := 0;
    assert events[0..] == events;
    while i < |events|
      invariant i <= |events|
      invariant n + CountAt(events[i..], o) == CountAt(events, o)
    {
      assert events[i..][1..] == events[i + 1..];
      if events[i].offset == o {
        n := n + 1;
      }
      i := i + 1;
    }
    assert events[i..] == [];
  }

  /** A range read from the start of a view to some end. */
  lemma ReadIsRangeOf(v: View, end: nat, range: OutputRange, cells: seq<Cell>)
    requires v.Ok() && v.start <= end <= v.End() && range.start == v.start && range.end == end
    requires cells == v.cells[..end - v.start] && range.bytes == BytesOf(cells) && range.spans == Runs(cells)
    requires range.events == EventsIn(v.events, v.start, end)
    ensures RangeOf(range, cells) && range.events == v.events[..Through(v.events, end)]
  {
    hide Runs, BytesOf, Through, Sorted;
    EventsInIsPrefix(v.events, v.start, v.End(), end);
    ThroughIsSorted(v.events, v.start, end, v.End());
  }

  lemma ThroughIsSorted(events: seq<Event>, lo: nat, mid: nat, hi: nat)
    requires Sorted(events, lo, hi) && lo <= mid <= hi
    ensures Sorted(events[..Through(events, mid)], lo, mid)
  {
    hide Sorted;
    ThroughSplits(events, lo, hi, mid);
    var k := Through(events, mid);
    hide Through;
    assert events[..k] + events[k..] == events;
    SortedSplit(events[..k], events[k..], lo, mid, hi);
  }

  // ----- the sections of a drain are the steps of the interleaved system

  /** Reading after a measurement is the reading step, whatever was appended in between. */
  lemma ReadIsStep(s: System, range: OutputRange, flushIncomplete: bool)
    requires s.phase.Measured? && s.ring.start <= s.phase.end <= s.ring.End()
    requires ReadsView(s.ring, s.phase.end, range, flushIncomplete)
    ensures Delivery.Step(s, Action.ReadRange(range.end),
                          s.(phase := Read(s.ring, range.end, CountAt(range.events, range.end))))
  {
    hide Runs, BytesOf, Tokens, Flushable, Through, CountAt, Sorted;
    EventsInIsPrefix(s.ring.events, s.ring.start, s.ring.End(), s.phase.end);
    ThroughPrefix(s.ring.events, range.end, s.phase.end);
  }
}
