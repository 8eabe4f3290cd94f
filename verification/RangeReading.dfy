/**
  Reading a range out of the ring: the retained bytes between two offsets, the
  spans that label them, and the events positioned among them.
 */
module RangeReading {
  import opened Sequences
  import opened Utf8
  import opened Timeline

  datatype Span = Span(start: nat, end: nat, key: Key)

  datatype OutputRange = OutputRange(
    start: nat, end: nat, bytes: seq<byte>, events: seq<Event>, spans: seq<Span>)

  // ----- clipping chunks to a range

  function ClipOne(c: Chunk, s: nat, e: nat): seq<Chunk> {
    if c.End() <= s || e <= c.start || e <= s || c.bytes == [] then []
    else
      var lo := if s < c.start then 0 else s - c.start;
      var hi := if e < c.End() then e - c.start else |c.bytes|;
      [Chunk(c.start + lo, c.bytes[lo..hi], c.key)]
  }

  /** The parts of the chunks inside [s, e). */
  function Clip(chunks: seq<Chunk>, s: nat, e: nat): seq<Chunk> {
    if chunks == [] then [] else ClipOne(chunks[0], s, e) + Clip(chunks[1..], s, e)
  }

  lemma {:induction false} ClipPastEnd(chunks: seq<Chunk>, lo: nat, hi: nat, s: nat, e: nat)
    requires Ascending(chunks, lo, hi) && e <= lo
    ensures Clip(chunks, s, e) == []
  {
    if chunks != [] {
      ClipPastEnd(chunks[1..], chunks[0].End(), hi, s, e);
    }
  }

  lemma {:induction false} ClipConcat(a: seq<Chunk>, b: seq<Chunk>, s: nat, e: nat)
    ensures Clip(a + b, s, e) == Clip(a, s, e) + Clip(b, s, e)
  {
    hide ClipOne;
    if a == [] {
      assert a + b == b;
    } else {
      ClipConcat(a[1..], b, s, e);
      assert (a + b)[1..] == a[1..] + b;
      Assoc3(ClipOne(a[0], s, e), Clip(a[1..], s, e), Clip(b, s, e));
    }
  }

  ghost predicate ClipIsSlice(chunks: seq<Chunk>, lo: nat, s: nat, e: nat) {
    && lo <= s <= e <= lo + |Flatten(chunks)|
    && Flatten(Clip(chunks, s, e)) == Flatten(chunks)[s - lo..e - lo]
  }

  /** Clipping tiled chunks is slicing their bytes. */
  lemma {:induction false} ClipTiles(chunks: seq<Chunk>, lo: nat, hi: nat, s: nat, e: nat)
    requires Tiles(chunks, lo, hi) && lo <= s <= e <= hi
    ensures ClipIsSlice(chunks, lo, s, e)
    decreases |chunks|
  {
    hide ClipIsSlice, Flatten, Clip, Cells, Ascending, Tiles;
    if chunks == [] {
      ClipNothing(lo, hi, s, e);
    } else {
      var c, rest := chunks[0], chunks[1..];
      TilesFirst(chunks, lo, hi);
      if e <= c.End() {
        ClipTilesInFirst(chunks, hi, s, e);
      } else {
        var m := if c.End() <= s then s else c.End();
        ClipTiles(rest, c.End(), hi, m, e);
        ClipTilesBeyond(chunks, hi, s, e, m);
      }
    }
  }

  lemma ClipNothing(lo: nat, hi: nat, s: nat, e: nat)
    requires Tiles([], lo, hi) && lo <= s <= e <= hi
    ensures ClipIsSlice([], lo, s, e)
  {
    assert Flatten([])[s - lo..e - lo] == [];
  }

  lemma TilesFirst(chunks: seq<Chunk>, lo: nat, hi: nat)
    requires chunks != [] && Tiles(chunks, lo, hi)
    ensures var c, rest := chunks[0], chunks[1..];
            && c.start == lo && c.bytes != [] && c.End() <= hi
            && Tiles(rest, c.End(), hi) && Ascending(rest, c.End(), hi)
            && Flatten(chunks) == Cells(c.bytes, c.key) + Flatten(rest)
            && |Flatten(rest)| == hi - c.End()
  {
    FlattenLength(chunks[1..]);
    TilesAscend(chunks[1..], chunks[0].End(), hi);
  }

  lemma UnfoldClip(chunks: seq<Chunk>, s: nat, e: nat)
    requires chunks != [] && chunks[0].bytes != [] && chunks[0].start <= s <= e
    ensures var c := chunks[0];
            var cells := Cells(c.bytes, c.key);
            var end := if e < c.End() then e - c.start else |c.bytes|;
            var first := if s >= c.End() then [] else cells[s - c.start..end];
            Flatten(Clip(chunks, s, e)) == first + Flatten(Clip(chunks[1..], s, e))
  {
    hide Cells, ClipOne, LineEnds, SumLens;
    FlattenConcat(ClipOne(chunks[0], s, e), Clip(chunks[1..], s, e));
    ClipOneCells(chunks[0], s, e);
  }

  lemma ClipTilesInFirst(chunks: seq<Chunk>, hi: nat, s: nat, e: nat)
    requires chunks != [] && Tiles(chunks, chunks[0].start, hi) && chunks[0].start <= s <= e <= chunks[0].End()
    ensures ClipIsSlice(chunks, chunks[0].start, s, e)
  {
    hide Cells, Clip, Flatten, Ascending, Tiles;
    var c := chunks[0];
    TilesFirst(chunks, c.start, hi);
    UnfoldClip(chunks, s, e);
    ClipPastEnd(chunks[1..], c.End(), hi, s, e);
    EmptyFlatten();
    SliceFirst(Cells(c.bytes, c.key), Flatten(chunks[1..]), s - c.start, e - c.start);
  }

  lemma ClipTilesBeyond(chunks: seq<Chunk>, hi: nat, s: nat, e: nat, m: nat)
    requires chunks != [] && Tiles(chunks, chunks[0].start, hi) && chunks[0].start <= s <= e <= hi
    requires chunks[0].End() < e && m == if chunks[0].End() <= s then s else chunks[0].End()
    requires ClipIsSlice(chunks[1..], chunks[0].End(), m, e)
    ensures ClipIsSlice(chunks, chunks[0].start, s, e)
  {
    hide Cells, Clip, Flatten, Ascending, Tiles;
    var c, rest := chunks[0], chunks[1..];
    TilesFirst(chunks, c.start, hi);
    UnfoldClip(chunks, s, e);
    if c.End() <= s {
      SliceSecond(Cells(c.bytes, c.key), Flatten(rest), s - c.start, e - c.start);
    } else {
      ClipFromStart(rest, c.End(), hi, s, e);
      SliceAcross(Cells(c.bytes, c.key), Flatten(rest), s - c.start, e - c.start);
    }
  }

  lemma EmptyFlatten()
    ensures Flatten([]) == []
  {
  }

  lemma ClipOneCells(c: Chunk, s: nat, e: nat)
    requires c.bytes != [] && c.start <= s <= e
    ensures Flatten(ClipOne(c, s, e)) ==
              if s >= c.End() then []
              else Cells(c.bytes, c.key)[s - c.start..if e < c.End() then e - c.start else |c.bytes|]
  {
    if s < e && s < c.End() {
      var d := ClipOne(c, s, e)[0];
      assert ClipOne(c, s, e) == [d] && [d][1..] == [];
    }
  }

  /** Below the first chunk, where the range starts does not matter. */
  lemma {:induction false} ClipFromStart(chunks: seq<Chunk>, lo: nat, hi: nat, s: nat, e: nat)
    requires Ascending(chunks, lo, hi) && s <= lo <= e
    ensures Clip(chunks, s, e) == Clip(chunks, lo, e)
  {
    if chunks != [] {
      var c := chunks[0];
      if e <= c.start {
        ClipPastEnd(chunks, c.start, hi, s, e);
        ClipPastEnd(chunks, c.start, hi, lo, e);
      } else {
        assert ClipOne(c, s, e) == ClipOne(c, lo, e);
        if e <= c.End() {
          ClipPastEnd(chunks[1..], c.End(), hi, s, e);
          ClipPastEnd(chunks[1..], c.End(), hi, lo, e);
        } else {
          ClipFromStart(chunks[1..], c.End(), hi, s, e);
          ClipFromStart(chunks[1..], c.End(), hi, lo, e);
        }
      }
    }
  }

  lemma SliceFirst<T>(a: seq<T>, b: seq<T>, i: nat, j: nat)
    requires i <= j <= |a|
    ensures (a + b)[i..j] == a[i..j]
  {
  }

  lemma SliceSecond<T>(a: seq<T>, b: seq<T>, i: nat, j: nat)
    requires |a| <= i <= j <= |a| + |b|
    ensures (a + b)[i..j] == b[i - |a|..j - |a|]
  {
  }

  lemma SliceAcross<T>(a: seq<T>, b: seq<T>, i: nat, j: nat)
    requires i <= |a| <= j <= |a| + |b|
    ensures (a + b)[i..j] == a[i..|a|] + b[0..j - |a|]
  {
  }

  // ----- label spans

  /** Extends the last span, or starts a new one where the label changes. */
  function AddRun(spans: seq<Span>, end: nat, key: Key, n: nat): seq<Span> {
    if spans != [] && spans[|spans| - 1].key == key
    then spans[..|spans| - 1] + [spans[|spans| - 1].(end := end + n)]
    else spans + [Span(end, end + n, key)]
  }

  /** The maximal runs of equally labelled bytes. */
  function Runs(cells: seq<Cell>): seq<Span> {
    if cells == [] then []
    else
      var n := |cells| - 1;
      AddRun(Runs(cells[..n]), n, cells[n].key, 1)
  }

  lemma {:induction false} RunsAppend(cells: seq<Cell>, bytes: seq<byte>, key: Key)
    requires bytes != []
    ensures Runs(cells + Cells(bytes, key)) == AddRun(Runs(cells), |cells|, key, |bytes|)
    decreases |bytes|
  {
    var n := |bytes| - 1;
    hide AddRun, Cells;
    CellsSnoc(cells, bytes, key);
    if n > 0 {
      RunsAppend(cells, bytes[..n], key);
      AddRunTwice(Runs(cells), |cells|, key, n);
    }
  }

  lemma AddRunTwice(spans: seq<Span>, end: nat, key: Key, n: nat)
    ensures AddRun(AddRun(spans, end, key, n), end + n, key, 1) == AddRun(spans, end, key, n + 1)
  {
    var front := if spans != [] && spans[|spans| - 1].key == key then spans[..|spans| - 1] else spans;
    var once := AddRun(spans, end, key, n);
    assert once[..|once| - 1] == front && once[|once| - 1].key == key;
  }

  lemma CellsSnoc(cells: seq<Cell>, bytes: seq<byte>, key: Key)
    requires bytes != []
    ensures var all := cells + Cells(bytes, key);
            && all[|all| - 1] == Cell(bytes[|bytes| - 1], key)
            && all[..|all| - 1] == cells + Cells(bytes[..|bytes| - 1], key)
    ensures |bytes| == 1 ==> cells + Cells(bytes[..|bytes| - 1], key) == cells
  {
  }

  /** The spans cover all cells, touch, carry their cells' label, and differ from their neighbours. */
  ghost predicate LabelsExactly(spans: seq<Span>, cells: seq<Cell>) {
    if spans == [] then cells == []
    else
      var front, last := spans[..|spans| - 1], spans[|spans| - 1];
      && last.start < last.end == |cells|
      && (front != [] ==> front[|front| - 1].key != last.key)
      && (forall i :: last.start <= i < last.end ==> cells[i].key == last.key)
      && LabelsExactly(front, cells[..last.start])
  }

  /** The spans of a range are a partition of it into maximal runs... */
  lemma {:induction false} RunsLabelExactly(cells: seq<Cell>)
    ensures LabelsExactly(Runs(cells), cells)
  {
    hide AddRun, LabelsExactly;
    if cells == [] {
      NoRuns();
    } else {
      var n := |cells| - 1;
      RunsLabelExactly(cells[..n]);
      AddRunLabels(Runs(cells[..n]), cells[..n], cells[n]);
      assert cells[..n] + [cells[n]] == cells;
    }
  }

  lemma NoRuns()
    ensures LabelsExactly([], [])
  {
  }

  lemma AddRunLabels(spans: seq<Span>, cells: seq<Cell>, c: Cell)
    requires LabelsExactly(spans, cells)
    ensures LabelsExactly(AddRun(spans, |cells|, c.key, 1), cells + [c])
  {
    var all := cells + [c];
    var more := AddRun(spans, |cells|, c.key, 1);
    var last := more[|more| - 1];
    if spans != [] && spans[|spans| - 1].key == c.key {
      assert more[..|more| - 1] == spans[..|spans| - 1];
      assert all[..last.start] == cells[..last.start];
    } else {
      assert more[..|more| - 1] == spans;
      assert all[..last.start] == cells;
    }
  }

  // ----- events in a range

  /** The events read for [s, e]: skipping those below s, stopping at the first above e. */
  function EventsIn(events: seq<Event>, s: nat, e: nat): seq<Event> {
    if events == [] then []
    else if events[0].offset < s then EventsIn(events[1..], s, e)
    else if events[0].offset > e then []
    else [events[0]] + EventsIn(events[1..], s, e)
  }

  // ----- the loops

  /** `collect_range`: the slices of the retained chunks. */
  method CollectSlices(chunks: seq<Chunk>, ghost lo: nat, ghost hi: nat, s: nat, e: nat) returns (slices: seq<Chunk>)
    requires Ascending(chunks, lo, hi)
    ensures slices == Clip(chunks, s, e)
  {
    hide Ascending, Clip, ClipOne;
    slices := [];
    if s >= e {
      ClipEmptyRange(chunks, s, e);
      return;
    }
    assert chunks[..0] == [];
    ClipNone(s, e);
    var i := 0;
    while i < |chunks|
      invariant i <= |chunks|
      invariant slices == Clip(chunks[..i], s, e)
    {
      if chunks[i].start >= e {
        StopClipping(chunks, lo, hi, s, e, i);
        return;
      }
      ClipNext(chunks, s, e, i);
      var slice := SliceChunk(chunks[i], s, e);
      slices := slices + slice;
      i := i + 1;
    }
    assert chunks[..|chunks|] == chunks;
  }

  method SliceChunk(chunk: Chunk, s: nat, e: nat) returns (slice: seq<Chunk>)
    requires chunk.start < e && s < e
    ensures slice == ClipOne(chunk, s, e)
  {
    if chunk.End() <= s {
      return [];
    }
    var from := if s < chunk.start then 0 else s - chunk.start;
    var until := if e - chunk.start < |chunk.bytes| then e - chunk.start else |chunk.bytes|;
    if from >= until {
      return [];
    }
    return [Chunk(chunk.start + from, chunk.bytes[from..until], chunk.key)];
  }

  lemma ClipNone(s: nat, e: nat)
    ensures Clip([], s, e) == []
  {
  }

  lemma {:induction false} ClipEmptyRange(chunks: seq<Chunk>, s: nat, e: nat)
    requires e <= s
    ensures Clip(chunks, s, e) == []
  {
    if chunks != [] {
      ClipEmptyRange(chunks[1..], s, e);
    }
  }

  lemma ClipNext(chunks: seq<Chunk>, s: nat, e: nat, i: nat)
    requires i < |chunks|
    ensures Clip(chunks[..i + 1], s, e) == Clip(chunks[..i], s, e) + ClipOne(chunks[i], s, e)
  {
    hide ClipOne;
    assert chunks[..i + 1] == chunks[..i] + [chunks[i]];
    assert [chunks[i]][1..] == [] && ClipOne(chunks[i], s, e) + [] == ClipOne(chunks[i], s, e);
    ClipConcat(chunks[..i], [chunks[i]], s, e);
  }

  lemma StopClipping(chunks: seq<Chunk>, lo: nat, hi: nat, s: nat, e: nat, i: nat)
    requires Ascending(chunks, lo, hi) && i < |chunks| && chunks[i].start >= e
    ensures Clip(chunks, s, e) == Clip(chunks[..i], s, e)
  {
    var a, b := chunks[..i], chunks[i..];
    assert chunks == a + b;
    AscendingConcat(a, b, lo, hi);
    ClipConcat(a, b, s, e);
    ClipPastEnd(b, chunks[i].start, hi, s, e);
    assert Clip(a, s, e) + [] == Clip(a, s, e);
  }

  method CollectEvents(events: seq<Event>, s: nat, e: nat) returns (out: seq<Event>)
    ensures out == if s <= e then EventsIn(events, s, e) else []
  {
    out := [];
    if s <= e {
      var i := 0;
      assert events[0..] == events;
      while i < |events|
        invariant i <= |events|
        invariant out + EventsIn(events[i..], s, e) == EventsIn(events, s, e)
      {
        var event := events[i];
        assert events[i..][1..] == events[i + 1..];
        if event.offset > e {
          return;
        }
        if event.offset >= s {
          Assoc3(out, [event], EventsIn(events[i + 1..], s, e));
          out := out + [event];
        }
        i := i + 1;
      }
    }
  }

  /** Some of the bytes were written to stderr. */
  predicate HasStderr(cells: seq<Cell>) {
    exists i :: 0 <= i < |cells| && cells[i].key.isStderr
  }

  lemma HasStderrConcat(a: seq<Cell>, b: seq<Cell>)
    ensures HasStderr(a + b) <==> HasStderr(a) || HasStderr(b)
  {
    if i :| 0 <= i < |a| && a[i].key.isStderr {
      assert (a + b)[i].key.isStderr;
    }
    if i :| 0 <= i < |b| && b[i].key.isStderr {
      assert (a + b)[|a| + i].key.isStderr;
    }
  }

  /** A chunk that reaches into the range has bytes there. */
  lemma ClipOneStderr(c: Chunk, s: nat, e: nat)
    requires c.bytes != [] && s < e
    ensures HasStderr(Flatten(ClipOne(c, s, e))) <==> c.start < e && s < c.End() && c.key.isStderr
  {
    if c.start < e && s < c.End() {
      var part := ClipOne(c, s, e)[0];
      assert ClipOne(c, s, e)[1..] == [];
      var cells := Cells(part.bytes, c.key);
      assert cells + [] == cells && cells[0].key == c.key;
    }
  }

  lemma ClipNextStderr(chunks: seq<Chunk>, lo: nat, hi: nat, s: nat, e: nat, i: nat)
    requires Ascending(chunks, lo, hi) && i < |chunks| && (s < e || e <= lo)
    ensures lo <= chunks[i].start
    ensures HasStderr(Flatten(Clip(chunks[..i + 1], s, e)))
            <==> HasStderr(Flatten(Clip(chunks[..i], s, e)))
                 || (chunks[i].start < e && s < chunks[i].End() && chunks[i].key.isStderr)
  {
    var a, b := chunks[..i], chunks[i..];
    assert chunks == a + b;
    AscendingConcat(a, b, lo, hi);
    AscendingBounds(a, lo, LastEnd(a, lo));
    hide Clip, ClipOne, HasStderr, Cells;
    if s < e {
      var now := ClipOne(chunks[i], s, e);
      ClipNext(chunks, s, e, i);
      FlattenConcat(Clip(a, s, e), now);
      HasStderrConcat(Flatten(Clip(a, s, e)), Flatten(now));
      ClipOneStderr(chunks[i], s, e);
    } else {
      ClipEmptyRange(a, s, e);
      ClipEmptyRange(chunks[..i + 1], s, e);
    }
  }

  lemma {:induction false} StderrStays(chunks: seq<Chunk>, s: nat, e: nat, i: nat)
    requires i <= |chunks| && HasStderr(Flatten(Clip(chunks[..i], s, e)))
    ensures HasStderr(Flatten(Clip(chunks, s, e)))
  {
    hide Clip, Flatten, HasStderr;
    var a, b := chunks[..i], chunks[i..];
    assert chunks == a + b;
    ClipConcat(a, b, s, e);
    FlattenConcat(Clip(a, s, e), Clip(b, s, e));
    HasStderrConcat(Flatten(Clip(a, s, e)), Flatten(Clip(b, s, e)));
  }

  /** The loop of `saw_stderr_in_range`, which stops at the first chunk written to stderr. */
  method SawStderr(chunks: seq<Chunk>, ghost lo: nat, ghost hi: nat, s: nat, e: nat) returns (saw: bool)
    requires Ascending(chunks, lo, hi) && (s < e || e <= lo)
    ensures saw <==> HasStderr(Flatten(Clip(chunks, s, e)))
  {
    hide Ascending, Clip, ClipOne, Flatten, HasStderr;
    assert chunks[..0] == [];
    NoStderrYet(s, e);
    var i := 0;
    while i < |chunks|
      invariant i <= |chunks|
      invariant !HasStderr(Flatten(Clip(chunks[..i], s, e)))
    {
      var chunk := chunks[i];
      ClipNextStderr(chunks, lo, hi, s, e, i);
      if chunk.start >= e {
        StopClipping(chunks, lo, hi, s, e, i);
        return false;
      }
      if chunk.End() > s && chunk.key.isStderr {
        StderrStays(chunks, s, e, i + 1);
        return true;
      }
      i := i + 1;
    }
    assert chunks[..|chunks|] == chunks;
    return false;
  }

  lemma NoStderrYet(s: nat, e: nat)
    ensures !HasStderr(Flatten(Clip([], s, e)))
  {
  }

  /** `assemble_bytes` and the span loop of `read_range`. */
  method AssembleSlices(slices: seq<Chunk>) returns (bytes: seq<byte>, spans: seq<Span>)
    ensures bytes == BytesOf(Flatten(slices)) && spans == Runs(Flatten(slices))
  {
    hide Cells, BytesOf, Flatten, Runs;
    bytes, spans := [], [];
    ghost var cells := [];
    NoSlices();
    for i := 0 to |slices|
      invariant cells == Flatten(slices[..i])
      invariant bytes == BytesOf(cells) && spans == Runs(cells) && |bytes| == |cells|
    {
      var slice := slices[i];
      assert slices[..i + 1] == slices[..i] + [slice];
      FlattenSnoc(slices[..i], slice);
      BytesOfConcat(cells, Cells(slice.bytes, slice.key));
      BytesOfCells(slice.bytes, slice.key);
      if slice.bytes != [] {
        RunsAppend(cells, slice.bytes, slice.key);
        spans := AddRun(spans, |bytes|, slice.key, |slice.bytes|);
      } else {
        assert Cells(slice.bytes, slice.key) == [];
        assert cells + [] == cells;
      }
      bytes := bytes + slice.bytes;
      cells := cells + Cells(slice.bytes, slice.key);
    }
    assert slices[..|slices|] == slices;
  }

  lemma NoSlices()
    ensures Flatten([]) == [] && BytesOf([]) == [] && Runs([]) == []
  {
  }
}
