/**
  A range read from a Tail ring, seen as a token stream: the renderer's walk over
  spans and rebased events shows exactly the fold over that stream.
 */
module StreamRendering {
  import opened Timeline
  import opened RangeReading
  import opened Rendering
  import opened Renderer

  function CellTokens(cells: seq<Cell>): (ts: seq<Token>)
    ensures |ts| == |cells|
  {
    seq(|cells|, i requires 0 <= i < |cells| => B(cells[i]))
  }

  /** Bytes and events in stream order; `base` is the offset of the first byte. */
  function Tokens(cells: seq<Cell>, events: seq<Event>, base: nat): seq<Token>
    requires Sorted(events, base, base + |cells|)
    decreases |events|
  {
    if events == [] then CellTokens(cells)
    else
      SortedWiden(events[1..], events[0].offset, base + |cells|, base + |cells|);
      var k := events[0].offset - base;
      CellTokens(cells[..k]) + ([E(events[0].kind)] + Tokens(cells[k..], events[1..], events[0].offset))
  }

  // ----- spans as runs

  /** From pos on, the spans are the maximal equally labelled stretches of the cells. */
  ghost predicate Covers(spans: seq<Span>, cells: seq<Cell>, pos: nat) {
    if spans == [] then pos == |cells|
    else
      && pos == spans[0].start < spans[0].end <= |cells|
      && (forall i :: pos <= i < spans[0].end ==> cells[i].key == spans[0].key)
      && (spans[0].end < |cells| ==> cells[spans[0].end].key != spans[0].key)
      && Covers(spans[1..], cells, spans[0].end)
  }

  lemma {:induction false} RunsCover(spans: seq<Span>, cells: seq<Cell>)
    requires LabelsExactly(spans, cells)
    ensures Covers(spans, cells, 0)
    decreases |spans|
  {
    if spans != [] {
      var front, last := spans[..|spans| - 1], spans[|spans| - 1];
      RunsCover(front, cells[..last.start]);
      CoversSnoc(front, last, cells, 0);
      assert front + [last] == spans;
    }
  }

  lemma {:induction false} CoversSnoc(front: seq<Span>, last: Span, cells: seq<Cell>, pos: nat)
    requires last.start < last.end == |cells|
    requires forall i :: last.start <= i < last.end ==> cells[i].key == last.key
    requires front != [] ==> front[|front| - 1].key != last.key
    requires Covers(front, cells[..last.start], pos)
    ensures Covers(front + [last], cells, pos)
    decreases |front|
  {
    var spans := front + [last];
    if front == [] {
      assert spans[1..] == [];
    } else {
      assert spans[0] == front[0] && spans[1..] == front[1..] + [last];
      CoversSnoc(front[1..], last, cells, front[0].end);
      if front[0].end == last.start {
        CoversEnds(front[1..], cells[..last.start], front[0].end);
      }
    }
  }

  lemma CoversEnds(spans: seq<Span>, cells: seq<Cell>, pos: nat)
    requires Covers(spans, cells, pos) && pos == |cells|
    ensures spans == []
  {
  }

  lemma CellTokensSplit(cells: seq<Cell>, k: nat)
    requires k <= |cells|
    ensures CellTokens(cells) == CellTokens(cells[..k]) + CellTokens(cells[k..])
  {
  }

  lemma UniformTokens(cells: seq<Cell>, key: Key)
    requires forall i :: 0 <= i < |cells| ==> cells[i].key == key
    ensures CellTokens(cells) == RunTokens(BytesOf(cells), key)
  {
  }

  lemma SliceBytes(cells: seq<Cell>, lo: nat, hi: nat)
    requires lo <= hi <= |cells|
    ensures BytesOf(cells)[lo..hi] == BytesOf(cells[lo..hi])
  {
  }

  /** Cutting a run off the front of a stretch of cells. */
  lemma RunThenCells(cells: seq<Cell>, lo: nat, hi: nat, b: nat, key: Key, mode: ProjectionMode, st: Carried)
    requires lo < hi <= b <= |cells|
    requires forall i :: lo <= i < hi ==> cells[i].key == key
    requires hi < b ==> cells[hi].key != key
    ensures var first := RenderOnePiece(Piece(lo, hi, key), BytesOf(cells), st);
            RenderTokens(CellTokens(cells[lo..b]), mode, st)
            == Then(first, RenderTokens(CellTokens(cells[hi..b]), mode, first.state))
  {
    hide RenderTokens, RenderPiece, BytesOf, RunTokens;
    var run, rest := cells[lo..hi], cells[hi..b];
    SliceBytes(cells, lo, hi);
    UniformTokens(run, key);
    CellTokensSplit(cells[lo..b], hi - lo);
    assert cells[lo..b][..hi - lo] == run && cells[lo..b][hi - lo..] == rest;
    CutAtBoundary(CellTokens(run), CellTokens(rest), mode, st);
    RenderRun(BytesOf(run), key, mode, st);
  }

  /** The pieces the spans announce for [cursor, b) are the runs of those cells. */
  lemma {:induction false} PiecesAreRuns(spans: seq<Span>, cells: seq<Cell>, pos: nat, cursor: nat, a: nat, b: nat,
                                         mode: ProjectionMode, st: Carried)
    requires Covers(spans, cells, pos) && a < b <= |cells|
    requires cursor == if pos < a then a else pos
    requires cursor <= b
    ensures RenderPieces(Pieces(spans, cursor, a, b), BytesOf(cells), st)
         == RenderTokens(CellTokens(cells[cursor..b]), mode, st)
    decreases |spans|
  {
    if spans == [] || spans[0].start >= b {
      assert cursor == b && cells[cursor..b] == [];
    } else if spans[0].end <= a {
      PiecesAreRuns(spans[1..], cells, spans[0].end, cursor, a, b, mode, st);
    } else {
      var span := spans[0];
      var hi := if span.end < b then span.end else b;
      hide RenderTokens, RenderOnePiece, CellTokens, BytesOf, Gap;
      RunThenCells(cells, cursor, hi, b, span.key, mode, st);
      PiecesUnfold(spans, cells, pos, cursor, a, b, hi, st);
      var first := RenderOnePiece(Piece(cursor, hi, span.key), BytesOf(cells), st);
      if span.end <= b {
        PiecesAreRuns(spans[1..], cells, span.end, hi, a, b, mode, first.state);
      } else {
        NothingBeyond(spans[1..], cells, span.end, a, b, mode, first.state);
      }
    }
  }

  lemma PiecesUnfold(spans: seq<Span>, cells: seq<Cell>, pos: nat, cursor: nat, a: nat, b: nat, hi: nat, st: Carried)
    requires Covers(spans, cells, pos) && a < b <= |cells| && spans != []
    requires spans[0].start < b && spans[0].end > a
    requires cursor == if pos < a then a else pos
    requires hi == if spans[0].end < b then spans[0].end else b
    ensures var first := RenderOnePiece(Piece(cursor, hi, spans[0].key), BytesOf(cells), st);
            RenderPieces(Pieces(spans, cursor, a, b), BytesOf(cells), st)
            == Then(first, RenderPieces(Pieces(spans[1..], hi, a, b), BytesOf(cells), first.state))
  {
    hide RenderOnePiece, BytesOf;
    var rest := Pieces(spans[1..], hi, a, b);
    var p := Piece(cursor, hi, spans[0].key);
    NoGap(cursor, cursor, [p] + rest);
    assert Pieces(spans, cursor, a, b) == [p] + rest;
    assert ([p] + rest)[1..] == rest;
  }

  lemma NothingBeyond(spans: seq<Span>, cells: seq<Cell>, pos: nat, a: nat, b: nat, mode: ProjectionMode, st: Carried)
    requires Covers(spans, cells, pos) && a < b <= |cells| && pos > b
    ensures RenderPieces(Pieces(spans, b, a, b), BytesOf(cells), st) == RenderTokens(CellTokens(cells[b..b]), mode, st)
  {
    assert cells[b..b] == [];
  }

  // ----- events

  /** A stretch of text with nothing after it, or with an event after it. */
  lemma TextIsCells(cells: seq<Cell>, a: nat, b: nat, mode: ProjectionMode, st: Carried)
    requires a <= b <= |cells|
    ensures RenderText(BytesOf(cells), Runs(cells), a, b, st) == RenderTokens(CellTokens(cells[a..b]), mode, st)
  {
    if a < b {
      RunsLabelExactly(cells);
      RunsCover(Runs(cells), cells);
      PiecesAreRunsFrom(Runs(cells), cells, a, b, mode, st);
    } else {
      assert cells[a..b] == [];
    }
  }

  lemma PiecesAreRunsFrom(spans: seq<Span>, cells: seq<Cell>, a: nat, b: nat, mode: ProjectionMode, st: Carried)
    requires Covers(spans, cells, 0) && a < b <= |cells|
    ensures RenderPieces(Pieces(spans, a, a, b), BytesOf(cells), st) == RenderTokens(CellTokens(cells[a..b]), mode, st)
  {
    PiecesAreRuns(spans, cells, 0, a, a, b, mode, st);
  }

  /** From any cursor, the renderer's walk is the fold over the remaining tokens. */
  lemma {:induction false} WalkIsFold(cells: seq<Cell>, events: seq<Event>, cursor: nat, mode: ProjectionMode,
                                      st: Carried)
    requires cursor <= |cells| && Sorted(events, cursor, |cells|)
    ensures cursor + |cells[cursor..]| == |cells|
    ensures RenderFrom(BytesOf(cells), Runs(cells), events, cursor, mode, st)
         == RenderTokens(Tokens(cells[cursor..], events, cursor), mode, st)
    decreases |events|
  {
    hide RenderTokens, RenderText, Runs, BytesOf, CellTokens, RenderEvent;
    if events == [] {
      TextIsCells(cells, cursor, |cells|, mode, st);
      assert cells[cursor..|cells|] == cells[cursor..];
    } else {
      var o := events[0].offset;
      SortedWiden(events[1..], o, |cells|, |cells|);
      TextIsCells(cells, cursor, o, mode, st);
      var text := RenderText(BytesOf(cells), Runs(cells), cursor, o, st);
      var event := RenderEvent(events[0].kind, mode, text.state);
      WalkIsFold(cells, events[1..], o, mode, event.state);
      TokensUnfold(cells, events, cursor);
      FoldEvent(cells[cursor..o], events[0].kind, Tokens(cells[o..], events[1..], o), mode, st);
    }
  }

  lemma TokensUnfold(cells: seq<Cell>, events: seq<Event>, cursor: nat)
    requires cursor <= |cells| && events != [] && Sorted(events, cursor, |cells|)
    ensures cursor <= events[0].offset <= |cells| && Sorted(events[1..], events[0].offset, |cells|)
    ensures Tokens(cells[cursor..], events, cursor)
         == CellTokens(cells[cursor..events[0].offset])
            + ([E(events[0].kind)] + Tokens(cells[events[0].offset..], events[1..], events[0].offset))
  {
    hide CellTokens;
    var o := events[0].offset;
    SortedWiden(events[1..], o, |cells|, |cells|);
    assert cells[cursor..][..o - cursor] == cells[cursor..o] && cells[cursor..][o - cursor..] == cells[o..];
  }

  lemma FoldEvent(cells: seq<Cell>, kind: EventKind, rest: seq<Token>, mode: ProjectionMode, st: Carried)
    ensures var text := RenderTokens(CellTokens(cells), mode, st);
            var event := RenderEvent(kind, mode, text.state);
            RenderTokens(CellTokens(cells) + ([E(kind)] + rest), mode, st)
            == Then(Then(text, event), RenderTokens(rest, mode, event.state))
  {
    hide RenderTokens, RenderEvent;
    CutAtBoundary(CellTokens(cells), [E(kind)] + rest, mode, st);
    var text := RenderTokens(CellTokens(cells), mode, st);
    EventFirst(kind, rest, mode, text.state);
    var event := RenderEvent(kind, mode, text.state);
    ThenAssoc(text, event, RenderTokens(rest, mode, event.state));
  }

  lemma EventFirst(kind: EventKind, rest: seq<Token>, mode: ProjectionMode, st: Carried)
    ensures RenderTokens([E(kind)] + rest, mode, st)
         == Then(RenderEvent(kind, mode, st), RenderTokens(rest, mode, RenderEvent(kind, mode, st).state))
  {
    hide RenderEvent;
    var ts := [E(kind)] + rest;
    assert ts[0] == E(kind) && ts[..1] == [E(kind)] && ts[1..] == rest;
  }

  // ----- ranges

  lemma {:induction false} RebaseSorted(events: seq<Event>, base: nat, lo: nat, end: nat)
    requires base <= lo && Sorted(events, lo, end)
    ensures base <= end && Sorted(Rebase(events, base, end), lo - base, end - base)
    ensures |Rebase(events, base, end)| == |events|
  {
    if events == [] {
    } else {
      RebaseSorted(events[1..], base, events[0].offset, end);
      var rest := Rebase(events[1..], base, end);
      var first := Event(events[0].offset - base, events[0].kind);
      assert ([first] + rest)[1..] == rest;
      SortedWiden(events, lo, end, end);
      SortedWiden(events[1..], events[0].offset, end, end);
    }
  }

  lemma {:induction false} TokensRebase(cells: seq<Cell>, events: seq<Event>, base: nat, lo: nat)
    requires base <= lo && Sorted(events, lo, lo + |cells|)
    ensures Sorted(Rebase(events, base, lo + |cells|), lo - base, lo - base + |cells|)
    ensures Tokens(cells, Rebase(events, base, lo + |cells|), lo - base) == Tokens(cells, events, lo)
    decreases |events|
  {
    RebaseSorted(events, base, lo, lo + |cells|);
    if events != [] {
      hide CellTokens;
      var end := lo + |cells|;
      SortedWiden(events[1..], events[0].offset, end, end);
      var k := events[0].offset - lo;
      TokensRebase(cells[k..], events[1..], base, events[0].offset);
      var first := Event(events[0].offset - base, events[0].kind);
      var rest := Rebase(events[1..], base, end);
      assert Rebase(events, base, end) == [first] + rest && ([first] + rest)[1..] == rest;
    }
  }

  /** The range holds these cells, labelled by their runs, and these events in order. */
  ghost predicate RangeOf(range: OutputRange, cells: seq<Cell>) {
    && range.end == range.start + |cells|
    && range.bytes == BytesOf(cells) && range.spans == Runs(cells)
    && Sorted(range.events, range.start, range.end)
  }

  /** A range of the stream renders as its tokens do. */
  lemma RangeRendersAsTokens(range: OutputRange, cells: seq<Cell>, mode: ProjectionMode, st: Carried)
    requires RangeOf(range, cells)
    ensures RenderRange(range, mode, st) == RenderTokens(Tokens(cells, range.events, range.start), mode, st)
  {
    if range.bytes == [] && range.events == [] {
      assert cells == [];
    } else {
      hide RenderTokens, RenderFrom, Tokens, Runs, Rebase, BytesOf;
      RebaseSorted(range.events, range.start, range.start, range.end);
      TokensRebase(cells, range.events, range.start, range.start);
      assert cells[0..] == cells;
      WalkIsFold(cells, Rebase(range.events, range.start, range.end), 0, mode, st);
    }
  }
}
