/**
  Where a drain stops that does not flush: the cut shows in a labelled stream only
  when it splits two stderr lines, whatever is appended later.
 */
module Seams {
  import opened Sequences
  import opened Utf8
  import opened Timeline
  import opened RingScans
  import opened Rendering
  import opened StreamRendering
  import opened Delivery
  import opened Drain

  // ----- the bytes of a stream

  function CellsIn(ts: seq<Token>): seq<Cell> {
    if ts == [] then [] else (if ts[0].B? then [ts[0].cell] else []) + CellsIn(ts[1..])
  }

  lemma {:induction false} CellsInConcat(a: seq<Token>, b: seq<Token>)
    ensures CellsIn(a + b) == CellsIn(a) + CellsIn(b)
  {
    if a == [] {
      assert a + b == b;
    } else {
      CellsInConcat(a[1..], b);
      assert (a + b)[0] == a[0] && (a + b)[1..] == a[1..] + b;
      Assoc3(if a[0].B? then [a[0].cell] else [], CellsIn(a[1..]), CellsIn(b));
    }
  }

  lemma {:induction false} CellsInCellTokens(cells: seq<Cell>)
    ensures CellsIn(CellTokens(cells)) == cells
  {
    if cells == [] {
      assert CellTokens(cells) == [];
    } else {
      CellsInCellTokens(cells[1..]);
      assert CellTokens(cells)[1..] == CellTokens(cells[1..]);
    }
  }

  /** A token stream has exactly the cells it was made of. */
  lemma {:induction false} CellsInTokens(cells: seq<Cell>, events: seq<Event>, base: nat)
    requires Sorted(events, base, base + |cells|)
    ensures CellsIn(Tokens(cells, events, base)) == cells
    decreases |events|
  {
    if events == [] {
      CellsInCellTokens(cells);
    } else {
      TokensCons(cells, events, base);
      hide Tokens, CellTokens;
      var k := events[0].offset - base;
      CellsInTokens(cells[k..], events[1..], events[0].offset);
      CellsInCellTokens(cells[..k]);
      var rest := Tokens(cells[k..], events[1..], events[0].offset);
      CellsInConcat([E(events[0].kind)], rest);
      CellsInConcat(CellTokens(cells[..k]), [E(events[0].kind)] + rest);
      OnlyAnEvent(events[0].kind);
      TakeThenDrop(cells, k);
      assert [] + cells[k..] == cells[k..];
    }
  }

  lemma OnlyAnEvent(kind: EventKind)
    ensures CellsIn([E(kind)]) == []
  {
  }

  lemma {:induction false} BytesOfRun(run: seq<Token>)
    requires forall i :: 0 <= i < |run| ==> run[i].B?
    ensures BytesOf(CellsIn(run)) == TokenBytes(run)
  {
    if run != [] {
      BytesOfRun(run[1..]);
      BytesOfConcat([run[0].cell], CellsIn(run[1..]));
      assert TokenBytes(run) == [run[0].cell.b] + TokenBytes(run[1..]);
      assert BytesOf([run[0].cell]) == [run[0].cell.b];
    }
  }

  /** The run before a cut is the end of the bytes before it. */
  lemma LeftIsLast(a: seq<Token>, key: Key)
    ensures var bytes, left := BytesOf(CellsIn(a)), LeftOfCut(a, key);
            |left| <= |bytes| && bytes[|bytes| - |left|..] == left
  {
    var k := |a| - LastRun(a, key);
    LastRunSplits(a, key);
    var run := a[k..];
    assert forall i :: 0 <= i < |run| ==> run[i].B? by {
      assert run == RunTokens(TokenBytes(run), key);
    }
    hide LastRun, CellsIn, RunTokens;
    BytesOfRun(run);
    TakeThenDrop(a, k);
    CellsInConcat(a[..k], run);
    BytesOfConcat(CellsIn(a[..k]), CellsIn(run));
    LastPart(BytesOf(CellsIn(a[..k])), TokenBytes(run));
  }

  lemma LastPart(a: seq<byte>, b: seq<byte>)
    ensures (a + b)[|a + b| - |b|..] == b
  {
  }

  // ----- the cut of a drain

  /** The cut follows a newline on stderr and the same label goes on. */
  predicate SplitsStderrLines(a: seq<Token>, b: seq<Token>) {
    && !AtStepBoundary(a, b)
    && a[|a| - 1].cell.key.isStderr && a[|a| - 1].cell.b == NEWLINE
  }

  lemma RunsAtCut(a: seq<Token>, b: seq<Token>)
    requires !AtStepBoundary(a, b)
    ensures var key := b[0].cell.key; var left, right := LeftOfCut(a, key), RightOfCut(b, key);
            && left != [] && left[|left| - 1] == a[|a| - 1].cell.b
            && right != [] && right[0] == b[0].cell.b
  {
    var key := b[0].cell.key;
    assert OfKey(a[|a| - 1], key) && OfKey(b[0], key);
    assert LastRun(a, key) > 0 && FirstRun(b, key) > 0;
  }

  /** What is known of the bytes at the cut decides whether it shows. */
  lemma SeamlessWhen(a: seq<Token>, b: seq<Token>)
    requires var bytes := BytesOf(CellsIn(a)); Flushable(bytes) == |bytes|
                                               || (b != [] && b[0].B? ==> !IsContinuation(b[0].cell.b))
    ensures SeamlessCut(a, b) <==> !SplitsStderrLines(a, b)
  {
    if !AtStepBoundary(a, b) {
      hide Flushable, CutsScalar, LeftOfCut, RightOfCut, CellsIn, BytesOf;
      var key := b[0].cell.key;
      var left, right := LeftOfCut(a, key), RightOfCut(b, key);
      RunsAtCut(a, b);
      LeftIsLast(a, key);
      var bytes := BytesOf(CellsIn(a));
      if Flushable(bytes) == |bytes| {
        NotTornAfterComplete(bytes, left, right);
      } else {
        NotTornBeforeLead(left, right);
      }
    }
  }

  /** What the ring holds once a drain of v up to c has advanced. */
  function KeptBy(v: View, c: nat): View {
    Consume(v, c, CountAt(Taken(v, c).events, c))
  }

  /** The cut at c shows exactly when it splits two stderr lines of one label, whatever comes later. */
  ghost predicate CleanCut(v: View, c: nat) {
    forall more: seq<Token> :: SeamIsClean(Taken(v, c).Stream(), KeptBy(v, c).Stream() + more)
  }

  predicate SeamIsClean(a: seq<Token>, b: seq<Token>) {
    SeamlessCut(a, b) <==> !SplitsStderrLines(a, b)
  }

  /** A drain that measured `end` and stops at the last complete sequence before it cuts cleanly. */
  lemma ReadCutIsClean(v: View, end: nat)
    requires v.Ok() && v.start <= end <= v.End()
    ensures CleanCut(v, ReadEnd(v, end, false))
  {
    hide Tokens, CellsIn, Flushable, SeamlessCut, SplitsStderrLines, BytesOf, CountAt, Through, DropEventsAt,
        DropEventsBelow;
    var c := ReadEnd(v, end, false);
    var taken, kept := Taken(v, c), KeptBy(v, c);
    DrainRemovesExactlyWhatItRead(v, v, c);
    CellsInTokens(taken.cells, taken.events, taken.start);
    CellsInTokens(kept.cells, kept.events, kept.start);
    forall more: seq<Token>
      ensures SeamIsClean(taken.Stream(), kept.Stream() + more)
    {
      CellsInConcat(kept.Stream(), more);
      CutBytes(v.cells, end - v.start, c - v.start, kept.Stream() + more, CellsIn(more));
      SeamlessWhen(taken.Stream(), kept.Stream() + more);
    }
  }

  /** So does a drain of everything there is. */
  lemma DrainCutIsSeamlessIff(v: View, more: seq<Token>)
    requires v.Ok()
    ensures var c := DrainEnd(v, false);
            var a, b := Taken(v, c).Stream(), KeptBy(v, c).Stream() + more;
            SeamlessCut(a, b) <==> !SplitsStderrLines(a, b)
  {
    hide SeamlessCut, SplitsStderrLines, Flushable, BytesOf;
    assert v.cells[..|v.cells|] == v.cells;
    ReadCutIsClean(v, v.End());
    var c := DrainEnd(v, false);
    assert SeamIsClean(Taken(v, c).Stream(), KeptBy(v, c).Stream() + more);
  }

  /** Either the bytes before the cut are complete, or a lead byte follows it. */
  lemma CutBytes(cells: seq<Cell>, m: nat, n: nat, b: seq<Token>, later: seq<Cell>)
    requires m <= |cells| && n == Flushable(BytesOf(cells[..m]))
    requires n <= m && CellsIn(b) == cells[n..] + later
    ensures var bytes := BytesOf(cells[..n]); Flushable(bytes) == |bytes|
                                              || (b != [] && b[0].B? ==> !IsContinuation(b[0].cell.b))
  {
    var read := cells[..m];
    if n < m {
      if b != [] && b[0].B? {
        assert CellsIn(b)[0] == b[0].cell;
        assert b[0].cell == cells[n] == read[n];
        hide Flushable, CellsIn;
        HeldBackIsIncomplete(BytesOf(read));
        assert BytesOf(read)[n..][0] == read[n].b;
        StepShape(BytesOf(read)[n..]);
      }
    } else {
      assert cells[..n] == read;
    }
  }

  // ----- several drains

  /** Every cut between the parts, and before what is left, is clean. */
  predicate SeamsAreClean(parts: seq<seq<Token>>, rest: seq<Token>) {
    parts == [] || (SeamIsClean(parts[0], Concat(parts[1..]) + rest) && SeamsAreClean(parts[1..], rest))
  }

  /** They stay clean whatever is appended. */
  ghost predicate SeamsStayClean(parts: seq<seq<Token>>, rest: seq<Token>) {
    forall more: seq<Token> :: SeamsAreClean(parts, rest + more)
  }

  predicate NoLineSplit(parts: seq<seq<Token>>, rest: seq<Token>) {
    parts == [] || (!SplitsStderrLines(parts[0], Concat(parts[1..]) + rest) && NoLineSplit(parts[1..], rest))
  }

  lemma StayCleanGrows(parts: seq<seq<Token>>, rest: seq<Token>, more: seq<Token>)
    requires SeamsStayClean(parts, rest)
    ensures SeamsStayClean(parts, rest + more)
  {
    forall later: seq<Token>
      ensures SeamsAreClean(parts, rest + more + later)
    {
      Assoc3(rest, more, later);
      assert SeamsAreClean(parts, rest + (more + later));
    }
  }

  lemma {:induction false} CleanSnoc(parts: seq<seq<Token>>, part: seq<Token>, rest: seq<Token>)
    requires SeamsAreClean(parts, part + rest) && SeamIsClean(part, rest)
    ensures SeamsAreClean(parts + [part], rest)
  {
    hide SeamIsClean;
    if parts == [] {
      assert parts + [part] == [part] && [part][1..] == [] && [] + rest == rest;
    } else {
      assert (parts + [part])[1..] == parts[1..] + [part];
      CleanSnoc(parts[1..], part, rest);
      ConcatSnoc(parts[1..], part);
      Assoc3(Concat(parts[1..]), part, rest);
    }
  }

  lemma {:induction false} ConcatSnoc(parts: seq<seq<Token>>, part: seq<Token>)
    ensures Concat(parts + [part]) == Concat(parts) + part
  {
    if parts == [] {
      assert parts + [part] == [part] && [part][1..] == [];
      assert part + [] == part && [] + part == part;
    } else {
      assert (parts + [part])[1..] == parts[1..] + [part];
      ConcatSnoc(parts[1..], part);
      Assoc3(parts[0], Concat(parts[1..]), part);
    }
  }

  /** One more drain: what it takes and what it leaves stay cleanly cut. */
  lemma DrainStaysClean(parts: seq<seq<Token>>, seen: View, c: nat, later: seq<Token>)
    requires var part, kept := Taken(seen, c).Stream(), KeptBy(seen, c).Stream();
             SeamsStayClean(parts, part + (kept + later))
    requires CleanCut(seen, c)
    ensures SeamsStayClean(parts + [Taken(seen, c).Stream()], KeptBy(seen, c).Stream() + later)
  {
    hide SeamsAreClean, SeamIsClean, Taken, KeptBy, Tokens;
    var part, kept := Taken(seen, c).Stream(), KeptBy(seen, c).Stream();
    forall more: seq<Token>
      ensures SeamsAreClean(parts + [part], kept + later + more)
    {
      Assoc3(kept, later, more);
      Assoc3(part, kept + later, more);
      assert SeamsAreClean(parts, part + (kept + later) + more);
      assert SeamIsClean(part, kept + (later + more));
      CleanSnoc(parts, part, kept + later + more);
    }
  }

  /** With clean cuts that split no stderr lines, the drains show what one drain of everything shows. */
  lemma {:induction false} CleanDrainsAreInvisible(parts: seq<seq<Token>>, rest: seq<Token>, mode: ProjectionMode,
                                        st: Carried)
    requires SeamsAreClean(parts, rest) && NoLineSplit(parts, rest)
    ensures var drained := RenderParts(parts, mode, st);
            Then(drained, RenderTokens(rest, mode, drained.state)) == RenderTokens(Concat(parts) + rest, mode, st)
  {
    hide RenderTokens, SeamlessCut, SplitsStderrLines;
    if parts == [] {
      assert [] + rest == rest;
      var all := RenderTokens(rest, mode, st);
      assert [] + all.out == all.out;
    } else {
      var behind := Concat(parts[1..]) + rest;
      CutVisibleIff(parts[0], behind, mode, st);
      var first := RenderTokens(parts[0], mode, st);
      CleanDrainsAreInvisible(parts[1..], rest, mode, first.state);
      var more := RenderParts(parts[1..], mode, first.state);
      ThenAssoc(first, more, RenderTokens(rest, mode, more.state));
      Assoc3(parts[0], Concat(parts[1..]), rest);
    }
  }

  predicate NoStderrIn(ts: seq<Token>) {
    forall i :: 0 <= i < |ts| && ts[i].B? ==> !ts[i].cell.key.isStderr
  }

  /** Without text on stderr no cut can split its lines. */
  lemma {:induction false} NoStderrNoSplit(parts: seq<seq<Token>>, rest: seq<Token>)
    requires NoStderrIn(Concat(parts) + rest)
    ensures NoLineSplit(parts, rest)
  {
    if parts != [] {
      var behind := Concat(parts[1..]) + rest;
      Assoc3(parts[0], Concat(parts[1..]), rest);
      var all := parts[0] + behind;
      assert forall i :: 0 <= i < |behind| ==> behind[i] == all[|parts[0]| + i];
      assert forall i :: 0 <= i < |parts[0]| ==> parts[0][i] == all[i];
      NoStderrNoSplit(parts[1..], rest);
    }
  }
}
