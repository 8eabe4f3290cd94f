/**
  The promise for all output: labelled text and events pass the side buffer and the
  ring, drains show them, and the client has seen everything, in the order in which
  it left the side buffer.
 */
module EndToEnd {
  import opened Sequences
  import opened Utf8
  import opened Wrappers
  import opened Timeline
  import opened Rendering
  import opened Renderer
  import opened StreamRendering
  import opened Delivery
  import opened OutputRing
  import opened SideBuffer
  import opened TailRuns
  import opened Drain
  import opened Tape
  import opened Seams
  import opened Interleaving
  import opened Stdout

  datatype Action =
    | WriteText(bytes: seq<byte>, key: Key, isContinuation: bool)
    | WriteEvent(kind: EventKind)
    | Seal
    | Show                              // a drain, which first seals what blocks visible output

  function CallOf(a: Action): Call {
    match a
    case WriteText(bytes, key, isContinuation) => PushText(key, bytes, isContinuation || key.source.Raw?)
    case WriteEvent(kind) => PushKind(kind)
    case Seal => SealAll
    case Show => SealGaps
  }

  /** What a script asks of the side buffer. */
  function CallsOf(script: seq<Action>): seq<Call> {
    if script == [] then [] else CallsOf(script[..|script| - 1]) + [CallOf(script[|script| - 1])]
  }

  lemma NextCall(script: seq<Action>, i: nat)
    requires i < |script|
    ensures CallsOf(script[..i + 1]) == CallsOf(script[..i]) + [CallOf(script[i])]
    ensures Load(CallsOf(script[..i + 1])) <= Load(CallsOf(script))
  {
    assert script[..i + 1][..i] == script[..i];
    LoadGrows(script, i + 1);
  }

  // ----- how much room a script needs

  /** The weight of what is pushed, when every byte may be escaped. */
  function Load(calls: seq<Call>): nat {
    if calls == [] then 0
    else
      Load(calls[..|calls| - 1]) +
      match calls[|calls| - 1]
      case PushText(_, bytes, _) => 4 * |bytes|
      case PushKind(kind) => EventSize(kind)
      case _ => 0
  }

  lemma {:induction false} LoadGrows(script: seq<Action>, i: nat)
    requires i <= |script|
    ensures Load(CallsOf(script[..i])) <= Load(CallsOf(script))
    decreases |script|
  {
    if i == |script| {
      assert script[..i] == script;
    } else {
      var n := |script| - 1;
      LoadGrows(script[..n], i);
      assert script[..n][..i] == script[..i];
      assert CallsOf(script)[..|CallsOf(script)| - 1] == CallsOf(script[..n]);
    }
  }

  /** The weight of tokens, with so much for each byte. */
  function Mass(ts: seq<Token>, each: nat): nat {
    if ts == [] then 0 else (if ts[0].B? then each else EventSize(ts[0].kind)) + Mass(ts[1..], each)
  }

  lemma {:induction false} MassConcat(a: seq<Token>, b: seq<Token>, each: nat)
    ensures Mass(a + b, each) == Mass(a, each) + Mass(b, each)
  {
    hide EventSize;
    if a == [] {
      assert a + b == b;
    } else {
      MassConcat(a[1..], b, each);
      assert (a + b)[1..] == a[1..] + b;
    }
  }

  lemma {:induction false} MassOfCells(cells: seq<Cell>, each: nat)
    ensures Mass(CellTokens(cells), each) == each * |cells|
  {
    if cells != [] {
      MassOfCells(cells[1..], each);
      assert CellTokens(cells)[1..] == CellTokens(cells[1..]);
    }
  }

  lemma MassOfEvent(kind: EventKind, each: nat)
    ensures Mass([E(kind)], each) == EventSize(kind)
  {
    assert [E(kind)][1..] == [];
  }

  lemma {:induction false} MassOfStream(cells: seq<Cell>, events: seq<Event>, base: nat)
    requires Sorted(events, base, base + |cells|)
    ensures Mass(Tokens(cells, events, base), 1) == |cells| + SumSizes(events)
    decreases |events|
  {
    if events == [] {
      MassOfCells(cells, 1);
    } else {
      TokensCons(cells, events, base);
      hide Tokens, CellTokens, Mass, EventSize;
      var k := events[0].offset - base;
      var rest := Tokens(cells[k..], events[1..], events[0].offset);
      MassOfStream(cells[k..], events[1..], events[0].offset);
      MassOfCells(cells[..k], 1);
      MassOfEvent(events[0].kind, 1);
      MassConcat(CellTokens(cells[..k]), [E(events[0].kind)] + rest, 1);
      MassConcat([E(events[0].kind)], rest, 1);
    }
  }

  /** What the ring weighs is the weight of its stream. */
  lemma RingMass(ring: Ring)
    requires ring.Valid() && ring.retention.Tail?
    ensures ring.Total() == Mass(ViewOf(ring).Stream(), 1)
  {
    TailTotal(ring);
    MassOfStream(ViewOf(ring).cells, ring.events, ring.startOffset);
  }

  lemma {:induction false} ReadyMass(ready: seq<Ready>)
    ensures Mass(ReadyTokens(ready), 1) == ReadySize(ready)
  {
    if ready != [] {
      var n := |ready| - 1;
      ReadyMass(ready[..n]);
      hide Mass, CellTokens, EventSize;
      match ready[n] {
        case ReadyText(key, bytes) =>
          MassConcat(ReadyTokens(ready[..n]), CellTokens(Cells(bytes, key)), 1);
          MassOfCells(Cells(bytes, key), 1);
        case ReadyEvent(kind) =>
          MassConcat(ReadyTokens(ready[..n]), [E(kind)], 1);
          MassOfEvent(kind, 1);
      }
    } else {
      assert Mass([], 1) == 0;
    }
  }

  lemma {:induction false} ReadyConcat(a: seq<Ready>, b: seq<Ready>)
    ensures ReadyTokens(a + b) == ReadyTokens(a) + ReadyTokens(b)
    ensures ReadySize(a + b) == ReadySize(a) + ReadySize(b)
    decreases |b|
  {
    if b == [] {
      assert a + b == a && ReadyTokens(a) + [] == ReadyTokens(a);
    } else {
      var n := |b| - 1;
      assert (a + b)[..|a + b| - 1] == a + b[..n] && (a + b)[|a + b| - 1] == b[n];
      ReadyConcat(a, b[..n]);
      var last := match b[n]
        case ReadyText(key, bytes) => CellTokens(Cells(bytes, key))
        case ReadyEvent(kind) => [E(kind)];
      hide CellTokens, Cells, EventSize;
      Assoc3(ReadyTokens(a), ReadyTokens(b[..n]), last);
    }
  }

  /** Leaving text grows by escapes at most fourfold. */
  lemma {:induction false} LeavingMass(es: seq<Entry>)
    ensures ReadySize(MaterializeAll(es)) <= Mass(RawTokens(es), 4)
  {
    if es == [] {
      assert MaterializeAll(es) == [];
    } else {
      LeavingMass(es[1..]);
      EntryMass(es[0]);
      hide Materialize, EntryTokens, Mass;
      ReadyConcat([Materialize(es[0])], MaterializeAll(es[1..]));
      MassConcat(EntryTokens(es[0]), RawTokens(es[1..]), 4);
    }
  }

  lemma EntryMass(e: Entry)
    ensures ReadySize([Materialize(e)]) <= Mass(EntryTokens(e), 4)
  {
    assert [Materialize(e)][..0] == [];
    match e {
      case PendingText(key, bytes, closed) =>
        EscapeTailBound(bytes);
        MassOfCells(Cells(bytes, key), 4);
      case PendingEvent(kind) => MassOfEvent(kind, 4);
    }
  }

  lemma {:induction false} ArrangedMass(calls: seq<Call>, spots: seq<nat>)
    requires |calls| == |spots|
    ensures Mass(Arranged(calls, spots), 4) == Load(calls)
  {
    if calls != [] {
      var n := |calls| - 1;
      ArrangedMass(calls[..n], spots[..n]);
      CallMass(calls[n]);
      hide CallTokens, Mass, EventSize;
      InsertedMass(Arranged(calls[..n], spots[..n]), spots[n], CallTokens(calls[n]));
    }
  }

  lemma CallMass(call: Call)
    ensures Mass(CallTokens(call), 4) == Load([call])
  {
    assert [call][..0] == [];
    match call {
      case PushText(key, bytes, _) => MassOfCells(Cells(bytes, key), 4);
      case PushKind(kind) => MassOfEvent(kind, 4);
      case _ =>
    }
  }

  lemma InsertedMass(ts: seq<Token>, at: nat, more: seq<Token>)
    ensures Mass(Inserted(ts, at, more), 4) == Mass(ts, 4) + Mass(more, 4)
  {
    hide Mass;
    if at <= |ts| {
      assert ts[..at] + ts[at..] == ts;
      MassConcat(ts[..at], ts[at..], 4);
      MassConcat(ts[..at], more, 4);
      MassConcat(ts[..at] + more, ts[at..], 4);
    } else {
      MassConcat(ts, more, 4);
    }
  }

  /** What has left the side buffer weighs no more than the load of its calls. */
  lemma LedgerMass(leaving: seq<Entry>, pending: seq<Entry>, calls: seq<Call>, spots: seq<nat>)
    requires Ledger(leaving, pending, calls, spots)
    ensures ReadySize(MaterializeAll(leaving)) <= Load(calls)
  {
    hide Accounts, SpotsOk, RawTokens, Mass, Load;
    LeavingMass(leaving);
    ArrangedMass(calls, spots);
    MassConcat(RawTokens(leaving), RawTokens(pending), 4);
  }

  // ----- a run

  /** Everything that left the side buffer, as the ring received it. */
  function Passed(leaving: seq<Entry>): seq<Token> {
    ReadyTokens(MaterializeAll(leaving))
  }

  /** What is known of a tape while nothing has been evicted. */
  ghost predicate Shows(tape: PendingOutputTape, calls: seq<Call>, leaving: seq<Entry>, spots: seq<nat>,
                        parts: seq<seq<Token>>, shown: seq<Glyph>)
    requires tape.Valid()
    reads tape, tape.timeline, tape.timeline.ring, tape.timeline.tails, tape.output
  {
    var stream := ViewOf(tape.timeline.ring).Stream();
    && tape.output.offset == Some(tape.timeline.ring.startOffset)
    && Ledger(leaving, tape.timeline.tails.entries, calls, spots)
    && Concat(parts) + stream == Passed(leaving)
    && RenderParts(parts, Bundle, None) == Rendered(shown, tape.output.lastRendered)
    && SeamsStayClean(parts, stream)
  }

  /** More has left the side buffer and reached the ring. */
  lemma PassedMore(leaving: seq<Entry>, more: seq<Entry>, parts: seq<seq<Token>>, stream: seq<Token>)
    requires Concat(parts) + stream == Passed(leaving) && SeamsStayClean(parts, stream)
    ensures Concat(parts) + (stream + ReadyTokens(MaterializeAll(more))) == Passed(leaving + more)
    ensures SeamsStayClean(parts, stream + ReadyTokens(MaterializeAll(more)))
  {
    hide MaterializeAll, ReadyTokens, ReadySize, SeamsStayClean, Concat;
    var ready := MaterializeAll(more);
    MaterializeConcat(leaving, more);
    ReadyConcat(MaterializeAll(leaving), ready);
    Assoc3(Concat(parts), stream, ReadyTokens(ready));
    StayCleanGrows(parts, stream, ReadyTokens(ready));
  }

  /** With room for the load of all calls, what leaves fits. */
  lemma Fits(stream: seq<Token>, leaving: seq<Entry>, more: seq<Entry>, pending: seq<Entry>, parts: seq<seq<Token>>,
             calls: seq<Call>, spots: seq<nat>)
    requires Concat(parts) + stream == Passed(leaving)
    requires Ledger(leaving + more, pending, calls, spots)
    ensures Mass(stream, 1) + ReadySize(MaterializeAll(more)) <= Load(calls)
  {
    hide Ledger, MaterializeAll, ReadyTokens, ReadySize, Concat, Mass, Load;
    LedgerMass(leaving + more, pending, calls, spots);
    MaterializeConcat(leaving, more);
    ReadyConcat(MaterializeAll(leaving), MaterializeAll(more));
    ReadyMass(MaterializeAll(leaving));
    MassConcat(Concat(parts), stream, 1);
  }

  /** After a write: the ring's stream has grown by what left the side buffer. */
  lemma WriteShows(tape: PendingOutputTape, calls: seq<Call>, leaving: seq<Entry>, more: seq<Entry>, spots: seq<nat>,
                   parts: seq<seq<Token>>, shown: seq<Glyph>, stream: seq<Token>)
    requires tape.Valid() && tape.output.offset == Some(tape.timeline.ring.startOffset)
    requires Ledger(leaving + more, tape.timeline.tails.entries, calls, spots)
    requires Concat(parts) + stream == Passed(leaving) && SeamsStayClean(parts, stream)
    requires ViewOf(tape.timeline.ring).Stream() == stream + ReadyTokens(MaterializeAll(more))
    requires RenderParts(parts, Bundle, None) == Rendered(shown, tape.output.lastRendered)
    ensures Shows(tape, calls, leaving + more, spots, parts, shown)
  {
    hide Ledger, MaterializeAll, ReadyTokens, ReadySize, Concat, SeamsStayClean, RenderParts, Tokens, Passed;
    PassedMore(leaving, more, parts, stream);
  }

  method WriteTextOnce(tape: PendingOutputTape, bytes: seq<byte>, key: Key, isContinuation: bool,
                       ghost calls: seq<Call>, ghost leaving: seq<Entry>, ghost spots: seq<nat>,
                       ghost parts: seq<seq<Token>>, ghost shown: seq<Glyph>, ghost roomy: bool)
      returns (ghost now: seq<Entry>, ghost at: nat)
    requires tape.Valid()
    requires roomy ==> Shows(tape, calls, leaving, spots, parts, shown)
    requires var call := CallOf(WriteText(bytes, key, isContinuation));
             roomy ==> Load(calls + [call]) < tape.timeline.ring.capacity
    modifies tape.timeline.ring, tape.timeline.tails
    ensures tape.Valid()
    ensures var call := CallOf(WriteText(bytes, key, isContinuation));
            roomy ==> Shows(tape, calls + [call], now, spots + [at], parts, shown)
    ensures roomy && old(tape.timeline.tails.entries) == [] && Flushable(bytes) == |bytes| ==>
              && tape.timeline.tails.entries == []
              && now == leaving + if bytes == [] then [] else [PendingText(key, bytes, false)]
  {
    hide Load, Ledger, Concat, RenderParts, Tokens, Sorted, SeamsStayClean, ReadySize, ReadyTokens, MaterializeAll,
        ReadyCells, SplitBounded, WellKept, FoundAt, Placed, Passed;
    var continues := isContinuation || key.source.Raw?;
    ghost var ring, before, call := tape.timeline.ring, tape.timeline.tails.entries, PushText(key, bytes, continues);
    ghost var stream := ViewOf(ring).Stream();
    RingMass(ring);
    ghost var ready, n := tape.timeline.AppendText(bytes, key, isContinuation);
    now, at := leaving, 0;
    if roomy {
      var split := Split([], before);
      if bytes == [] {
        NoneMaterialize();
        at := DrainLedger(leaving, before, split, calls, spots, call);
      } else {
        at := TextLedger(leaving, before, n, calls, spots, key, bytes, continues, ring.capacity);
        split := SplitBounded(Placed(before, n, key, bytes, continues), ring.capacity);
      }
      Fits(stream, leaving, split.leaving, split.staying, parts, calls + [call], spots + [at]);
      now := leaving + split.leaving;
      if before == [] {
        CompleteLeaves(n, key, bytes, continues, ring.capacity);
      }
      WriteShows(tape, calls + [call], leaving, split.leaving, spots + [at], parts, shown, stream);
    }
  }

  method WriteEventOnce(tape: PendingOutputTape, kind: EventKind,
                        ghost calls: seq<Call>, ghost leaving: seq<Entry>, ghost spots: seq<nat>,
                        ghost parts: seq<seq<Token>>, ghost shown: seq<Glyph>, ghost roomy: bool)
      returns (ghost now: seq<Entry>, ghost at: nat)
    requires tape.Valid()
    requires roomy ==> Shows(tape, calls, leaving, spots, parts, shown)
    requires roomy ==> Load(calls + [PushKind(kind)]) < tape.timeline.ring.capacity
    modifies tape.timeline.ring, tape.timeline.tails
    ensures tape.Valid()
    ensures roomy ==> Shows(tape, calls + [PushKind(kind)], now, spots + [at], parts, shown)
    ensures roomy && old(tape.timeline.tails.entries) == [] ==>
              tape.timeline.tails.entries == [] && now == leaving + [PendingEvent(kind)]
  {
    hide Load, Ledger, Concat, RenderParts, Tokens, Sorted, SeamsStayClean, ReadySize, ReadyTokens, MaterializeAll,
        ReadyCells, SplitBounded, WellKept, Passed;
    ghost var ring, before := tape.timeline.ring, tape.timeline.tails.entries;
    ghost var stream := ViewOf(ring).Stream();
    RingMass(ring);
    ghost var ready := tape.timeline.AppendEvent(kind);
    now, at := leaving, 0;
    if roomy {
      var split := SplitBounded(before + [PendingEvent(kind)], ring.capacity);
      at := EventLedger(leaving, before, calls, spots, kind, ring.capacity);
      Fits(stream, leaving, split.leaving, split.staying, parts, calls + [PushKind(kind)], spots + [at]);
      now := leaving + split.leaving;
      if before == [] {
        EventLeaves(kind, ring.capacity);
      }
      WriteShows(tape, calls + [PushKind(kind)], leaving, split.leaving, spots + [at], parts, shown, stream);
    }
  }

  method SealOnce(tape: PendingOutputTape, ghost calls: seq<Call>, ghost leaving: seq<Entry>, ghost spots: seq<nat>,
                  ghost parts: seq<seq<Token>>, ghost shown: seq<Glyph>, ghost roomy: bool)
      returns (ghost now: seq<Entry>, ghost at: nat)
    requires tape.Valid()
    requires roomy ==> Shows(tape, calls, leaving, spots, parts, shown)
    requires roomy ==> Load(calls + [SealAll]) < tape.timeline.ring.capacity
    modifies tape.timeline.ring, tape.timeline.tails
    ensures tape.Valid()
    ensures roomy ==> Shows(tape, calls + [SealAll], now, spots + [at], parts, shown)
    ensures roomy && old(tape.timeline.tails.entries) == [] ==> tape.timeline.tails.entries == [] && now == leaving
  {
    hide Load, Ledger, Concat, RenderParts, Tokens, Sorted, SeamsStayClean, ReadySize, ReadyTokens, MaterializeAll,
        ReadyCells, CloseAll, WellKept, Passed;
    ghost var ring, before := tape.timeline.ring, tape.timeline.tails.entries;
    ghost var stream := ViewOf(ring).Stream();
    RingMass(ring);
    ghost var ready := tape.timeline.SealUtf8Tails();
    now, at := leaving, 0;
    if roomy {
      var split := Split(CloseAll(before), []);
      at := DrainLedger(leaving, before, split, calls, spots, SealAll);
      Fits(stream, leaving, split.leaving, split.staying, parts, calls + [SealAll], spots + [at]);
      now := leaving + split.leaving;
      if before == [] {
        NothingLeaves(leaving);
      }
      WriteShows(tape, calls + [SealAll], leaving, split.leaving, spots + [at], parts, shown, stream);
    }
  }

  // ----- complete text is not held back

  lemma CompleteLeaves(n: nat, key: Key, bytes: seq<byte>, continues: bool, capacity: nat)
    requires bytes != [] ==> FoundAt([], n, key)
    ensures bytes != [] && Flushable(bytes) == |bytes| ==>
              SplitBounded(Placed([], n, key, bytes, continues), capacity)
              == Split([PendingText(key, bytes, false)], [])
  {
    hide Flushable;
    if bytes != [] && Flushable(bytes) == |bytes| {
      var e := PendingText(key, bytes, false);
      PassesAlone(e, capacity);
      assert Placed([], n, key, bytes, continues) == [e];
    }
  }

  lemma PassesAlone(e: Entry, capacity: nat)
    requires e.Passes()
    ensures SplitBounded([e], capacity) == Split([e], [])
  {
    hide Flushable;
    assert [e][1..] == [] && SplitReady([]) == Split([], []) && [e] + [] == [e];
    assert BlockedBytes([]) == 0;
  }

  lemma EventLeaves(kind: EventKind, capacity: nat)
    ensures SplitBounded([] + [PendingEvent(kind)], capacity) == Split([PendingEvent(kind)], [])
  {
    assert [] + [PendingEvent(kind)] == [PendingEvent(kind)];
    PassesAlone(PendingEvent(kind), capacity);
  }

  lemma NothingLeaves(leaving: seq<Entry>)
    ensures CloseAll([]) == [] && SplitGaps([]) == Split([], []) && leaving + [] == leaving
  {
  }

  // ----- drains

  /** One more part has been shown. */
  lemma PartShows(tape: PendingOutputTape, calls: seq<Call>, leaving: seq<Entry>, more: seq<Entry>, spots: seq<nat>,
                  parts: seq<seq<Token>>, shown: seq<Glyph>, st: Carried, stream: seq<Token>, before: View, upTo: nat,
                  contents: seq<Content>)
    requires tape.Valid() && tape.output.offset == Some(tape.timeline.ring.startOffset)
    requires Ledger(leaving + more, tape.timeline.tails.entries, calls, spots)
    requires Concat(parts) + stream == Passed(leaving) && SeamsStayClean(parts, stream)
    requires before.Ok() && before.Stream() == stream + ReadyTokens(MaterializeAll(more))
    requires RenderParts(parts, Bundle, None) == Rendered(shown, st)
    requires Drained(before, upTo, false, ViewOf(tape.timeline.ring), Bundle, st,
                     Shown(contents, tape.output.lastRendered))
    ensures Shows(tape, calls, leaving + more, spots, parts + [Taken(before, upTo).Stream()], shown + Flat(contents))
  {
    var part, left := Taken(before, upTo).Stream(), ViewOf(tape.timeline.ring);
    hide Ledger, MaterializeAll, ReadyTokens, Concat, SeamsStayClean, RenderParts, RenderTokens, Tokens, Passed, Flat,
        CleanCut, DrainEnd, KeptBy, Taken, Sorted, Ascending, Tiles, Flatten, LineEnds, SumLens, SumSizes, WellKept;
    PassedMore(leaving, more, parts, stream);
    DrainedStaysClean(parts, before, upTo, left, st, Shown(contents, tape.output.lastRendered));
    PartsSnoc(parts, part, Bundle, None);
    Assoc3(Concat(parts), part, left.Stream());
  }

  lemma DrainedStaysClean(parts: seq<seq<Token>>, before: View, upTo: nat, left: View, st: Carried, shown: Rendered)
    requires before.Ok() && Drained(before, upTo, false, left, Bundle, st, shown)
    requires SeamsStayClean(parts, before.Stream())
    ensures SeamsStayClean(parts + [Taken(before, upTo).Stream()], left.Stream())
  {
    hide SeamsStayClean, RenderTokens, Tokens, CleanCut, DrainEnd, Consume, Sorted;
    CleanDrain(before, upTo);
    DrainRemovesExactlyWhatItRead(before, before, upTo);
    CancelPrefix(Taken(before, upTo).Stream(), left.Stream(), KeptBy(before, upTo).Stream());
    assert left.Stream() + [] == left.Stream();
    DrainStaysClean(parts, before, upTo, []);
  }

  lemma CleanDrain(v: View, upTo: nat)
    requires v.Ok() && upTo == DrainEnd(v, false)
    ensures v.start <= upTo <= v.End() && CleanCut(v, upTo)
  {
    hide CleanCut, Flushable, BytesOf, DrainEnd, ReadEnd, Tokens, Sorted;
    DrainReadsAll(v);
    ReadCutIsClean(v, v.End());
  }

  lemma DrainReadsAll(v: View)
    ensures DrainEnd(v, false) == ReadEnd(v, v.End(), false)
  {
    hide Flushable, BytesOf;
    assert v.cells[..|v.cells|] == v.cells;
  }

  method ShowOnce(tape: PendingOutputTape, ghost calls: seq<Call>, ghost leaving: seq<Entry>, ghost spots: seq<nat>,
                  ghost parts: seq<seq<Token>>, shown: seq<Glyph>, ghost roomy: bool)
      returns (visible: seq<Glyph>, ghost now: seq<Entry>, ghost at: nat, ghost nowParts: seq<seq<Token>>)
    requires tape.Valid()
    requires roomy ==> Shows(tape, calls, leaving, spots, parts, shown)
    requires roomy ==> Load(calls + [SealGaps]) < tape.timeline.ring.capacity
    modifies tape.timeline.ring, tape.timeline.tails, tape.output
    ensures tape.Valid()
    ensures roomy ==> Shows(tape, calls + [SealGaps], now, spots + [at], nowParts, visible)
    ensures roomy && old(tape.timeline.tails.entries) == [] ==> tape.timeline.tails.entries == [] && now == leaving
  {
    hide Load, Ledger, Concat, RenderParts, Tokens, Sorted, SeamsStayClean, ReadySize, ReadyTokens, MaterializeAll,
        ReadyCells, SplitGaps, WellKept, Passed, Drained, Flat;
    ghost var ring, pending := tape.timeline.ring, tape.timeline.tails.entries;
    ghost var stream, st := ViewOf(ring).Stream(), tape.output.lastRendered;
    RingMass(ring);
    ghost var ready, before, upTo;
    var contents;
    contents, ready, before, upTo := tape.DrainOutput();
    visible, now, at, nowParts := shown + Flat(contents), leaving, 0, parts;
    if roomy {
      var split := SplitGaps(pending);
      at := DrainLedger(leaving, pending, split, calls, spots, SealGaps);
      Fits(stream, leaving, split.leaving, split.staying, parts, calls + [SealGaps], spots + [at]);
      now, nowParts := leaving + split.leaving, parts + [Taken(before, upTo).Stream()];
      if pending == [] {
        NothingLeaves(leaving);
      }
      PartShows(tape, calls + [SealGaps], leaving, split.leaving, spots + [at], parts, shown, st, stream, before, upTo,
                contents);
    }
  }

  // ----- the end

  /** A flushing drain takes everything. */
  lemma TakesAll(v: View)
    requires v.Ok()
    ensures Taken(v, v.End()).Stream() == v.Stream()
  {
    SortedPairs(v.events, v.start, v.End());
    AllThrough(v.events, v.End());
    assert v.cells[..|v.cells|] == v.cells;
  }

  method ShowLast(tape: PendingOutputTape, ghost calls: seq<Call>, ghost leaving: seq<Entry>, ghost spots: seq<nat>,
                  ghost parts: seq<seq<Token>>, shown: seq<Glyph>, ghost roomy: bool)
      returns (visible: seq<Glyph>, ghost now: seq<Entry>, ghost at: nat, ghost last: seq<Token>)
    requires tape.Valid()
    requires roomy ==> Shows(tape, calls, leaving, spots, parts, shown)
    requires roomy ==> Load(calls + [SealAll]) < tape.timeline.ring.capacity
    modifies tape.timeline.ring, tape.timeline.tails, tape.output
    ensures tape.Valid() && tape.timeline.tails.entries == []
    ensures roomy ==>
              && Ledger(now, [], calls + [SealAll], spots + [at])
              && Concat(parts) + last == Passed(now) && SeamsAreClean(parts, last)
              && visible == shown + RenderTokens(last, Bundle, RenderParts(parts, Bundle, None).state).out
              && shown == RenderParts(parts, Bundle, None).out
    ensures roomy && old(tape.timeline.tails.entries) == [] ==> now == leaving
  {
    hide Load, Ledger, Concat, RenderParts, Tokens, Sorted, SeamsAreClean, ReadySize, ReadyTokens, MaterializeAll,
        ReadyCells, CloseAll, WellKept, Passed, Flat, RenderTokens, Taken;
    ghost var ring, pending := tape.timeline.ring, tape.timeline.tails.entries;
    ghost var stream, st := ViewOf(ring).Stream(), tape.output.lastRendered;
    RingMass(ring);
    ghost var ready, before, upTo;
    var contents;
    contents, ready, before, upTo := tape.DrainFinalOutput();
    visible, now, at, last := shown + Flat(contents), leaving, 0, [];
    if roomy {
      var split := Split(CloseAll(pending), []);
      at := DrainLedger(leaving, pending, split, calls, spots, SealAll);
      Fits(stream, leaving, split.leaving, split.staying, parts, calls + [SealAll], spots + [at]);
      now, last := leaving + split.leaving, before.Stream();
      if pending == [] {
        NothingLeaves(leaving);
      }
      TakesAll(before);
      PassedMore(leaving, split.leaving, parts, stream);
      assert last + [] == last;
      assert SeamsAreClean(parts, last + []);
    }
  }

  /** Nothing was sealed that was incomplete, so no text was escaped. */
  predicate NothingEscaped(es: seq<Entry>) {
    forall i :: 0 <= i < |es| && es[i].PendingText? && es[i].closed ==> Flushable(es[i].bytes) == |es[i].bytes|
  }

  /** Then the ring received what was pushed as it was. */
  lemma {:induction false} PassedAsPushed(es: seq<Entry>)
    requires NothingEscaped(es)
    ensures Passed(es) == RawTokens(es)
  {
    if es == [] {
      assert MaterializeAll(es) == [];
    } else {
      var rest := es[1..];
      assert forall i :: 0 <= i < |rest| ==> rest[i] == es[i + 1];
      PassedAsPushed(rest);
      EntryAsPushed(es[0]);
      hide Materialize, EntryTokens;
      ReadyConcat([Materialize(es[0])], MaterializeAll(rest));
    }
  }

  lemma EntryAsPushed(e: Entry)
    requires e.PendingText? && e.closed ==> Flushable(e.bytes) == |e.bytes|
    ensures ReadyTokens([Materialize(e)]) == EntryTokens(e)
  {
    hide Flushable;
    var m := Materialize(e);
    assert [m][..0] == [] && [] + EntryTokens(e) == EntryTokens(e);
    if e.PendingText? && e.closed {
      assert e.bytes[..|e.bytes|] == e.bytes && e.bytes[|e.bytes|..] == [];
      assert e.bytes + Escape([]) == e.bytes;
    }
  }

  /** No text of the script ends inside a UTF-8 sequence. */
  predicate AllComplete(script: seq<Action>) {
    forall i :: 0 <= i < |script| && script[i].WriteText? ==> Flushable(script[i].bytes) == |script[i].bytes|
  }

  predicate NoStderr(script: seq<Action>) {
    forall i :: 0 <= i < |script| && script[i].WriteText? ==> !script[i].key.isStderr
  }

  predicate ShownOnce(script: seq<Action>) {
    Show !in script
  }

  /** While all text is complete, what was pushed has left as it was. */
  ghost predicate Straight(tape: PendingOutputTape, calls: seq<Call>, leaving: seq<Entry>)
    reads tape.timeline.tails
  {
    && tape.timeline.tails.entries == []
    && NothingEscaped(leaving) && RawTokens(leaving) == PushedTokens(calls)
  }

  lemma StraightOn(leaving: seq<Entry>, calls: seq<Call>, more: seq<Entry>, call: Call)
    requires NothingEscaped(leaving) && RawTokens(leaving) == PushedTokens(calls)
    requires match call
             case PushText(key, bytes, _) => more == if bytes == [] then [] else [PendingText(key, bytes, false)]
             case PushKind(kind) => more == [PendingEvent(kind)]
             case _ => more == []
    ensures NothingEscaped(leaving + more) && RawTokens(leaving + more) == PushedTokens(calls + [call])
  {
    RawConcat(leaving, more);
    assert (calls + [call])[..|calls|] == calls;
    if more != [] {
      RawOne(more[0]);
      assert more == [more[0]];
    } else {
      assert CallTokens(call) == [] && RawTokens(more) == [];
    }
    forall i | 0 <= i < |leaving + more| && (leaving + more)[i].PendingText? && (leaving + more)[i].closed
      ensures Flushable((leaving + more)[i].bytes) == |(leaving + more)[i].bytes|
    {
      assert i < |leaving|;
    }
  }

  /**
    Runs any script of labelled text, events, seals and drains, and a final drain.
    With room for its load, everything pushed has left the side buffer, each push at
    the end or behind the open sequence it continues; the parts shown make up what
    left, each shown by its reference rendering; and when no cut splits two stderr
    lines the client has seen the one rendering of everything.  When all text is
    complete, and drains cannot split stderr lines, that is the rendering of what was
    pushed, in order.
   */
  method RunOutput(capacity: nat, script: seq<Action>)
      returns (shown: seq<Glyph>, ghost leaving: seq<Entry>, ghost spots: seq<nat>, ghost parts: seq<seq<Token>>,
               ghost last: seq<Token>)
    requires capacity > 0
    ensures var calls := CallsOf(script) + [SealAll];
            Load(calls) < capacity ==>
              && |spots| == |calls| && SpotsOk(calls, spots) && RawTokens(leaving) == Arranged(calls, spots)
              && Concat(parts) + last == Passed(leaving)
              && shown == RenderParts(parts, Bundle, None).out
                          + RenderTokens(last, Bundle, RenderParts(parts, Bundle, None).state).out
              && (NoLineSplit(parts, last) ==> shown == RenderTokens(Passed(leaving), Bundle, None).out)
              && (NoLineSplit(parts, last) && NothingEscaped(leaving) ==>
                    shown == RenderTokens(Arranged(calls, spots), Bundle, None).out)
    ensures Load(CallsOf(script)) < capacity && AllComplete(script) && (NoStderr(script) || ShownOnce(script)) ==>
              shown == RenderTokens(PushedTokens(CallsOf(script)), Bundle, None).out
  {
    hide Shows, Load, Ledger, Concat, RenderParts, Passed, RawTokens, SpotsOk, Arranged, NoLineSplit, NothingEscaped,
        RenderTokens, SeamsAreClean, Ascending, Tiles, Sorted, Flatten, LineEnds, SumLens, SumSizes, Tokens, WellKept,
        PushedTokens, Flushable, NoStderr;
    var tape := new PendingOutputTape(capacity);
    shown, leaving, spots, parts := [], [], [], [];
    StartShows(tape);
    ghost var calls := CallsOf(script);
    ghost var roomy := Load(calls + [SealAll]) < capacity;
    ghost var straight := roomy && AllComplete(script);
    SealWeighsNothing(calls);
    var i := 0;
    assert script[..0] == [];
    while i < |script|
      invariant i <= |script| && fresh(tape.timeline.ring) && fresh(tape.timeline.tails) && fresh(tape.output)
      invariant tape.Valid() && tape.timeline.ring.capacity == capacity
      invariant roomy ==> Shows(tape, CallsOf(script[..i]), leaving, spots, parts, shown)
      invariant straight ==> Straight(tape, CallsOf(script[..i]), leaving)
      invariant ShownOnce(script) ==> parts == []
    {
      NextCall(script, i);
      ghost var at;
      ghost var before, left := CallsOf(script[..i]), leaving;
      match script[i] {
        case WriteText(bytes, key, isContinuation) =>
          leaving, at := WriteTextOnce(tape, bytes, key, isContinuation, before, leaving, spots, parts, shown, roomy);
        case WriteEvent(kind) =>
          leaving, at := WriteEventOnce(tape, kind, before, leaving, spots, parts, shown, roomy);
        case Seal =>
          leaving, at := SealOnce(tape, before, leaving, spots, parts, shown, roomy);
        case Show =>
          shown, leaving, at, parts := ShowOnce(tape, before, leaving, spots, parts, shown, roomy);
      }
      if straight {
        var more := leaving[|left|..];
        assert leaving == left + more;
        StraightOn(left, before, more, CallOf(script[i]));
      }
      spots := spots + [at];
      i := i + 1;
    }
    assert script[..i] == script;
    ghost var at;
    shown, leaving, at, last := ShowLast(tape, calls, leaving, spots, parts, shown, roomy);
    spots := spots + [at];
    if roomy {
      AllShown(calls + [SealAll], leaving, spots, parts, last);
      if straight && (NoStderr(script) || ShownOnce(script)) {
        StraightShown(script, leaving, parts, last);
      }
    }
  }

  lemma StraightShown(script: seq<Action>, leaving: seq<Entry>, parts: seq<seq<Token>>, last: seq<Token>)
    requires NothingEscaped(leaving) && RawTokens(leaving) == PushedTokens(CallsOf(script))
    requires Concat(parts) + last == Passed(leaving) && (NoStderr(script) || parts == [])
    ensures Passed(leaving) == PushedTokens(CallsOf(script)) && NoLineSplit(parts, last)
  {
    PassedAsPushed(leaving);
    if NoStderr(script) {
      NoStderrPushed(script);
      NoStderrNoSplit(parts, last);
    }
  }

  lemma {:induction false} NoStderrPushed(script: seq<Action>)
    requires NoStderr(script)
    ensures NoStderrIn(PushedTokens(CallsOf(script)))
  {
    if script != [] {
      var n := |script| - 1;
      NoStderrPushed(script[..n]);
      var calls, call := CallsOf(script[..n]), CallOf(script[n]);
      assert (calls + [call])[..|calls|] == calls;
      assert script[n].WriteText? ==> !script[n].key.isStderr;
      assert NoStderrIn(CallTokens(call));
    }
  }

  lemma StartShows(tape: PendingOutputTape)
    requires tape.Valid() && tape.timeline.ring.log == [] && tape.timeline.ring.events == []
    requires tape.timeline.ring.startOffset == 0 && tape.timeline.tails.entries == []
    requires tape.output.offset == Some(0) && tape.output.lastRendered == None
    ensures Shows(tape, CallsOf([]), [], [], [], [])
    ensures Straight(tape, CallsOf([]), [])
  {
    NothingPushed();
    assert CellTokens([]) == [];
  }

  lemma SealWeighsNothing(calls: seq<Call>)
    ensures Load(calls + [SealAll]) == Load(calls)
  {
    assert (calls + [SealAll])[..|calls|] == calls;
  }

  lemma AllShown(calls: seq<Call>, leaving: seq<Entry>, spots: seq<nat>, parts: seq<seq<Token>>, last: seq<Token>)
    requires Ledger(leaving, [], calls, spots) && Concat(parts) + last == Passed(leaving) && SeamsAreClean(parts, last)
    ensures |spots| == |calls| && SpotsOk(calls, spots) && RawTokens(leaving) == Arranged(calls, spots)
    ensures var drained := RenderParts(parts, Bundle, None);
            NoLineSplit(parts, last) ==>
              drained.out + RenderTokens(last, Bundle, drained.state).out
              == RenderTokens(Passed(leaving), Bundle, None).out
    ensures NothingEscaped(leaving) ==> Passed(leaving) == Arranged(calls, spots)
  {
    LedgerMeans(leaving, [], calls, spots);
    assert RawTokens(leaving) + [] == RawTokens(leaving);
    if NothingEscaped(leaving) {
      PassedAsPushed(leaving);
    }
    if NoLineSplit(parts, last) {
      hide *;
      CleanDrainsAreInvisible(parts, last, Bundle, None);
    }
  }
}
