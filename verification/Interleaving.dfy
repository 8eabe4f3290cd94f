/**
  Draining the ring while other threads append to it, on the objects themselves:
  every locked section is a step of the interleaved system, so what is shown and
  what is still held make up what was appended, whatever the interleaving.
 */
module Interleaving {
  import opened Sequences
  import opened Utf8
  import opened Wrappers
  import opened Timeline
  import opened RingScans
  import opened RangeReading
  import opened Rendering
  import opened Renderer
  import opened StreamRendering
  import opened Delivery
  import opened OutputRing
  import opened Drain
  import opened Tape
  import opened Seams

  /**
    The locked sections.  A text longer than a chunk is appended in several of them,
    `TextSections`, between which other sections may come.
   */
  datatype Section =
    | AddText(bytes: seq<byte>, key: Key)
    | AddEvent(kind: EventKind)
    | MeasureEnd
    | ReadOut(flushIncomplete: bool)
    | Finish                            // render what was read and advance

  /** What a script appends, as tokens and as weight. */
  function AppendedTokens(script: seq<Section>): seq<Token> {
    if script == [] then []
    else
      AppendedTokens(script[..|script| - 1]) +
      match script[|script| - 1]
      case AddText(bytes, key) => CellTokens(Cells(bytes, key))
      case AddEvent(kind) => [E(kind)]
      case _ => []
  }

  function Weight(script: seq<Section>): nat {
    if script == [] then 0
    else
      Weight(script[..|script| - 1]) +
      match script[|script| - 1]
      case AddText(bytes, _) => |bytes|
      case AddEvent(kind) => EventSize(kind)
      case _ => 0
  }

  /** The sections in which a long text is appended. */
  function TextSections(bytes: seq<byte>, key: Key, len: nat): seq<Section>
    requires len > 0
    decreases |bytes|
  {
    if bytes == [] then []
    else
      var n := if |bytes| < len then |bytes| else len;
      [AddText(bytes[..n], key)] + TextSections(bytes[n..], key, len)
  }

  /** Together they append the text, wherever they come in a script. */
  lemma {:induction false} SectionsAppendText(before: seq<Section>, bytes: seq<byte>, key: Key, len: nat)
    requires len > 0
    ensures var script := before + TextSections(bytes, key, len);
            && AppendedTokens(script) == AppendedTokens(before) + CellTokens(Cells(bytes, key))
            && Weight(script) == Weight(before) + |bytes|
    decreases |bytes|
  {
    if bytes == [] {
      assert before + [] == before && CellTokens(Cells(bytes, key)) == [];
      assert AppendedTokens(before) + [] == AppendedTokens(before);
    } else {
      var n := if |bytes| < len then |bytes| else len;
      OneMoreText(before, bytes[..n], key);
      TextInTwo(bytes, key, n);
      hide CellTokens, Cells, AppendedTokens, Weight;
      var first, rest := AddText(bytes[..n], key), TextSections(bytes[n..], key, len);
      var now := before + [first];
      Assoc3(before, [first], rest);
      SectionsAppendText(now, bytes[n..], key, len);
      Assoc3(AppendedTokens(before), CellTokens(Cells(bytes[..n], key)), CellTokens(Cells(bytes[n..], key)));
    }
  }

  lemma OneMoreText(before: seq<Section>, bytes: seq<byte>, key: Key)
    ensures var now := before + [AddText(bytes, key)];
            && AppendedTokens(now) == AppendedTokens(before) + CellTokens(Cells(bytes, key))
            && Weight(now) == Weight(before) + |bytes|
  {
    hide CellTokens, Cells;
    assert (before + [AddText(bytes, key)])[..|before|] == before;
  }

  lemma TextInTwo(bytes: seq<byte>, key: Key, n: nat)
    requires n <= |bytes|
    ensures CellTokens(Cells(bytes, key)) == CellTokens(Cells(bytes[..n], key)) + CellTokens(Cells(bytes[n..], key))
  {
  }

  /** No drain of the script flushes an incomplete sequence. */
  predicate NoFlush(script: seq<Section>) {
    forall i :: 0 <= i < |script| && script[i].ReadOut? ==> !script[i].flushIncomplete
  }

  predicate NoStderrText(script: seq<Section>) {
    forall i :: 0 <= i < |script| && script[i].AddText? ==> !script[i].key.isStderr
  }

  lemma {:induction false} NoStderrAppended(script: seq<Section>)
    requires NoStderrText(script)
    ensures NoStderrIn(AppendedTokens(script))
  {
    if script != [] {
      var n := |script| - 1;
      NoStderrAppended(script[..n]);
      assert script[n].AddText? ==> !script[n].key.isStderr;
    }
  }

  lemma NextSection(script: seq<Section>, i: nat)
    requires i < |script|
    ensures var before, now := script[..i], script[..i + 1];
            && AppendedTokens(now) == AppendedTokens(before) + (match script[i]
                 case AddText(bytes, key) => CellTokens(Cells(bytes, key))
                 case AddEvent(kind) => [E(kind)]
                 case _ => [])
            && Weight(now) == Weight(before) + (match script[i]
                 case AddText(bytes, _) => |bytes|
                 case AddEvent(kind) => EventSize(kind)
                 case _ => 0)
            && Weight(now) <= Weight(script)
  {
    hide EventSize, Cells, CellTokens;
    assert script[..i + 1][..i] == script[..i];
    WeightGrows(script, i + 1);
  }

  lemma {:induction false} WeightGrows(script: seq<Section>, i: nat)
    requires i <= |script|
    ensures Weight(script[..i]) <= Weight(script)
    decreases |script|
  {
    if i == |script| {
      assert script[..i] == script;
    } else {
      WeightGrows(script[..|script| - 1], i);
      assert script[..|script| - 1][..i] == script[..i];
    }
  }

  // ----- the sections are steps

  /** The system describes the ring, and the ring holds at most what was appended. */
  ghost predicate Describes(s: System, ring: Ring, weight: nat)
    reads ring
  {
    ring.Valid() && ring.retention.Tail? && s.ring == ViewOf(ring) && Inv(s) && ring.Total() <= weight
  }

  lemma Described(s: System, ring: Ring, weight: nat)
    requires Describes(s, ring, weight)
    ensures Inv(s)
  {
  }

  method TextSection(ring: Ring, bytes: seq<byte>, key: Key, ghost s: System, ghost weight: nat)
      returns (ghost t: System)
    requires ring.Valid() && ring.retention.Tail? && ring.capacity > 0
    modifies ring
    ensures ring.Valid()
    ensures old(Describes(s, ring, weight)) && weight + |bytes| < ring.capacity ==>
              Delivery.Step(s, Action.AppendBytes(Cells(bytes, key)), t) && Describes(t, ring, weight + |bytes|)
  {
    hide Tokens, CellTokens, Cells, Flatten, Tiles, Sorted, Ascending, LineEnds, SumSizes, SumLens, EventsIn, CountAt,
        Through;
    ghost var v := if ring.retention.Tail? then ViewOf(ring) else s.ring;
    ghost var cells := Cells(bytes, key);
    TailTotal(ring);
    t := s.(ring := v.(cells := v.cells + cells), appended := s.appended + CellTokens(cells));
    ghost var report := ring.AppendBytes(bytes, key);
    DropIntoFirst(old(ring.log), cells, v.start);
    TailTotal(ring);
    if old(Describes(s, ring, weight)) && weight + |bytes| < ring.capacity {
      AppendBytesKeeps(s, cells, t);
    }
  }

  method EventSection(ring: Ring, kind: EventKind, ghost s: System, ghost weight: nat) returns (ghost t: System)
    requires ring.Valid() && ring.retention.Tail?
    modifies ring
    ensures ring.Valid()
    ensures old(Describes(s, ring, weight)) && weight + EventSize(kind) < ring.capacity ==>
              Delivery.Step(s, Action.AppendEvent(kind), t) && Describes(t, ring, weight + EventSize(kind))
  {
    hide Tokens, EventSize, Flatten, Tiles, Sorted, Ascending, LineEnds, SumLens, EventsIn, CountAt, Through;
    ghost var v := ViewOf(ring);
    TailTotal(ring);
    SumSizesConcat(ring.events, [Event(ring.endOffset, kind)]);
    assert [Event(ring.endOffset, kind)][1..] == [];
    t := s.(ring := v.(events := v.events + [Event(v.End(), kind)]), appended := s.appended + [E(kind)]);
    ghost var accepted, before, report := ring.AppendEvent(kind);
    TailTotal(ring);
    if old(Describes(s, ring, weight)) && weight + EventSize(kind) < ring.capacity {
      AppendEventKeeps(s, kind, t);
    }
  }

  // ----- a drain in sections

  /** How far a drain has come. */
  datatype Progress = AtRest | HasEnd(end: nat) | HasRange(range: OutputRange)

  ghost predicate Matches(p: Progress, phase: Phase) {
    match p
    case AtRest => phase.Idle?
    case HasEnd(end) => phase == Measured(end)
    case HasRange(range) =>
      && phase.Read? && phase.upTo == range.end && phase.boundary == CountAt(range.events, range.end)
      && var taken := Taken(phase.seen, phase.upTo);
      phase.seen.start == range.start && range.events == taken.events && RangeOf(range, taken.cells)
  }

  method ReadSection(buffer: OutputBuffer, end: nat, flushIncomplete: bool, ghost s: System, ghost weight: nat)
      returns (range: OutputRange, ghost t: System)
    requires buffer.ring.Valid() && buffer.ring.retention.Tail?
    requires buffer.offset.Some?
    ensures Describes(s, buffer.ring, weight) && s.phase == Measured(end) && buffer.offset == Some(s.ring.start) ==>
              && Delivery.Step(s, Action.ReadRange(range.end), t)
              && Describes(t, buffer.ring, weight) && Matches(HasRange(range), t.phase)
              && (!flushIncomplete ==> CleanCut(t.phase.seen, t.phase.upTo))
  {
    hide CleanCut, Tokens, EventsIn, CountAt, Through, RangeOf, Runs, BytesOf, Flushable, Sorted, Ascending, Tiles,
        Flatten, LineEnds;
    range := buffer.ReadForDrain(buffer.offset.value, end, flushIncomplete);
    t := s.(phase := Read(s.ring, range.end, CountAt(range.events, range.end)));
    if Describes(s, buffer.ring, weight) && s.phase == Measured(end) && buffer.offset == Some(s.ring.start) {
      ReadIsStep(s, range, flushIncomplete);
      ReadKeeps(s, range.end, t);
      ReadCutIsClean(s.ring, end);
    }
  }

  /** Advancing never makes the ring heavier. */
  lemma ConsumeIsLighter(v: View, c: nat, n: nat)
    ensures |Consume(v, c, n).cells| + SumSizes(Consume(v, c, n).events) <= |v.cells| + SumSizes(v.events)
  {
    if v.start <= c <= v.End() {
      DropEventsBelowSize(v.events, c);
      DropEventsAtSize(DropEventsBelow(v.events, c), c, n);
    }
  }

  method FinishSection(buffer: OutputBuffer, range: OutputRange, mode: ProjectionMode, ghost s: System,
                       ghost weight: nat)
      returns (contents: seq<Content>, ghost t: System)
    requires buffer.ring.Valid() && buffer.ring.retention.Tail?
    modifies buffer, buffer.ring
    ensures buffer.ring.Valid() && buffer.offset.Some?
    ensures old(Describes(s, buffer.ring, weight)) && Matches(HasRange(range), s.phase) ==>
              && Delivery.Step(s, Action.Advance, t) && Describes(t, buffer.ring, weight) && t.phase.Idle?
              && buffer.offset == Some(t.ring.start)
              && Shown(contents, buffer.lastRendered)
                 == RenderTokens(Taken(s.phase.seen, s.phase.upTo).Stream(), mode, old(buffer.lastRendered))
  {
    hide Tokens, EventsIn, CountAt, Through, Runs, BytesOf, Sorted, Ascending, Tiles, Flatten, LineEnds;
    hide RenderTokens, RenderRange, Flat, SumSizes, SumLens, DropEventsAt, DropEventsBelow, Consume;
    ghost var known := Describes(s, buffer.ring, weight) && Matches(HasRange(range), s.phase);
    ghost var v := ViewOf(buffer.ring);
    TailTotal(buffer.ring);
    var boundary := BoundaryCount(range.events, range.end);
    var state;
    contents, state := ContentsFromOutputRange(range, mode, buffer.lastRendered);
    if known {
      RangeRendersAsTokens(range, Taken(s.phase.seen, s.phase.upTo).cells, mode, buffer.lastRendered);
      ConsumeStart(v, range.end, boundary);
      ConsumeIsLighter(v, range.end, boundary);
    }
    t := s.(ring := Consume(v, range.end, boundary), phase := Idle);
    if known {
      t := t.(delivered := s.delivered + Taken(s.phase.seen, s.phase.upTo).Stream());
      AdvanceKeeps(s, t);
    }
    buffer.AdvanceOffsetTo(range.end, state, boundary);
    TailTotal(buffer.ring);
  }

  // ----- any interleaving

  lemma {:induction false} PartsSnoc(parts: seq<seq<Token>>, part: seq<Token>, mode: ProjectionMode, st: Carried)
    ensures Concat(parts + [part]) == Concat(parts) + part
    ensures RenderParts(parts + [part], mode, st)
            == var before := RenderParts(parts, mode, st); Then(before, RenderTokens(part, mode, before.state))
  {
    hide RenderTokens;
    if parts == [] {
      assert parts + [part] == [part] && [part][1..] == [];
      assert part + [] == part && [] + part == part;
      var first := RenderTokens(part, mode, st);
      assert first.out + [] == first.out && [] + first.out == first.out;
    } else {
      assert (parts + [part])[1..] == parts[1..] + [part];
      var first := RenderTokens(parts[0], mode, st);
      PartsSnoc(parts[1..], part, mode, first.state);
      Assoc3(parts[0], Concat(parts[1..]), part);
      var rest := RenderParts(parts[1..], mode, first.state);
      Assoc3(first.out, rest.out, RenderTokens(part, mode, rest.state).out);
    }
  }

  /** When nothing flushes, every cut made so far and the one under way stay clean. */
  ghost predicate Clean(calm: bool, s: System, parts: seq<seq<Token>>) {
    calm ==>
      && SeamsStayClean(parts, s.ring.Stream())
      && (s.phase.Read? ==> CleanCut(s.phase.seen, s.phase.upTo))
  }

  /** An append only adds behind what the ring holds. */
  lemma AppendStaysClean(calm: bool, s: System, t: System, more: seq<Token>, parts: seq<seq<Token>>)
    requires Inv(s) && Inv(t) && Clean(calm, s, parts)
    requires t.phase == s.phase && t.delivered == s.delivered && t.appended == s.appended + more
    ensures Clean(calm, t, parts)
  {
    hide Tokens, CleanCut, SeamsStayClean;
    if calm {
      Assoc3(s.delivered, s.ring.Stream(), more);
      CancelPrefix(s.delivered, t.ring.Stream(), s.ring.Stream() + more);
      StayCleanGrows(parts, s.ring.Stream(), more);
    }
  }

  /** What has been appended since the ring was read comes behind what it held. */
  lemma Later(v: View, w: View) returns (later: seq<Token>)
    requires v.Ok() && w.Ok() && Extends(v, w)
    ensures w.Stream() == v.Stream() + later
  {
    hide Tokens, Sorted;
    var n, k := |v.cells|, |v.events|;
    var more := w.events[k..];
    assert w.events == v.events + more && w.cells[..n] == v.cells;
    SortedPairs(v.events, v.start, v.End());
    SortedSplit(v.events, more, w.start, v.End(), w.End());
    TokensSplit(w.cells, v.events, more, w.start, v.End());
    later := Tokens(w.cells[n..], more, v.End());
  }

  lemma AdvanceStaysClean(calm: bool, s: System, t: System, parts: seq<seq<Token>>)
    requires Inv(s) && Inv(t) && Clean(calm, s, parts) && Delivery.Step(s, Action.Advance, t)
    ensures Clean(calm, t, parts + [Taken(s.phase.seen, s.phase.upTo).Stream()])
  {
    if calm {
      hide Tokens, CleanCut, SeamsStayClean, Consume, Sorted;
      var seen, c := s.phase.seen, s.phase.upTo;
      var part, kept := Taken(seen, c).Stream(), KeptBy(seen, c).Stream();
      var later := Later(seen, s.ring);
      DrainRemovesExactlyWhatItRead(seen, seen, c);
      Assoc3(part, kept, later);
      Assoc3(s.delivered, part, t.ring.Stream());
      CancelPrefix(s.delivered, s.ring.Stream(), part + t.ring.Stream());
      CancelPrefix(part, t.ring.Stream(), kept + later);
      DrainStaysClean(parts, seen, c, later);
    }
  }

  /** What the objects are known to be while nothing has been evicted. */
  ghost predicate Follows(buffer: OutputBuffer, s: System, p: Progress, weight: nat, appended: seq<Token>,
                          parts: seq<seq<Token>>, mode: ProjectionMode, shown: seq<Glyph>, calm: bool)
    reads buffer, buffer.ring
  {
    && Clean(calm, s, parts)
    && Describes(s, buffer.ring, weight) && Matches(p, s.phase)
    && buffer.offset == Some(s.ring.start)
    && s.appended == appended && s.delivered == Concat(parts)
    && RenderParts(parts, mode, None) == Rendered(shown, buffer.lastRendered)
  }

  /**
    Runs any interleaving of appends with the sections of drains, on the ring and
    the cursor themselves.  While nothing is evicted, the drained parts followed by
    what the ring still holds are what was appended, each byte and event once and in
    order, and the client has been shown the renderings of the parts in turn.
    When no drain flushes and no cut splits two stderr lines, that and what is still
    to be shown is what one rendering of everything shows; without text on stderr the
    client has seen a front part of that rendering.
   */
  method RunInterleaved(capacity: nat, script: seq<Section>, mode: ProjectionMode)
      returns (shown: seq<Glyph>, ghost parts: seq<seq<Token>>, ghost rest: seq<Token>)
    requires capacity > 0
    ensures Weight(script) < capacity ==>
              Concat(parts) + rest == AppendedTokens(script) && shown == RenderParts(parts, mode, None).out
    ensures Weight(script) < capacity && NoFlush(script) ==> SeamsAreClean(parts, rest)
    ensures Weight(script) < capacity && NoFlush(script) && NoLineSplit(parts, rest) ==>
              shown + RenderTokens(rest, mode, RenderParts(parts, mode, None).state).out
              == RenderTokens(AppendedTokens(script), mode, None).out
    ensures Weight(script) < capacity && NoFlush(script) && NoStderrText(script) ==>
              shown <= RenderTokens(AppendedTokens(script), mode, None).out
  {
    hide AppendedTokens, Weight, Follows, Describes, Flat, RenderTokens, Concat, RenderParts, Tokens, Inv, Taken;
    hide SeamsAreClean, NoLineSplit, Ascending, Tiles, Sorted, Flatten, LineEnds;
    var ring := new Ring(capacity, Retention.Tail);
    var buffer := new OutputBuffer(ring);
    buffer.StartCapture();
    shown, parts := [], [];
    var progress := AtRest;
    ghost var s := System(ViewOf(ring), Idle, [], []);
    ghost var calm := NoFlush(script);
    StartFollows(buffer, s, mode, calm);
    ghost var roomy := Weight(script) < capacity;
    assert script[..0] == [];
    var i := 0;
    while i < |script|
      invariant i <= |script| && buffer.ring == ring && fresh(ring) && fresh(buffer)
      invariant ring.Valid() && ring.retention.Tail? && ring.capacity == capacity && buffer.offset.Some?
      invariant roomy ==> Follows(buffer, s, progress, Weight(script[..i]), AppendedTokens(script[..i]), parts, mode,
                                  shown, calm)
    {
      NextSection(script, i);
      ghost var before := script[..i];
      assert AppendedTokens(before) + [] == AppendedTokens(before);
      match script[i] {
        case AddText(bytes, key) =>
          s := FollowText(buffer, bytes, key, s, progress, before, roomy, parts, mode, shown, calm);
        case AddEvent(kind) =>
          s := FollowEvent(buffer, kind, s, progress, before, roomy, parts, mode, shown, calm);
        case _ =>
          progress, shown, s, parts :=
            FollowDrain(buffer, script[i], progress, mode, shown, s, before, roomy, parts, calm);
      }
      i := i + 1;
    }
    assert script[..i] == script;
    rest := s.ring.Stream();
    if roomy {
      FollowsMeans(buffer, s, progress, script, parts, mode, shown, calm);
      if NoStderrText(script) {
        NoStderrAppended(script);
        NoStderrNoSplit(parts, rest);
      }
    }
  }

  lemma FollowsMeans(buffer: OutputBuffer, s: System, p: Progress, script: seq<Section>,
                     parts: seq<seq<Token>>, mode: ProjectionMode, shown: seq<Glyph>, calm: bool)
    requires Follows(buffer, s, p, Weight(script), AppendedTokens(script), parts, mode, shown, calm)
    ensures var rest := s.ring.Stream();
            && Concat(parts) + rest == AppendedTokens(script) && shown == RenderParts(parts, mode, None).out
            && (calm ==> SeamsAreClean(parts, rest))
            && (calm && NoLineSplit(parts, rest) ==>
                  shown + RenderTokens(rest, mode, RenderParts(parts, mode, None).state).out
                  == RenderTokens(AppendedTokens(script), mode, None).out)
  {
    hide AppendedTokens, Weight, Concat, RenderParts, Tokens, RenderTokens, SeamsAreClean, NoLineSplit, CleanCut;
    var rest := s.ring.Stream();
    if calm {
      assert rest + [] == rest;
      assert SeamsAreClean(parts, rest + []);
      if NoLineSplit(parts, rest) {
        CleanDrainsAreInvisible(parts, rest, mode, None);
      }
    }
  }

  lemma StartFollows(buffer: OutputBuffer, s: System, mode: ProjectionMode, calm: bool)
    requires buffer.ring.Valid() && buffer.ring.retention.Tail? && buffer.ring.Total() == 0
    requires buffer.ring.events == [] && buffer.ring.log == [] && buffer.ring.startOffset == 0
    requires buffer.offset == Some(0) && buffer.lastRendered == None && s == System(ViewOf(buffer.ring), Idle, [], [])
    ensures Follows(buffer, s, AtRest, Weight([]), AppendedTokens([]), [], mode, [], calm)
  {
    assert CellTokens([]) == [];
  }

  method FollowText(buffer: OutputBuffer, bytes: seq<byte>, key: Key, ghost s: System, ghost p: Progress,
                    ghost before: seq<Section>, ghost roomy: bool, ghost parts: seq<seq<Token>>,
                    ghost mode: ProjectionMode, ghost shown: seq<Glyph>, ghost calm: bool)
      returns (ghost t: System)
    requires buffer.ring.Valid() && buffer.ring.retention.Tail? && buffer.ring.capacity > 0
    requires roomy ==> Follows(buffer, s, p, Weight(before), AppendedTokens(before), parts, mode, shown, calm)
    requires roomy ==> Weight(before) + |bytes| < buffer.ring.capacity
    modifies buffer.ring
    ensures buffer.ring.Valid()
    ensures roomy ==> Follows(buffer, t, p, Weight(before) + |bytes|,
                              AppendedTokens(before) + CellTokens(Cells(bytes, key)), parts, mode, shown, calm)
  {
    hide AppendedTokens, Weight, Describes, Matches, RenderParts, Concat, CellTokens, Cells, Clean, Inv;
    if roomy {
      Described(s, buffer.ring, Weight(before));
    }
    t := TextSection(buffer.ring, bytes, key, s, Weight(before));
    if roomy {
      Described(t, buffer.ring, Weight(before) + |bytes|);
      AppendStaysClean(calm, s, t, CellTokens(Cells(bytes, key)), parts);
    }
  }

  method FollowEvent(buffer: OutputBuffer, kind: EventKind, ghost s: System, ghost p: Progress,
                     ghost before: seq<Section>, ghost roomy: bool, ghost parts: seq<seq<Token>>,
                     ghost mode: ProjectionMode, ghost shown: seq<Glyph>, ghost calm: bool)
      returns (ghost t: System)
    requires buffer.ring.Valid() && buffer.ring.retention.Tail?
    requires roomy ==> Follows(buffer, s, p, Weight(before), AppendedTokens(before), parts, mode, shown, calm)
    requires roomy ==> Weight(before) + EventSize(kind) < buffer.ring.capacity
    modifies buffer.ring
    ensures buffer.ring.Valid()
    ensures roomy ==> Follows(buffer, t, p, Weight(before) + EventSize(kind),
                              AppendedTokens(before) + [E(kind)], parts, mode, shown, calm)
  {
    hide AppendedTokens, Weight, Describes, Matches, RenderParts, Concat, EventSize, Clean, Inv;
    if roomy {
      Described(s, buffer.ring, Weight(before));
    }
    t := EventSection(buffer.ring, kind, s, Weight(before));
    if roomy {
      Described(t, buffer.ring, Weight(before) + EventSize(kind));
      AppendStaysClean(calm, s, t, [E(kind)], parts);
    }
  }

  /** A section of a drain, when it is its turn. */
  method FollowDrain(buffer: OutputBuffer, section: Section, p: Progress, mode: ProjectionMode, shown: seq<Glyph>,
                     ghost s: System, ghost before: seq<Section>, ghost roomy: bool, ghost parts: seq<seq<Token>>,
                     ghost calm: bool)
      returns (q: Progress, now: seq<Glyph>, ghost t: System, ghost nowParts: seq<seq<Token>>)
    requires buffer.ring.Valid() && buffer.ring.retention.Tail? && buffer.offset.Some?
    requires roomy ==> Follows(buffer, s, p, Weight(before), AppendedTokens(before), parts, mode, shown, calm)
    requires calm && section.ReadOut? ==> !section.flushIncomplete
    modifies buffer, buffer.ring
    ensures buffer.ring.Valid() && buffer.offset.Some?
    ensures roomy ==> Follows(buffer, t, q, Weight(before), AppendedTokens(before), nowParts, mode, now, calm)
  {
    hide AppendedTokens, Weight, Describes, RenderParts, Concat, Flat, RenderTokens, Taken, RangeOf, CountAt;
    hide SeamsStayClean, CleanCut, Inv;
    q, now, t, nowParts := p, shown, s, parts;
    if roomy {
      Described(s, buffer.ring, Weight(before));
    }
    match (section, p) {
      case (MeasureEnd, AtRest) =>
        q := HasEnd(buffer.ring.endOffset);
        t := s.(phase := Measured(s.ring.End()));
        if roomy {
          MeasureKeeps(buffer.ring, s, Weight(before));
        }
      case (ReadOut(flushIncomplete), HasEnd(end)) =>
        var range;
        range, t := ReadSection(buffer, end, flushIncomplete, s, Weight(before));
        q := HasRange(range);
        if roomy {
          StepsAppendNothing(s, Action.ReadRange(range.end), t);
        }
      case (Finish, HasRange(range)) =>
        var contents;
        ghost var st := buffer.lastRendered;
        contents, t := FinishSection(buffer, range, mode, s, Weight(before));
        q, now := AtRest, shown + Flat(contents);
        if roomy {
          var part := Taken(s.phase.seen, s.phase.upTo).Stream();
          nowParts := parts + [part];
          PartsSnoc(parts, part, mode, None);
          Described(t, buffer.ring, Weight(before));
          AdvanceStaysClean(calm, s, t, parts);
        }
      case _ =>
    }
  }

  lemma StepsAppendNothing(s: System, a: Action, t: System)
    requires a.ReadRange? && Delivery.Step(s, a, t)
    ensures t.appended == s.appended && t.delivered == s.delivered && t.ring == s.ring
  {
  }

  lemma MeasureKeeps(ring: Ring, s: System, weight: nat)
    requires Describes(s, ring, weight) && s.phase.Idle?
    ensures s.ring.End() == ring.endOffset
    ensures var t := s.(phase := Measured(s.ring.End()));
            Describes(t, ring, weight) && Delivery.Step(s, Action.Measure, t)
  {
    hide Tokens;
  }
}
