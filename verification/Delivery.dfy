/**
  Draining a Tail ring while other threads append to it.  Each locked section is
  one step: the drain measures the end, reads a range and later advances, and
  appends may happen between any two of these.
 */
module Delivery {
  import opened Sequences
  import opened Timeline
  import opened RingScans
  import opened RangeReading
  import opened Rendering
  import opened StreamRendering

  /** The events up to offset o, which a sorted queue holds in front. */
  function Through(events: seq<Event>, o: nat): (n: nat)
    ensures n <= |events|
  {
    if events == [] || events[0].offset > o then 0 else 1 + Through(events[1..], o)
  }

  /** `output_range_boundary_event_count`. */
  function CountAt(events: seq<Event>, o: nat): nat {
    if events == [] then 0 else (if events[0].offset == o then 1 else 0) + CountAt(events[1..], o)
  }

  /** Reading a sorted queue from its start reads the events up to the end of the range. */
  lemma {:induction false} EventsInIsPrefix(events: seq<Event>, lo: nat, hi: nat, e: nat)
    requires Sorted(events, lo, hi)
    ensures EventsIn(events, lo, e) == events[..Through(events, e)]
  {
    if events != [] && events[0].offset <= e {
      var rest := events[1..];
      EventsInIsPrefix(rest, events[0].offset, hi, e);
      EventsInLower(rest, lo, events[0].offset, hi, e);
      assert [events[0]] + rest[..Through(rest, e)] == events[..Through(events, e)];
    }
  }

  lemma {:induction false} EventsInLower(events: seq<Event>, s: nat, lo: nat, hi: nat, e: nat)
    requires s <= lo && Sorted(events, lo, hi)
    ensures EventsIn(events, s, e) == EventsIn(events, lo, e)
  {
    if events != [] {
      EventsInLower(events[1..], s, events[0].offset, hi, e);
      EventsInLower(events[1..], lo, events[0].offset, hi, e);
    }
  }

  /** Dropping what lies below c and then as many events at c as were read leaves what was not read. */
  lemma {:induction false} DropWhatWasRead(read: seq<Event>, later: seq<Event>, c: nat)
    requires forall i :: 0 <= i < |read| ==> read[i].offset <= c
    requires forall i, j :: 0 <= i < j < |read| ==> read[i].offset <= read[j].offset
    requires forall i :: 0 <= i < |later| ==> later[i].offset >= c
    ensures DropEventsAt(DropEventsBelow(read + later, c), c, CountAt(read, c)) == later
    decreases |read|
  {
    if read == [] {
      assert read + later == later;
    } else {
      var rest := read[1..];
      assert (read + later)[0] == read[0] && (read + later)[1..] == rest + later;
      if read[0].offset < c {
        DropWhatWasRead(rest, later, c);
      } else {
        DropAtBoundary(read, later, c);
      }
    }
  }

  lemma {:induction false} DropAtBoundary(read: seq<Event>, later: seq<Event>, c: nat)
    requires forall i :: 0 <= i < |read| ==> read[i].offset == c
    requires forall i :: 0 <= i < |later| ==> later[i].offset >= c
    ensures DropEventsBelow(read + later, c) == read + later
    ensures CountAt(read, c) == |read| && DropEventsAt(read + later, c, |read|) == later
    decreases |read|
  {
    if read == [] {
      assert read + later == later;
    } else {
      assert (read + later)[0] == read[0] && (read + later)[1..] == read[1..] + later;
      DropAtBoundary(read[1..], later, c);
    }
  }

  lemma {:induction false} SortedPairs(events: seq<Event>, lo: nat, hi: nat)
    requires Sorted(events, lo, hi)
    ensures forall i :: 0 <= i < |events| ==> lo <= events[i].offset <= hi
    ensures forall i, j :: 0 <= i < j < |events| ==> events[i].offset <= events[j].offset
  {
    if events != [] {
      SortedPairs(events[1..], events[0].offset, hi);
      SortedWiden(events[1..], events[0].offset, hi, hi);
      var rest := events[1..];
      assert forall i :: 0 < i < |events| ==> events[i] == rest[i - 1];
    }
  }

  lemma {:induction false} ThroughSplits(events: seq<Event>, lo: nat, hi: nat, o: nat)
    requires Sorted(events, lo, hi)
    ensures forall i :: 0 <= i < Through(events, o) ==> events[i].offset <= o
    ensures forall i :: Through(events, o) <= i < |events| ==> events[i].offset > o
  {
    if events != [] {
      var rest := events[1..];
      assert forall i :: 0 < i < |events| ==> events[i] == rest[i - 1];
      if events[0].offset <= o {
        ThroughSplits(rest, events[0].offset, hi, o);
      } else {
        SortedPairs(events, lo, hi);
      }
    }
  }

  lemma {:induction false} SortedSplit(a: seq<Event>, b: seq<Event>, lo: nat, mid: nat, hi: nat)
    requires Sorted(a + b, lo, hi) && lo <= mid <= hi
    requires forall i :: 0 <= i < |a| ==> a[i].offset <= mid
    requires forall i :: 0 <= i < |b| ==> b[i].offset >= mid
    ensures Sorted(a, lo, mid) && Sorted(b, mid, hi)
    decreases |a|
  {
    if a == [] {
      assert a + b == b;
      if b != [] {
        SortedWiden(b, lo, hi, hi);
      }
    } else {
      assert (a + b)[0] == a[0] && (a + b)[1..] == a[1..] + b;
      SortedSplit(a[1..], b, a[0].offset, mid, hi);
    }
  }

  /** A stream cut at an offset, with any share of the events at that offset in front. */
  lemma {:induction false} TokensSplit(cells: seq<Cell>, a: seq<Event>, b: seq<Event>, base: nat, c: nat)
    requires base <= c <= base + |cells|
    requires Sorted(a + b, base, base + |cells|)
    requires Sorted(a, base, c) && Sorted(b, c, base + |cells|)
    ensures Tokens(cells, a + b, base)
         == Tokens(cells[..c - base], a, base) + Tokens(cells[c - base..], b, c)
    decreases |a|
  {
    var k := c - base;
    if a == [] {
      assert a + b == b;
      TokensFrom(cells, b, base, c);
    } else {
      hide CellTokens, Tokens;
      var o := a[0].offset;
      SortedWiden(a[1..], o, c, c);
      var n := o - base;
      assert (a + b)[0] == a[0] && (a + b)[1..] == a[1..] + b;
      TakeDropSlices(cells, n, k);
      TokensSplit(cells[n..], a[1..], b, o, c);
      TokensCons(cells, a + b, base);
      TokensCons(cells[..k], a, base);
      var front, middle, back := CellTokens(cells[..n]), Tokens(cells[n..k], a[1..], o), Tokens(cells[k..], b, c);
      Assoc4(front, [E(a[0].kind)], middle, back);
      Assoc3([E(a[0].kind)], middle, back);
      Assoc3(front, [E(a[0].kind)], middle);
    }
  }

  lemma TokensCons(cells: seq<Cell>, events: seq<Event>, base: nat)
    requires events != [] && Sorted(events, base, base + |cells|)
    ensures base <= events[0].offset <= base + |cells| && Sorted(events[1..], events[0].offset, base + |cells|)
    ensures var n := events[0].offset - base;
            Tokens(cells, events, base)
            == CellTokens(cells[..n]) + ([E(events[0].kind)] + Tokens(cells[n..], events[1..], events[0].offset))
  {
    SortedWiden(events[1..], events[0].offset, base + |cells|, base + |cells|);
  }

  lemma TokensFrom(cells: seq<Cell>, b: seq<Event>, base: nat, c: nat)
    requires base <= c <= base + |cells| && Sorted(b, c, base + |cells|) && Sorted(b, base, base + |cells|)
    ensures Tokens(cells, b, base) == CellTokens(cells[..c - base]) + Tokens(cells[c - base..], b, c)
  {
    var k := c - base;
    if b == [] {
      CellTokensSplit(cells, k);
    } else {
      SortedWiden(b[1..], b[0].offset, base + |cells|, base + |cells|);
      var n := b[0].offset - base;
      hide CellTokens;
      CellTokensSplit(cells[..n], k);
      TakeDropSlices(cells, k, n);
      Assoc3(CellTokens(cells[..k]), CellTokens(cells[k..n]), [E(b[0].kind)] + Tokens(cells[n..], b[1..], b[0].offset));
    }
  }

  lemma TakeDropSlices<T>(s: seq<T>, k: nat, n: nat)
    requires k <= n <= |s|
    ensures s[..n][..k] == s[..k] && s[..n][k..] == s[k..n]
    ensures s[k..][..n - k] == s[k..n] && s[k..][n - k..] == s[n..]
  {
  }

  // ----- the ring a drain sees

  /** A Tail ring: its start offset, retained bytes and retained events. */
  datatype View = View(start: nat, cells: seq<Cell>, events: seq<Event>) {
    function End(): nat {
      start + |cells|
    }

    ghost predicate Ok() {
      Sorted(events, start, End())
    }

    ghost function Stream(): seq<Token> {
      if Ok() then Tokens(cells, events, start) else []
    }
  }

  /** What a drain takes when it consumes up to c: bytes below c, events up to and at c. */
  function Taken(v: View, c: nat): View {
    if v.start <= c <= v.End() then View(v.start, v.cells[..c - v.start], v.events[..Through(v.events, c)])
    else View(v.start, [], [])
  }

  /** What the ring keeps when told to consume up to c and n events at c. */
  function Consume(v: View, c: nat, n: nat): View {
    if v.start <= c <= v.End() then View(c, v.cells[c - v.start..], DropEventsAt(DropEventsBelow(v.events, c), c, n))
    else v
  }

  /** What may have been appended since v was looked at. */
  ghost predicate Extends(v: View, w: View) {
    && v.start == w.start && v.cells <= w.cells && v.events <= w.events
    && forall i :: |v.events| <= i < |w.events| ==> w.events[i].offset >= v.End()
  }

  /**
    A drain that read v and consumes up to c removes exactly what it read, even
    if the ring has grown to w meanwhile: events that arrived at c survive.
   */
  lemma DrainRemovesExactlyWhatItRead(v: View, w: View, c: nat)
    requires v.Ok() && w.Ok() && Extends(v, w) && v.start <= c <= v.End()
    ensures var taken := Taken(v, c);
            var kept := Consume(w, c, CountAt(taken.events, c));
            && taken.Ok() && kept.Ok() && kept.start == c
            && w.Stream() == taken.Stream() + kept.Stream()
  {
    hide Tokens, Sorted, DropEventsAt, DropEventsBelow, CountAt, Through;
    var k := Through(v.events, c);
    var read, later := v.events[..k], w.events[k..];
    ReadThenLater(v, w, c);
    DropWhatWasRead(read, later, c);
    SortedSplit(read, later, w.start, c, w.End());
    TokensSplit(w.cells, read, later, w.start, c);
    assert w.cells[..c - v.start] == v.cells[..c - v.start];
  }

  lemma ReadThenLater(v: View, w: View, c: nat)
    requires v.Ok() && Extends(v, w) && v.start <= c <= v.End()
    ensures var k := Through(v.events, c);
            var read, later := v.events[..k], w.events[k..];
            && w.events == read + later
            && (forall i :: 0 <= i < |read| ==> read[i].offset <= c)
            && (forall i, j :: 0 <= i < j < |read| ==> read[i].offset <= read[j].offset)
            && (forall i :: 0 <= i < |later| ==> later[i].offset >= c)
  {
    var k := Through(v.events, c);
    var read, later := v.events[..k], w.events[k..];
    ThroughSplits(v.events, v.start, v.End(), c);
    SortedPairs(v.events, v.start, v.End());
    assert w.events == read + later;
    forall i | 0 <= i < |later|
      ensures later[i].offset >= c
    {
      assert later[i] == w.events[k + i];
      if k + i < |v.events| {
        assert w.events[k + i] == v.events[k + i];
      }
    }
  }

  // ----- a run of interleaved locked sections

  /** Where the drain stands between its locked sections. */
  datatype Phase =
    | Idle
    | Measured(end: nat)                                   // `end_offset` has been read
    | Read(seen: View, upTo: nat, boundary: nat)           // a range has been read, and trimmed to `upTo`

  datatype System = System(ring: View, phase: Phase, appended: seq<Token>, delivered: seq<Token>)

  datatype Action =
    | AppendBytes(cells: seq<Cell>)
    | AppendEvent(kind: EventKind)
    | Measure
    | ReadRange(upTo: nat)
    | Advance

  predicate Initial(s: System) {
    s.ring.cells == [] && s.ring.events == [] && s.phase.Idle? && s.appended == [] && s.delivered == []
  }

  /** One locked section.  Appends are the ones for which the ring had room. */
  ghost predicate Step(s: System, a: Action, t: System) {
    match a
    case AppendBytes(cells) =>
      t == s.(ring := s.ring.(cells := s.ring.cells + cells), appended := s.appended + CellTokens(cells))
    case AppendEvent(kind) =>
      t == s.(ring := s.ring.(events := s.ring.events + [Event(s.ring.End(), kind)]),
              appended := s.appended + [E(kind)])
    case Measure =>
      s.phase.Idle? && t == s.(phase := Measured(s.ring.End()))
    case ReadRange(upTo) =>
      // `upTo` is the measured end, or an earlier offset at which the bytes read are complete
      && s.phase.Measured? && s.ring.start <= upTo <= s.phase.end
      && var seen := EventsIn(s.ring.events, s.ring.start, s.phase.end);
         t == s.(phase := Read(s.ring, upTo, CountAt(seen[..Through(seen, upTo)], upTo)))
    case Advance =>
      && s.phase.Read?
      && t == s.(ring := Consume(s.ring, s.phase.upTo, s.phase.boundary), phase := Idle,
                 delivered := s.delivered + Taken(s.phase.seen, s.phase.upTo).Stream())
  }

  ghost predicate Inv(s: System) {
    && s.ring.Ok()
    && s.appended == s.delivered + s.ring.Stream()
    && match s.phase
       case Idle => true
       case Measured(end) => s.ring.start <= end <= s.ring.End()
       case Read(seen, upTo, boundary) =>
         && seen.Ok() && Extends(seen, s.ring) && seen.start <= upTo <= seen.End()
         && boundary == CountAt(Taken(seen, upTo).events, upTo)
  }

  lemma AppendBytesKeeps(s: System, cells: seq<Cell>, t: System)
    requires Inv(s) && Step(s, AppendBytes(cells), t)
    ensures Inv(t)
  {
    var was, now := s.ring, t.ring;
    SortedWiden(was.events, was.start, was.End(), now.End());
    TokensGrow(was.cells, was.events, was.start, cells);
    Assoc3(s.delivered, was.Stream(), CellTokens(cells));
  }

  lemma {:induction false} TokensGrow(cells: seq<Cell>, events: seq<Event>, base: nat, more: seq<Cell>)
    requires Sorted(events, base, base + |cells|) && Sorted(events, base, base + |cells + more|)
    ensures Tokens(cells + more, events, base) == Tokens(cells, events, base) + CellTokens(more)
    decreases |events|
  {
    if events == [] {
      CellTokensSplit(cells + more, |cells|);
      assert (cells + more)[..|cells|] == cells && (cells + more)[|cells|..] == more;
    } else {
      hide CellTokens;
      var o := events[0].offset;
      SortedWiden(events[1..], o, base + |cells|, base + |cells|);
      var k := o - base;
      TakeDropConcat(cells, more, k);
      TokensGrow(cells[k..], events[1..], o, more);
      var front, rest := CellTokens(cells[..k]), Tokens(cells[k..], events[1..], o);
      Assoc3([E(events[0].kind)], rest, CellTokens(more));
      Assoc3(front, [E(events[0].kind)] + rest, CellTokens(more));
    }
  }

  lemma TakeDropConcat<T>(a: seq<T>, b: seq<T>, k: nat)
    requires k <= |a|
    ensures (a + b)[..k] == a[..k] && (a + b)[k..] == a[k..] + b
  {
  }

  lemma AppendEventKeeps(s: System, kind: EventKind, t: System)
    requires Inv(s) && Step(s, AppendEvent(kind), t)
    ensures Inv(t)
  {
    var was := s.ring;
    SortedAppend(was.events, was.start, was.End(), Event(was.End(), kind));
    hide Tokens, Sorted, EventsIn, CountAt, Through;
    StreamGrows(was, kind);
    Assoc3(s.delivered, was.Stream(), [E(kind)]);
  }

  lemma StreamGrows(v: View, kind: EventKind)
    requires v.Ok()
    ensures var w := v.(events := v.events + [Event(v.End(), kind)]);
            w.Ok() && w.Stream() == v.Stream() + [E(kind)]
  {
    hide Tokens;
    var e := Event(v.End(), kind);
    SortedAppend(v.events, v.start, v.End(), e);
    SortedBoth(v.events, e, v.start, v.End());
    TokensSplit(v.cells, v.events, [e], v.start, v.End());
    OnlyEvent(kind, v.End());
    assert v.cells[..|v.cells|] == v.cells && v.cells[|v.cells|..] == [];
  }

  lemma SortedBoth(events: seq<Event>, e: Event, lo: nat, hi: nat)
    requires Sorted(events, lo, hi) && e.offset == hi
    ensures Sorted([e], hi, hi)
  {
    assert [e][1..] == [];
  }

  lemma OnlyEvent(kind: EventKind, o: nat)
    ensures Sorted([Event(o, kind)], o, o) && Tokens([], [Event(o, kind)], o) == [E(kind)]
  {
    var e := Event(o, kind);
    var none: seq<Cell> := [];
    assert [e][1..] == [] && none[..0] == none && none[0..] == none;
    assert CellTokens(none) == [];
    assert Tokens(none, [], o) == [];
    assert [] + ([E(kind)] + []) == [E(kind)];
  }

  lemma ReadKeeps(s: System, upTo: nat, t: System)
    requires Inv(s) && Step(s, ReadRange(upTo), t)
    ensures Inv(t)
  {
    EventsInIsPrefix(s.ring.events, s.ring.start, s.ring.End(), s.phase.end);
    ThroughPrefix(s.ring.events, upTo, s.phase.end);
  }

  /** Trimming the events read to an earlier offset is reading only up to it. */
  lemma {:induction false} ThroughPrefix(events: seq<Event>, o: nat, e: nat)
    requires o <= e
    ensures var seen := events[..Through(events, e)];
            Through(seen, o) == Through(events, o) && seen[..Through(seen, o)] == events[..Through(events, o)]
  {
    if events != [] && events[0].offset <= e {
      var rest := events[1..];
      ThroughPrefix(rest, o, e);
      var seen := events[..Through(events, e)];
      assert seen[1..] == rest[..Through(rest, e)];
    }
  }

  lemma AdvanceKeeps(s: System, t: System)
    requires Inv(s) && Step(s, Advance, t)
    ensures Inv(t)
  {
    hide Tokens, Consume, Taken;
    var seen, c := s.phase.seen, s.phase.upTo;
    DrainRemovesExactlyWhatItRead(seen, s.ring, c);
    Assoc3(s.delivered, Taken(seen, c).Stream(), t.ring.Stream());
  }

  lemma StepKeeps(s: System, a: Action, t: System)
    requires Inv(s) && Step(s, a, t)
    ensures Inv(t)
  {
    match a
    case AppendBytes(cells) => AppendBytesKeeps(s, cells, t);
    case AppendEvent(kind) => AppendEventKeeps(s, kind, t);
    case Measure =>
    case ReadRange(upTo) => ReadKeeps(s, upTo, t);
    case Advance => AdvanceKeeps(s, t);
  }

  /** A run: its states, and the action between each two. */
  ghost predicate IsRun(states: seq<System>, actions: seq<Action>) {
    && |states| == |actions| + 1 && Initial(states[0])
    && forall i :: 0 <= i < |actions| ==> Step(states[i], actions[i], states[i + 1])
  }

  lemma {:induction false} RunKeeps(states: seq<System>, actions: seq<Action>, n: nat)
    requires IsRun(states, actions) && n < |states|
    ensures Inv(states[n])
  {
    if n == 0 {
      assert CellTokens([]) == [];
    } else {
      RunKeeps(states, actions, n - 1);
      StepKeeps(states[n - 1], actions[n - 1], states[n]);
    }
  }

  /**
    Over every interleaving, what has been handed out followed by what the ring
    still holds is what was appended: each byte and event once, in append order.
   */
  lemma ExactlyOnce(states: seq<System>, actions: seq<Action>, n: nat)
    requires IsRun(states, actions) && n < |states|
    ensures states[n].ring.Ok()
    ensures states[n].delivered + states[n].ring.Stream() == states[n].appended
  {
    RunKeeps(states, actions, n);
  }
}
