/**
  Trimming a ring from either end, as functions on chunk, line-end and event
  sequences, with the facts that keep the ring's derived counters exact.
 */
module RingScans {
  import opened Sequences
  import opened Utf8
  import opened Timeline

  // ----- trimming the front

  /** What is left of the chunks at and after offset o. */
  function DropTo(chunks: seq<Chunk>, o: nat): seq<Chunk> {
    if chunks == [] then []
    else if chunks[0].End() <= o then DropTo(chunks[1..], o)
    else if chunks[0].start < o then
      [Chunk(o, chunks[0].bytes[o - chunks[0].start..], chunks[0].key)] + chunks[1..]
    else chunks
  }

  function DropLineEnds(ends: seq<nat>, o: nat): seq<nat> {
    if ends == [] || ends[0] > o then ends else DropLineEnds(ends[1..], o)
  }

  /** Events popped from the front while they lie below o. */
  function DropEventsBelow(events: seq<Event>, o: nat): seq<Event> {
    if events == [] || events[0].offset >= o then events else DropEventsBelow(events[1..], o)
  }

  /** At most n events popped from the front while they lie exactly at o. */
  function DropEventsAt(events: seq<Event>, o: nat, n: nat): seq<Event> {
    if n == 0 || events == [] || events[0].offset != o then events else DropEventsAt(events[1..], o, n - 1)
  }

  lemma {:induction false} DropToAscends(chunks: seq<Chunk>, lo: nat, hi: nat, o: nat)
    requires Ascending(chunks, lo, hi) && lo <= o <= hi
    ensures Ascending(DropTo(chunks, o), o, hi)
    ensures SumLens(DropTo(chunks, o)) <= SumLens(chunks)
  {
    if chunks != [] {
      var c := chunks[0];
      if c.End() <= o {
        DropToAscends(chunks[1..], c.End(), hi, o);
      } else if c.start < o {
        var d := Chunk(o, c.bytes[o - c.start..], c.key);
        assert ([d] + chunks[1..])[1..] == chunks[1..];
      }
    }
  }

  lemma {:induction false} DropToTiles(chunks: seq<Chunk>, lo: nat, hi: nat, o: nat)
    requires Tiles(chunks, lo, hi) && lo <= o <= hi
    ensures Tiles(DropTo(chunks, o), o, hi)
    ensures |Flatten(chunks)| == hi - lo && Flatten(DropTo(chunks, o)) == Flatten(chunks)[o - lo..]
  {
    FlattenLength(chunks);
    TilesAscend(chunks, lo, hi);
    hide SumLens, Ascending;
    if chunks != [] {
      hide Cells;
      var c := chunks[0];
      var rest := chunks[1..];
      if c.End() <= o {
        DropToTiles(rest, c.End(), hi, o);
        DropIntoSecond(Cells(c.bytes, c.key), Flatten(rest), o - lo);
      } else if c.start < o {
        var d := Chunk(o, c.bytes[o - c.start..], c.key);
        assert ([d] + rest)[1..] == rest;
        DropCells(c.bytes, c.key, o - lo);
        DropIntoFirst(Cells(c.bytes, c.key), Flatten(rest), o - lo);
      } else {
        assert Flatten(chunks)[0..] == Flatten(chunks);
      }
    }
  }

  lemma DropIntoSecond<T>(a: seq<T>, b: seq<T>, k: nat)
    requires |a| <= k <= |a| + |b|
    ensures (a + b)[k..] == b[k - |a|..]
  {
  }

  lemma DropIntoFirst<T>(a: seq<T>, b: seq<T>, k: nat)
    requires k <= |a|
    ensures (a + b)[k..] == a[k..] + b
  {
  }

  lemma DropCells(bytes: seq<byte>, key: Key, k: nat)
    requires k <= |bytes|
    ensures Cells(bytes[k..], key) == Cells(bytes, key)[k..]
  {
  }

  /** Popping line ends up to o is exactly what dropping the bytes below o asks for. */
  lemma {:induction false} DropToLineEnds(chunks: seq<Chunk>, lo: nat, hi: nat, o: nat)
    requires Ascending(chunks, lo, hi) && lo <= o <= hi
    ensures DropLineEnds(LineEnds(chunks), o) == LineEnds(DropTo(chunks, o))
  {
    if chunks != [] {
      var c := chunks[0];
      var rest := chunks[1..];
      hide NewlinesOf, DropLineEnds;
      NewlinesWithin(c.start, c.bytes);
      LineEndsWithin(rest, c.End(), hi);
      AscendingBounds(rest, c.End(), hi);
      if c.End() <= o {
        DropAllLineEnds(NewlinesOf(c.start, c.bytes), LineEnds(rest), o);
        DropToLineEnds(rest, c.End(), hi, o);
      } else if c.start < o {
        DropToInsideChunk(c, rest, o);
      } else {
        LineEndsWithin(chunks, c.start, hi);
        KeepLineEnds(LineEnds(chunks), o);
      }
    }
  }

  lemma DropToInsideChunk(c: Chunk, rest: seq<Chunk>, o: nat)
    requires c.start < o < c.End()
    requires forall i :: 0 <= i < |LineEnds(rest)| ==> c.End() < LineEnds(rest)[i]
    ensures DropLineEnds(NewlinesOf(c.start, c.bytes) + LineEnds(rest), o)
         == LineEnds([Chunk(o, c.bytes[o - c.start..], c.key)] + rest)
  {
    var k := o - c.start;
    var d := Chunk(o, c.bytes[k..], c.key);
    var below, above := NewlinesOf(c.start, c.bytes[..k]), NewlinesOf(o, c.bytes[k..]);
    NewlinesConcat(c.start, c.bytes[..k], c.bytes[k..]);
    assert c.bytes[..k] + c.bytes[k..] == c.bytes;
    NewlinesWithin(c.start, c.bytes[..k]);
    NewlinesWithin(o, c.bytes[k..]);
    assert ([d] + rest)[1..] == rest && ([d] + rest)[0] == d;
    Assoc3(below, above, LineEnds(rest));
    DropAllLineEnds(below, above + LineEnds(rest), o);
    KeepLineEnds(above + LineEnds(rest), o);
  }

  lemma {:induction false} DropAllLineEnds(a: seq<nat>, b: seq<nat>, o: nat)
    requires forall i :: 0 <= i < |a| ==> a[i] <= o
    ensures DropLineEnds(a + b, o) == DropLineEnds(b, o)
  {
    if a == [] {
      assert a + b == b;
    } else {
      assert (a + b)[1..] == a[1..] + b;
      DropAllLineEnds(a[1..], b, o);
    }
  }

  lemma KeepLineEnds(a: seq<nat>, o: nat)
    requires forall i :: 0 <= i < |a| ==> a[i] > o
    ensures DropLineEnds(a, o) == a
  {
  }

  /** Dropping in two goes is dropping to the larger offset. */
  lemma {:induction false} DropEventsTwice(events: seq<Event>, o: nat, o': nat)
    requires o <= o'
    ensures DropEventsBelow(DropEventsBelow(events, o), o') == DropEventsBelow(events, o')
  {
    if events != [] && events[0].offset < o {
      DropEventsTwice(events[1..], o, o');
    }
  }

  lemma {:induction false} DropEventsBelowSorted(events: seq<Event>, lo: nat, hi: nat, o: nat, o': nat)
    requires Sorted(events, lo, hi) && o <= hi && o <= o'
    ensures Sorted(DropEventsBelow(events, o'), o, hi)
  {
    if events != [] && events[0].offset < o' {
      DropEventsBelowSorted(events[1..], events[0].offset, hi, o, o');
    }
  }

  lemma {:induction false} DropEventsBelowSize(events: seq<Event>, o: nat)
    ensures SumSizes(DropEventsBelow(events, o)) <= SumSizes(events)
  {
    if events != [] && events[0].offset < o {
      DropEventsBelowSize(events[1..], o);
    }
  }

  lemma {:induction false} DropEventsAtSize(events: seq<Event>, o: nat, n: nat)
    ensures SumSizes(DropEventsAt(events, o, n)) <= SumSizes(events)
  {
    if n > 0 && events != [] && events[0].offset == o {
      DropEventsAtSize(events[1..], o, n - 1);
    }
  }

  lemma {:induction false} DropEventsAtSorted(events: seq<Event>, hi: nat, o: nat, n: nat)
    requires Sorted(events, o, hi)
    ensures Sorted(DropEventsAt(events, o, n), o, hi)
  {
    if n > 0 && events != [] && events[0].offset == o {
      DropEventsAtSorted(events[1..], hi, o, n - 1);
    }
  }

  // ----- input echoes and the other events

  function NonEcho(events: seq<Event>): seq<Event> {
    if events == [] then []
    else if events[0].kind.InputEcho? then NonEcho(events[1..])
    else [events[0]] + NonEcho(events[1..])
  }

  /** The events without their k oldest input echoes. */
  function DropEchoes(events: seq<Event>, k: nat): seq<Event> {
    if events == [] || k == 0 then events
    else if events[0].kind.InputEcho? then DropEchoes(events[1..], k - 1)
    else [events[0]] + DropEchoes(events[1..], k)
  }

  predicate HasEcho(events: seq<Event>) {
    exists i :: 0 <= i < |events| && events[i].kind.InputEcho?
  }

  lemma {:induction false} NonEchoConcat(a: seq<Event>, b: seq<Event>)
    ensures NonEcho(a + b) == NonEcho(a) + NonEcho(b)
  {
    if a == [] {
      assert a + b == b;
    } else {
      NonEchoConcat(a[1..], b);
      assert (a + b)[1..] == a[1..] + b;
      if !a[0].kind.InputEcho? {
        Assoc3([a[0]], NonEcho(a[1..]), NonEcho(b));
      }
    }
  }

  lemma {:induction false} DropEchoesKeepsOthers(events: seq<Event>, k: nat)
    ensures NonEcho(DropEchoes(events, k)) == NonEcho(events)
    ensures SumSizes(DropEchoes(events, k)) <= SumSizes(events)
    ensures !HasEcho(events) ==> DropEchoes(events, k) == events == NonEcho(events)
  {
    if events != [] && k > 0 {
      var rest := events[1..];
      assert !HasEcho(events) ==> !HasEcho(rest);
      if events[0].kind.InputEcho? {
        DropEchoesKeepsOthers(rest, k - 1);
      } else {
        DropEchoesKeepsOthers(rest, k);
        assert ([events[0]] + DropEchoes(rest, k))[1..] == DropEchoes(rest, k);
      }
    } else if events != [] {
      NonEchoOfNone(events);
    }
  }

  lemma {:induction false} NonEchoOfNone(events: seq<Event>)
    ensures !HasEcho(events) ==> NonEcho(events) == events
    ensures !HasEcho(NonEcho(events))
  {
    if events != [] {
      assert !HasEcho(events) ==> !HasEcho(events[1..]);
      NonEchoOfNone(events[1..]);
    }
  }

  lemma {:induction false} DropEchoesSorted(events: seq<Event>, lo: nat, hi: nat, k: nat)
    requires Sorted(events, lo, hi)
    ensures Sorted(DropEchoes(events, k), lo, hi)
  {
    if events != [] && k > 0 {
      SortedWiden(events, lo, hi, hi);
      if events[0].kind.InputEcho? {
        DropEchoesSorted(events[1..], events[0].offset, hi, k - 1);
        SortedLower(DropEchoes(events[1..], k - 1), lo, events[0].offset, hi);
      } else {
        DropEchoesSorted(events[1..], events[0].offset, hi, k);
        assert ([events[0]] + DropEchoes(events[1..], k))[1..] == DropEchoes(events[1..], k);
      }
    }
  }

  lemma SortedLower(events: seq<Event>, lo: nat, lo': nat, hi: nat)
    requires Sorted(events, lo', hi) && lo <= lo'
    ensures Sorted(events, lo, hi)
  {
  }

  /** Removing the oldest remaining echo is dropping one more. */
  lemma {:induction false} DropOneMoreEcho(events: seq<Event>, k: nat, i: nat)
    requires var left := DropEchoes(events, k);
             i < |left| && left[i].kind.InputEcho? && forall j :: 0 <= j < i ==> !left[j].kind.InputEcho?
    ensures var left := DropEchoes(events, k);
            left[..i] + left[i + 1..] == DropEchoes(events, k + 1)
    decreases |events|
  {
    var left := DropEchoes(events, k);
    var rest := events[1..];
    if k == 0 {
      DropFirstEcho(events, i);
    } else if events[0].kind.InputEcho? {
      DropOneMoreEcho(rest, k - 1, i);
    } else {
      hide DropEchoes;
      var l := DropEchoes(rest, k);
      ConsRemove(events[0], l, i);
      DropOneMoreEcho(rest, k, i - 1);
    }
  }

  lemma ConsRemove<T>(x: T, l: seq<T>, i: nat)
    requires 0 < i <= |l|
    ensures ([x] + l)[..i] + ([x] + l)[i + 1..] == [x] + (l[..i - 1] + l[i..])
    ensures forall j :: 0 <= j < |l| ==> l[j] == ([x] + l)[j + 1]
  {
  }

  lemma {:induction false} DropFirstEcho(events: seq<Event>, i: nat)
    requires i < |events| && events[i].kind.InputEcho? && forall j :: 0 <= j < i ==> !events[j].kind.InputEcho?
    ensures events[..i] + events[i + 1..] == DropEchoes(events, 1)
    decreases i
  {
    if i == 0 {
      assert events[..0] + events[1..] == events[1..];
    } else {
      var rest := events[1..];
      DropFirstEcho(rest, i - 1);
      assert events[..i] + events[i + 1..] == [events[0]] + (rest[..i - 1] + rest[i..]);
    }
  }

  lemma {:induction false} SumSizesRemove(events: seq<Event>, i: nat)
    requires i < |events|
    ensures SumSizes(events) == EventSize(events[i].kind) + SumSizes(events[..i] + events[i + 1..])
  {
    hide EventSize;
    var a, b := events[..i], events[i + 1..];
    assert events == a + ([events[i]] + b);
    SumSizesConcat(a, [events[i]] + b);
    SumSizesConcat([events[i]], b);
    SumSizesConcat(a, b);
    assert [events[i]][1..] == [];
  }

  // ----- omission notices

  predicate IsOmission(e: Event) {
    e.kind.TextEvent? && e.kind.origin == Server && e.kind.text == OmissionNotice().text
  }

  /** `has_omission_notice`. */
  predicate HasOmission(events: seq<Event>) {
    exists i :: 0 <= i < |events| && IsOmission(events[i])
  }

  function CountOmissions(events: seq<Event>): nat {
    if events == [] then 0 else (if IsOmission(events[0]) then 1 else 0) + CountOmissions(events[1..])
  }

  lemma {:induction false} CountOmissionsConcat(a: seq<Event>, b: seq<Event>)
    ensures CountOmissions(a + b) == CountOmissions(a) + CountOmissions(b)
  {
    hide IsOmission;
    if a == [] {
      assert a + b == b;
    } else {
      CountOmissionsConcat(a[1..], b);
      assert (a + b)[1..] == a[1..] + b;
    }
  }

  lemma {:induction false} HasOmissionIffCounted(events: seq<Event>)
    ensures HasOmission(events) <==> CountOmissions(events) > 0
  {
    hide IsOmission;
    if events != [] {
      HasOmissionIffCounted(events[1..]);
      if HasOmission(events[1..]) {
        var i :| 0 <= i < |events[1..]| && IsOmission(events[1..][i]);
        assert IsOmission(events[i + 1]);
      }
    }
  }

  lemma {:induction false} DropEchoesKeepsOmissions(events: seq<Event>, k: nat)
    ensures CountOmissions(DropEchoes(events, k)) == CountOmissions(events)
  {
    if events != [] && k > 0 {
      if events[0].kind.InputEcho? {
        DropEchoesKeepsOmissions(events[1..], k - 1);
      } else {
        DropEchoesKeepsOmissions(events[1..], k);
        assert ([events[0]] + DropEchoes(events[1..], k))[1..] == DropEchoes(events[1..], k);
      }
    }
  }

  // ----- trimming the back

  /** The chunks `front + [last]` without their last d bytes, all taken from `last`. */
  function TrimBack(front: seq<Chunk>, last: Chunk, d: nat): seq<Chunk>
    requires d <= |last.bytes|
  {
    if d == |last.bytes| then front
    else front + [last.(bytes := last.bytes[..|last.bytes| - d])]
  }

  function DropLineEndsAbove(ends: seq<nat>, r: nat): seq<nat> {
    if ends == [] || ends[|ends| - 1] <= r then ends else DropLineEndsAbove(ends[..|ends| - 1], r)
  }

  lemma {:induction false} DropAllAbove(a: seq<nat>, b: seq<nat>, r: nat)
    requires forall i :: 0 <= i < |b| ==> b[i] > r
    requires forall i :: 0 <= i < |a| ==> a[i] <= r
    ensures DropLineEndsAbove(a + b, r) == a
    decreases |b|
  {
    if b == [] {
      assert a + b == a;
    } else {
      assert (a + b)[..|a + b| - 1] == a + b[..|b| - 1];
      DropAllAbove(a, b[..|b| - 1], r);
    }
  }

  lemma TrimBackKeeps(front: seq<Chunk>, last: Chunk, lo: nat, hi: nat, d: nat)
    requires Ascending(front + [last], lo, hi) && 0 < d <= |last.bytes|
    ensures Ascending(TrimBack(front, last, d), lo, hi)
    ensures SumLens(TrimBack(front, last, d)) == SumLens(front + [last]) - d
    ensures Flatten(TrimBack(front, last, d)) <= Flatten(front + [last])
  {
    FlattenConcat(front, [last]);
    AscendingConcat(front, [last], lo, hi);
    assert [last][1..] == [];
    if d == |last.bytes| {
      AscendingBounds([last], LastEnd(front, lo), hi);
      AscendingWiden(front, lo, LastEnd(front, lo), hi);
    } else {
      var l := last.(bytes := last.bytes[..|last.bytes| - d]);
      assert [l][1..] == [];
      FlattenConcat(front, [l]);
      AscendingConcat(front, [l], lo, hi);
      assert Cells(l.bytes, l.key) <= Cells(last.bytes, last.key);
      assert Flatten([l]) == Cells(l.bytes, l.key) && Flatten([last]) == Cells(last.bytes, last.key);
    }
  }

  lemma {:induction false} AscendingWiden(chunks: seq<Chunk>, lo: nat, hi: nat, hi': nat)
    requires Ascending(chunks, lo, hi) && hi <= hi'
    ensures Ascending(chunks, lo, hi')
  {
    if chunks != [] {
      AscendingWiden(chunks[1..], chunks[0].End(), hi, hi');
    }
  }

  /** Popping line ends past the retained end is exactly what the trimmed bytes ask for. */
  lemma TrimBackLineEnds(front: seq<Chunk>, last: Chunk, lo: nat, hi: nat, d: nat)
    requires Ascending(front + [last], lo, hi) && 0 < d <= |last.bytes|
    ensures DropLineEndsAbove(LineEnds(front + [last]), LastEnd(TrimBack(front, last, d), lo))
         == LineEnds(TrimBack(front, last, d))
  {
    hide NewlinesOf, DropLineEndsAbove, Flatten, SumLens, LineEnds;
    LineEndsSnoc(front, last);
    AscendingConcat(front, [last], lo, hi);
    var keep := |last.bytes| - d;
    var kept := last.bytes[..keep];
    var below, above := NewlinesOf(last.start, kept), NewlinesOf(last.start + keep, last.bytes[keep..]);
    NewlinesConcat(last.start, kept, last.bytes[keep..]);
    TakeThenDrop(last.bytes, keep);
    NewlinesWithin(last.start, kept);
    NewlinesWithin(last.start + keep, last.bytes[keep..]);
    LineEndsWithin(front, lo, LastEnd(front, lo));
    Assoc3(LineEnds(front), below, above);
    TrimBackEndsAt(front, last, d);
    DropAllAbove(LineEnds(front) + below, above, LastEnd(TrimBack(front, last, d), lo));
  }

  lemma TrimBackEndsAt(front: seq<Chunk>, last: Chunk, d: nat)
    requires 0 < d <= |last.bytes|
    ensures LineEnds(TrimBack(front, last, d)) == LineEnds(front)
            + NewlinesOf(last.start, last.bytes[..|last.bytes| - d])
  {
    if d == |last.bytes| {
      assert LineEnds(front) + [] == LineEnds(front);
    } else {
      LineEndsSnoc(front, last.(bytes := last.bytes[..|last.bytes| - d]));
    }
  }

  lemma LineEndsSnoc(front: seq<Chunk>, last: Chunk)
    ensures LineEnds(front + [last]) == LineEnds(front) + NewlinesOf(last.start, last.bytes)
  {
    hide NewlinesOf;
    FlattenConcat(front, [last]);
    assert [last][1..] == [];
    assert NewlinesOf(last.start, last.bytes) + [] == NewlinesOf(last.start, last.bytes);
  }

  // ----- further facts for the eviction loops

  lemma {:induction false} DropEventsBelowSuffix(events: seq<Event>, o: nat)
    ensures |DropEventsBelow(events, o)| <= |events|
    ensures DropEventsBelow(events, o) == events[|events| - |DropEventsBelow(events, o)|..]
  {
    if events != [] && events[0].offset < o {
      DropEventsBelowSuffix(events[1..], o);
    }
  }

  lemma DropFirstChunk(chunks: seq<Chunk>, lo: nat, hi: nat)
    requires chunks != [] && Ascending(chunks, lo, hi)
    ensures DropTo(chunks, chunks[0].End()) == chunks[1..]
  {
    var rest := chunks[1..];
    if rest != [] {
      assert rest[0].End() > chunks[0].End();
    }
  }

  /** Which chunk the front loop meets does not matter: the end result is DropTo. */
  lemma DropToOneStep(chunks: seq<Chunk>, lo: nat, hi: nat, o: nat)
    requires chunks != [] && Ascending(chunks, lo, hi) && lo < o <= hi
    requires chunks[0].End() > o && chunks[0].start < o
    ensures var d := Chunk(o, chunks[0].bytes[o - chunks[0].start..], chunks[0].key);
            DropTo(chunks, o) == [d] + chunks[1..] && DropTo([d] + chunks[1..], o) == [d] + chunks[1..]
  {
    var d := Chunk(o, chunks[0].bytes[o - chunks[0].start..], chunks[0].key);
    assert ([d] + chunks[1..])[0] == d;
  }

  lemma DropToNothing(chunks: seq<Chunk>, lo: nat, hi: nat)
    requires Ascending(chunks, lo, hi)
    ensures DropTo(chunks, lo) == chunks
  {
  }

  predicate IsSuffix<T(==)>(a: seq<T>, b: seq<T>) {
    |a| <= |b| && a == b[|b| - |a|..]
  }

  lemma SuffixTrans<T>(a: seq<T>, b: seq<T>, c: seq<T>)
    requires IsSuffix(a, b) && IsSuffix(b, c)
    ensures IsSuffix(a, c)
  {
  }

  lemma NonEchoOfSuffix(a: seq<Event>, b: seq<Event>)
    requires IsSuffix(a, NonEcho(b))
    ensures NonEcho(a) == a && !HasEcho(a)
  {
    NonEchoHasNone(b);
    forall i | 0 <= i < |a|
      ensures !a[i].kind.InputEcho?
    {
      assert a[i] == NonEcho(b)[|NonEcho(b)| - |a| + i];
    }
    NonEchoOfNone(a);
  }

  lemma {:induction false} NonEchoHasNone(events: seq<Event>)
    ensures !HasEcho(NonEcho(events))
  {
    if events != [] {
      NonEchoHasNone(events[1..]);
    }
  }

  lemma {:induction false} DropAllEchoes(events: seq<Event>)
    ensures NonEcho(events) == [] ==> DropEchoes(events, |events|) == []
  {
    if events != [] && events[0].kind.InputEcho? {
      DropAllEchoes(events[1..]);
    }
  }

  lemma DropNoEchoes(events: seq<Event>)
    ensures DropEchoes(events, 0) == events
  {
  }

  lemma {:induction false} DropEchoesAgain(events: seq<Event>, k: nat, m: nat)
    ensures DropEchoes(DropEchoes(events, k), m) == DropEchoes(events, k + m)
  {
    if events != [] && k > 0 {
      if events[0].kind.InputEcho? {
        DropEchoesAgain(events[1..], k - 1, m);
      } else {
        DropEchoesAgain(events[1..], k, m);
        assert ([events[0]] + DropEchoes(events[1..], k))[1..] == DropEchoes(events[1..], k);
      }
    }
  }

  lemma AppendKeepsCounts(chunks: seq<Chunk>, c: Chunk, lo: nat, hi: nat)
    requires Ascending(chunks, lo, hi) && hi == c.start && c.bytes != []
    ensures Ascending(chunks + [c], lo, c.End())
    ensures SumLens(chunks + [c]) == SumLens(chunks) + |c.bytes|
    ensures Flatten(chunks + [c]) == Flatten(chunks) + Cells(c.bytes, c.key)
  {
    hide Cells;
    assert [c][1..] == [];
    FlattenConcat(chunks, [c]);
    assert Cells(c.bytes, c.key) + [] == Cells(c.bytes, c.key);
    AscendingBounds(chunks, lo, hi);
    AscendingConcat(chunks, [c], lo, c.End());
  }

  lemma ExtendLog(log: seq<Cell>, bytes: seq<byte>, key: Key, done: nat, n: nat)
    requires done + n <= |bytes|
    ensures log + Cells(bytes[..done], key) + Cells(bytes[done..done + n], key) == log + Cells(bytes[..done + n], key)
  {
    assert bytes[..done] + bytes[done..done + n] == bytes[..done + n];
    CellsConcat(bytes[..done], bytes[done..done + n], key);
  }

  lemma {:induction false} LastChunkNonEmpty(chunks: seq<Chunk>, lo: nat, hi: nat)
    requires Ascending(chunks, lo, hi)
    ensures chunks == [] ==> SumLens(chunks) == 0
    ensures chunks != [] ==> chunks[|chunks| - 1].bytes != []
  {
    if |chunks| > 1 {
      LastChunkNonEmpty(chunks[1..], chunks[0].End(), hi);
    }
  }

  lemma CountOfPrefix(a: seq<Event>, b: seq<Event>)
    requires a <= b
    ensures CountOmissions(a) <= CountOmissions(b)
  {
    CountOmissionsConcat(a, b[|a|..]);
    assert b == a + b[|a|..];
  }

  lemma PrefixIs<T>(a: seq<T>, b: seq<T>)
    requires a <= b
    ensures b[..|a|] == a
  {
  }

  lemma WholeSlice<T>(a: seq<T>)
    ensures a[..|a|] == a
  {
  }

  lemma NoCells(bytes: seq<byte>, key: Key)
    ensures forall s: seq<Cell> :: s + Cells(bytes[..0], key) == s
  {
    assert Cells(bytes[..0], key) == [];
  }

  lemma FrontOfTiles(chunks: seq<Chunk>, lo: nat, hi: nat)
    requires chunks != [] && Tiles(chunks, lo, hi)
    ensures chunks[0].start == lo < chunks[0].End() <= hi
    ensures DropTo(chunks, chunks[0].End()) == chunks[1..]
  {
    TilesAscend(chunks, lo, hi);
    TilesAscend(chunks[1..], chunks[0].End(), hi);
    DropFirstChunk(chunks, lo, hi);
  }

  lemma JoinPrefixes(flat: seq<Cell>, bytes: seq<byte>, key: Key, a: nat, done: nat, n: nat, kept: nat, cut: nat)
    requires a <= |flat| && done + n <= |bytes| && kept <= n && cut <= |flat[..a] + Cells(bytes[..done], key)|
    ensures var before := flat[..a] + Cells(bytes[..done], key);
            cut == |before| ==>
              before[..cut] + Cells(bytes[done..done + n][..kept], key) == flat[..a] + Cells(bytes[..done + kept], key)
    ensures done == 0 && a == |flat| ==>
              (flat[..a] + Cells(bytes[..done], key))[..cut] + Cells(bytes[done..done + n][..kept], key)
              == flat[..cut] + Cells(bytes[..done + kept], key)
  {
    var before := flat[..a] + Cells(bytes[..done], key);
    assert bytes[done..done + n][..kept] == bytes[done..done + kept];
    if cut == |before| {
      ExtendLog(flat[..a], bytes, key, done, kept);
      assert before[..cut] == before;
    }
    if done == 0 && a == |flat| {
      assert Cells(bytes[..done], key) == [] && before == flat;
    }
  }

  lemma KeepsOmission(events: seq<Event>, e: Event)
    ensures HasOmission(events) ==> HasOmission(events + [e])
  {
    if HasOmission(events) {
      var i :| 0 <= i < |events| && IsOmission(events[i]);
      assert (events + [e])[i] == events[i];
    }
  }
}
