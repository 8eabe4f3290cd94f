/**
  What making room keeps.  Under the Tail policy input echoes give way first, then
  whole chunks with the events up to their ends, then events, and never more of
  them than the room asked for takes.  Under the Head policy the newest goes first.
 */
module Eviction {
  import opened Utf8
  import opened Timeline
  import opened RingScans

  /** The chunks and events of a ring. */
  datatype Kept = Kept(chunks: seq<Chunk>, events: seq<Event>) {
    function Weight(): nat {
      SumLens(chunks) + SumSizes(events)
    }
  }

  lemma {:induction false} DropEchoShortens(events: seq<Event>)
    requires HasEcho(events)
    ensures |DropEchoes(events, 1)| < |events|
  {
    if !events[0].kind.InputEcho? {
      var i :| 0 <= i < |events| && events[i].kind.InputEcho?;
      assert events[1..][i - 1].kind.InputEcho?;
      DropEchoShortens(events[1..]);
    }
  }

  /** Oldest echoes give way until the events fit, or no echo is left. */
  function SpareEchoes(events: seq<Event>, room: int): seq<Event>
    decreases |events|
  {
    if SumSizes(events) <= room || !HasEcho(events) then events
    else
      DropEchoShortens(events);
      SpareEchoes(DropEchoes(events, 1), room)
  }

  function WithoutFirst(k: Kept): Kept
    requires k.chunks != []
  {
    Kept(k.chunks[1..], DropEventsBelow(k.events, k.chunks[0].End() + 1))
  }

  function Evict(k: Kept, room: int): Kept
    decreases |k.chunks|, |k.events|
  {
    if k.Weight() <= room then k
    else if k.chunks != [] then Evict(WithoutFirst(k), room)
    else if k.events != [] then Evict(Kept([], k.events[1..]), room)
    else k
  }

  function MakeRoom(k: Kept, needed: nat, capacity: nat): Kept {
    if needed >= capacity then Kept([], [])
    else
      Evict(Kept(k.chunks, SpareEchoes(k.events, capacity - needed - SumLens(k.chunks))), capacity - needed)
  }

  /** What is kept when bytes are appended in sections of at most `len`, before any notice. */
  function AppendInSections(k: Kept, end: nat, bytes: seq<byte>, key: Key, len: nat, capacity: nat): Kept
    requires len > 0
    decreases |bytes|
  {
    if bytes == [] then k
    else
      var n := if |bytes| < len then |bytes| else len;
      AppendInSections(AppendSection(k, end, bytes[..n], key, capacity), end + n, bytes[n..], key, len, capacity)
  }

  function AppendSection(k: Kept, end: nat, bytes: seq<byte>, key: Key, capacity: nat): Kept {
    var left := MakeRoom(k, |bytes|, capacity);
    Kept(left.chunks + [Chunk(end, bytes, key)], left.events)
  }

  lemma SectionOf(k: Kept, end: nat, bytes: seq<byte>, done: nat, key: Key, len: nat, capacity: nat)
    requires done < |bytes| && len > 0
    ensures var n := if |bytes| - done < len then |bytes| - done else len;
            AppendInSections(k, end, bytes[done..], key, len, capacity)
            == AppendInSections(AppendSection(k, end, bytes[done..done + n], key, capacity), end + n, bytes[done + n..],
                                key, len, capacity)
  {
    var n := if |bytes| - done < len then |bytes| - done else len;
    assert bytes[done..][..n] == bytes[done..done + n] && bytes[done..][n..] == bytes[done + n..];
  }

  lemma NoMoreSections(k: Kept, end: nat, bytes: seq<byte>, key: Key, len: nat, capacity: nat)
    requires len > 0
    ensures AppendInSections(k, end, bytes[|bytes|..], key, len, capacity) == k
  {
  }

  // ----- no more than it must

  /** No echo gives way while the events would fit without it. */
  lemma {:induction false} EchoesGoOnlyForRoom(events: seq<Event>, room: int) returns (k: nat)
    ensures SpareEchoes(events, room) == DropEchoes(events, k)
    ensures forall j: nat :: j < k ==> SumSizes(DropEchoes(events, j)) > room
    decreases |events|
  {
    hide SumSizes;
    DropNoEchoes(events);
    if SumSizes(events) <= room || !HasEcho(events) {
      k := 0;
    } else {
      DropEchoShortens(events);
      var rest := EchoesGoOnlyForRoom(DropEchoes(events, 1), room);
      k := rest + 1;
      DropEchoesAgain(events, 1, rest);
      forall j: nat | j < k
        ensures SumSizes(DropEchoes(events, j)) > room
      {
        if j > 0 {
          DropEchoesAgain(events, 1, j - 1);
        }
      }
    }
  }

  /** What a reader who starts at the i-th chunk gets. */
  function From(k: Kept, i: nat): Kept
    requires i < |k.chunks|
  {
    Kept(k.chunks[i..], if i == 0 then k.events else DropEventsBelow(k.events, k.chunks[i].start + 1))
  }

  lemma FromNext(k: Kept, lo: nat, hi: nat, i: nat)
    requires Tiles(k.chunks, lo, hi) && 0 < i < |k.chunks|
    ensures From(k, i) == From(WithoutFirst(k), i - 1)
    ensures Tiles(k.chunks[1..], k.chunks[0].End(), hi)
  {
    hide SumLens, SumSizes, Tiles, DropEventsBelow;
    StartOfTile(k.chunks, lo, hi, i);
    RestOfTiles(k.chunks, lo, hi);
    assert k.chunks[1..][i - 1..] == k.chunks[i..] && k.chunks[1..][i - 1] == k.chunks[i];
    DropEventsTwice(k.events, k.chunks[0].End() + 1, k.chunks[i].start + 1);
  }

  lemma RestOfTiles(chunks: seq<Chunk>, lo: nat, hi: nat)
    requires Tiles(chunks, lo, hi) && chunks != []
    ensures Tiles(chunks[1..], chunks[0].End(), hi)
  {
  }

  lemma {:induction false} StartOfTile(chunks: seq<Chunk>, lo: nat, hi: nat, i: nat)
    requires Tiles(chunks, lo, hi) && 0 < i < |chunks|
    ensures chunks[i].start >= chunks[0].End() && (i == 1 ==> chunks[i].start == chunks[0].End())
  {
    if i > 1 {
      StartOfTile(chunks[1..], chunks[0].End(), hi, i - 1);
    }
  }

  /** What is kept starts at a chunk, and every longer rest was too heavy. */
  lemma {:induction false} ChunksGoOnlyForRoom(k: Kept, lo: nat, hi: nat, room: int, i: nat)
    requires Tiles(k.chunks, lo, hi) && i < |k.chunks|
    ensures var n := |Evict(k, room).chunks|;
            && (i + n < |k.chunks| ==> From(k, i).Weight() > room)
            && (i + n == |k.chunks| ==> Evict(k, room) == From(k, i))
    decreases |k.chunks|
  {
    hide SumLens, SumSizes, Tiles, DropEventsBelow;
    assert k.chunks[0..] == k.chunks && From(k, 0) == k;
    if k.Weight() > room {
      EvictShortens(WithoutFirst(k), room);
      if i > 0 {
        FromNext(k, lo, hi, i);
        ChunksGoOnlyForRoom(WithoutFirst(k), k.chunks[0].End(), hi, room, i - 1);
      }
    }
  }

  lemma {:induction false} EvictShortens(k: Kept, room: int)
    ensures |Evict(k, room).chunks| <= |k.chunks|
    decreases |k.chunks|, |k.events|
  {
    if k.Weight() > room {
      if k.chunks != [] {
        EvictShortens(WithoutFirst(k), room);
      } else if k.events != [] {
        EvictShortens(Kept([], k.events[1..]), room);
      }
    }
  }

  /** Without chunks, the events that are left are the longest end of them that fits. */
  lemma {:induction false} EventsGoOnlyForRoom(events: seq<Event>, room: int, i: nat)
    requires i <= |events|
    ensures var left := Evict(Kept([], events), room);
            && left.chunks == []
            && (i + |left.events| < |events| ==> SumSizes(events[i..]) > room)
            && (i + |left.events| == |events| ==> left.events == events[i..])
    decreases |events|
  {
    hide SumSizes;
    assert events[0..] == events;
    assert SumLens([]) == 0;
    if SumSizes(events) > room && events != [] {
      EventsShorten(events[1..], room);
      if i > 0 {
        EventsGoOnlyForRoom(events[1..], room, i - 1);
        assert events[1..][i - 1..] == events[i..];
      } else {
        EventsGoOnlyForRoom(events[1..], room, 0);
      }
    }
  }

  lemma {:induction false} EventsShorten(events: seq<Event>, room: int)
    ensures |Evict(Kept([], events), room).events| <= |events|
    decreases |events|
  {
    if Kept([], events).Weight() > room && events != [] {
      EventsShorten(events[1..], room);
    }
  }

  /**
    Making room keeps all it can: whatever rest of the ring, from a chunk on and
    without the echoes that give way first, fits next to what is needed is kept whole.
   */
  lemma WhatFitsIsKept(k: Kept, lo: nat, hi: nat, needed: nat, capacity: nat, i: nat)
    requires Tiles(k.chunks, lo, hi) && i < |k.chunks| && needed < capacity
    ensures var spared := Kept(k.chunks, SpareEchoes(k.events, capacity - needed - SumLens(k.chunks)));
            From(spared, i).Weight() + needed <= capacity ==>
              |MakeRoom(k, needed, capacity).chunks| >= |k.chunks| - i
  {
    var spared := Kept(k.chunks, SpareEchoes(k.events, capacity - needed - SumLens(k.chunks)));
    ChunksGoOnlyForRoom(spared, lo, hi, capacity - needed, i);
  }

  // ----- the Head policy

  function DropEventsAbove(events: seq<Event>, r: nat): seq<Event> {
    if events == [] || events[|events| - 1].offset <= r then events
    else DropEventsAbove(events[..|events| - 1], r)
  }

  function EndOf(chunks: seq<Chunk>, start: nat): nat {
    var end := LastEnd(chunks, start);
    if end < start then start else end
  }

  /** The last chunk without its last d bytes, and without the events past the new end. */
  function ShortenedBy(k: Kept, start: nat, d: nat): Kept
    requires k.chunks != [] && d <= |k.chunks[|k.chunks| - 1].bytes|
  {
    var n := |k.chunks| - 1;
    var chunks := TrimBack(k.chunks[..n], k.chunks[n], d);
    Kept(chunks, DropEventsAbove(k.events, EndOf(chunks, start)))
  }

  lemma TrimBackIsShorter(front: seq<Chunk>, last: Chunk, d: nat)
    requires d <= |last.bytes|
    ensures SumLens(TrimBack(front, last, d)) == SumLens(front + [last]) - d
  {
    FlattenConcat(front, [last]);
    assert [last][1..] == [];
    if d < |last.bytes| {
      var l := last.(bytes := last.bytes[..|last.bytes| - d]);
      assert [l][1..] == [];
      FlattenConcat(front, [l]);
    }
  }

  /** Events behind all bytes go first, then as many bytes of the last chunk as are too many. */
  function TrimTail(k: Kept, start: nat, room: nat): Kept
    decreases SumLens(k.chunks), |k.events|
  {
    if k.Weight() <= room then k
    else if k.events != [] && k.events[|k.events| - 1].offset >= LastEnd(k.chunks, 0) then
      TrimTail(Kept(k.chunks, k.events[..|k.events| - 1]), start, room)
    else if k.chunks == [] || k.chunks[|k.chunks| - 1].bytes == [] then k
    else
      var n := |k.chunks| - 1;
      var excess := k.Weight() - room;
      var d := if excess < |k.chunks[n].bytes| then excess else |k.chunks[n].bytes|;
      assert k.chunks == k.chunks[..n] + [k.chunks[n]];
      TrimBackIsShorter(k.chunks[..n], k.chunks[n], d);
      TrimTail(ShortenedBy(k, start, d), start, room)
  }

  lemma TrimTailDone(k: Kept, start: nat, room: nat)
    requires k.Weight() <= room
    ensures TrimTail(k, start, room) == k
  {
  }

  /** Bytes alone are trimmed to exactly the room. */
  lemma {:induction false} BytesTrimExactly(k: Kept, lo: nat, hi: nat, start: nat, room: nat)
    requires k.events == [] && Ascending(k.chunks, lo, hi)
    ensures var left := TrimTail(k, start, room);
            && left.events == [] && Flatten(left.chunks) <= Flatten(k.chunks)
            && SumLens(left.chunks) == if SumLens(k.chunks) <= room then SumLens(k.chunks) else room
    decreases SumLens(k.chunks)
  {
    hide Flatten, Ascending, SumLens;
    assert SumSizes([]) == 0;
    if k.Weight() > room {
      NoBytes();
      var n := |k.chunks| - 1;
      var front, last := k.chunks[..n], k.chunks[n];
      assert k.chunks == front + [last];
      LastHasBytes(front, last, lo, hi);
      var excess := k.Weight() - room;
      var d := if excess < |last.bytes| then excess else |last.bytes|;
      TrimBackKeeps(front, last, lo, hi, d);
      BytesTrimExactly(ShortenedBy(k, start, d), lo, hi, start, room);
    }
  }

  lemma NoBytes()
    ensures SumLens([]) == 0
  {
  }

  lemma LastHasBytes(front: seq<Chunk>, last: Chunk, lo: nat, hi: nat)
    requires Ascending(front + [last], lo, hi)
    ensures last.bytes != []
  {
    AscendingConcat(front, [last], lo, hi);
  }
}
