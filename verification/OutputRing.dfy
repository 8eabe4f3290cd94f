/**
  `OutputRing`: a bounded buffer of labelled bytes and positioned events with
  two retention policies.  The Tail policy evicts the oldest output, the Head
  policy refuses the newest.  Each method is one locked section, or the sequence
  of them that one caller performs.
 */
module OutputRing {
  import opened Sequences
  import opened Utf8
  import opened Wrappers
  import opened Timeline
  import opened RingScans
  import opened RangeReading
  import opened Eviction
  import opened HeadRetention

  datatype Retention = Tail | Head

  datatype DropStats = DropStats(droppedBytes: nat, droppedVisibleEvents: nat) {
    predicate DroppedVisible() {
      droppedBytes > 0 || droppedVisibleEvents > 0
    }
  }

  /** What a call did to a ring: the events left behind any loss, or how much was kept and taken. */
  datatype Report = TailReport(left: seq<Event>, echoes: nat) | HeadReport(kept: nat, taken: nat)

  function Min(a: nat, b: nat): nat {
    if a < b then a else b
  }

  function Max(a: nat, b: nat): nat {
    if a < b then b else a
  }

  function SaturatingSub(a: nat, b: nat): nat {
    if a < b then 0 else a - b
  }

  const APPEND_CHUNK_MAX: nat := 8 * 1024

  /** `output_ring_append_chunk_len`. */
  function AppendChunkLen(capacity: nat): (n: nat)
    ensures 1 <= n <= Max(capacity, 1)
  {
    var share := Max(capacity, 1) / 16;
    if share < 1 then 1 else Min(share, APPEND_CHUNK_MAX)
  }

  /**
    What eviction leaves of `first` at `base`.  A visible loss takes from the front
    and spares no echo; otherwise only the oldest echoes are gone.
   */
  ghost predicate LeftOf(first: seq<Event>, base: nat, now: seq<Event>, start: nat, lost: bool, echoes: nat) {
    && lost == (start > base || |NonEcho(now)| < |NonEcho(first)|)
    && (if lost then start >= base && IsSuffix(now, NonEcho(first))
        else start == base && now == DropEchoes(first, echoes))
  }

  /** Eviction upon eviction. */
  lemma LeftOfLeft(first: seq<Event>, base: nat, evs: seq<Event>, from: nat, lost: bool, echoes: nat,
                   now: seq<Event>, start: nat, visible: bool, more: nat)
    requires LeftOf(first, base, evs, from, lost, echoes) && LeftOf(evs, from, now, start, visible, more)
    ensures LeftOf(first, base, now, start, lost || visible, echoes + more)
  {
    hide NonEcho, DropEchoes;
    DropEchoesKeepsOthers(first, echoes);
    DropEchoesKeepsOthers(evs, more);
    DropEchoesAgain(first, echoes, more);
    if lost {
      NonEchoOfSuffix(evs, first);
    }
    if visible {
      NonEchoOfSuffix(now, evs);
      SuffixTrans(now, NonEcho(evs), NonEcho(first));
    }
  }

  lemma EvictedLeaves(first: seq<Event>, base: nat, now: seq<Event>, start: nat, visible: bool, echoes: nat)
    requires if visible
             then start >= base && IsSuffix(now, NonEcho(first)) && (start > base || |now| < |NonEcho(first)|)
             else start == base && now == DropEchoes(first, echoes)
    ensures LeftOf(first, base, now, start, visible, echoes)
  {
    if visible {
      NonEchoOfSuffix(now, first);
    } else {
      DropEchoesKeepsOthers(first, echoes);
    }
  }

  lemma PrefixOfPrefix<T>(s: seq<T>, a: nat, b: nat)
    requires b <= a <= |s|
    ensures s[..a][..b] == s[..b]
  {
  }

  lemma CountOneMore(events: seq<Event>, event: Event)
    ensures CountOmissions(events + [event]) == CountOmissions(events) + (if IsOmission(event) then 1 else 0)
  {
    hide IsOmission;
    CountOmissionsConcat(events, [event]);
    assert [event][1..] == [];
  }

  /** When everything goes, only what is not there goes unseen. */
  lemma AllGone(chunks: seq<Chunk>, events: seq<Event>, lo: nat, hi: nat)
    requires Tiles(chunks, lo, hi)
    ensures lo <= hi && (lo == hi ==> chunks == [])
    ensures NonEcho(events) == [] ==> DropEchoes(events, |events|) == []
  {
    if chunks != [] {
      FrontOfTiles(chunks, lo, hi);
    }
    DropAllEchoes(events);
  }

  lemma LeftMeansLost(first: seq<Event>, base: nat, now: seq<Event>, start: nat, lost: bool, echoes: nat)
    requires LeftOf(first, base, now, start, lost, echoes)
    ensures lost == (start > base || |NonEcho(now)| < |NonEcho(first)|)
  {
  }

  lemma NothingLeft(events: seq<Event>, start: nat)
    ensures LeftOf(events, start, events, start, false, 0)
  {
    DropNoEchoes(events);
  }

  lemma EchoesLeft(events: seq<Event>, start: nat, k: nat)
    ensures LeftOf(events, start, DropEchoes(events, k), start, false, k)
  {
    DropEchoesKeepsOthers(events, k);
  }

  /** After a visible loss there is no echo left to drop, so a later eviction leaves a suffix. */
  lemma LeftAfterLoss(first: seq<Event>, base: nat, evs: seq<Event>, from: nat, echoes: nat,
                      now: seq<Event>, start: nat, visible: bool, more: nat)
    requires LeftOf(first, base, evs, from, true, echoes) && LeftOf(evs, from, now, start, visible, more)
    ensures LeftOf(first, base, now, start, true, echoes)
  {
    LeftOfLeft(first, base, evs, from, true, echoes, now, start, visible, more);
  }

  class Ring {
    const capacity: nat
    const retention: Retention
    var chunks: seq<Chunk>
    var lineEnds: seq<nat>
    var events: seq<Event>
    var startOffset: nat
    var endOffset: nat
    var bufferedBytes: nat
    var bufferedEventBytes: nat
    var progressSeq: nat

    /** Under the Tail policy: every byte accepted since the last reset. */
    ghost var log: seq<Cell>

    ghost predicate Valid()
      reads this
    {
      && Ascending(chunks, startOffset, endOffset)
      && bufferedBytes == SumLens(chunks)
      && bufferedEventBytes == SumSizes(events)
      && lineEnds == LineEnds(chunks)
      && bufferedBytes + bufferedEventBytes <= capacity
      && (retention.Tail? ==> Aligned())
    }

    /** The retained bytes are the end of the log, and events point into them. */
    ghost predicate Aligned()
      reads this
    {
      && Tiles(chunks, startOffset, endOffset)
      && Sorted(events, startOffset, endOffset)
      && |log| == endOffset
      && startOffset <= endOffset
      && Flatten(chunks) == log[startOffset..]
    }

    /** What eviction works on. */
    function Now(): Kept
      reads this
    {
      Kept(chunks, events)
    }

    function Total(): nat
      reads this
    {
      bufferedBytes + bufferedEventBytes
    }

    constructor (capacity: nat, retention: Retention)
      ensures Valid() && fresh(this)
      ensures this.capacity == capacity && this.retention == retention
      ensures chunks == [] && events == [] && startOffset == endOffset == 0 && log == []
    {
      this.capacity := capacity;
      this.retention := retention;
      chunks, lineEnds, events := [], [], [];
      startOffset, endOffset := 0, 0;
      bufferedBytes, bufferedEventBytes := 0, 0;
      progressSeq := 0;
      log := [];
    }

    // ----- popping events

    method PopFrontEvent() returns (popped: bool)
      requires bufferedEventBytes == SumSizes(events)
      modifies `events, `bufferedEventBytes
      ensures popped == (old(events) != [])
      ensures events == if popped then old(events)[1..] else []
      ensures bufferedEventBytes == SumSizes(events)
    {
      if events != [] {
        bufferedEventBytes := bufferedEventBytes - EventSize(events[0].kind);
        events := events[1..];
        return true;
      }
      return false;
    }

    method PopBackEvent() returns (popped: Option<Event>)
      requires bufferedEventBytes == SumSizes(events)
      modifies `events, `bufferedEventBytes
      ensures popped == if old(events) == [] then None else Some(old(events)[|old(events)| - 1])
      ensures events == if popped.Some? then old(events)[..|old(events)| - 1] else []
      ensures bufferedEventBytes == SumSizes(events)
    {
      if events == [] {
        return None;
      }
      var n := |events| - 1;
      SumSizesRemove(events, n);
      assert events[..n] + events[n + 1..] == events[..n];
      popped := Some(events[n]);
      bufferedEventBytes := bufferedEventBytes - EventSize(events[n].kind);
      events := events[..n];
    }

    method PopOldestInputEcho(ghost all: seq<Event>, ghost k: nat) returns (popped: bool)
      requires bufferedEventBytes == SumSizes(events)
      requires events == DropEchoes(all, k)
      modifies `events, `bufferedEventBytes
      ensures popped == old(HasEcho(events))
      ensures events == DropEchoes(all, if popped then k + 1 else k)
      ensures bufferedEventBytes == SumSizes(events)
      ensures popped ==> |events| < |old(events)|
    {
      var i := 0;
      while i < |events| && !events[i].kind.InputEcho?
        invariant i <= |events|
        invariant forall j :: 0 <= j < i ==> !events[j].kind.InputEcho?
      {
        i := i + 1;
      }
      if i == |events| {
        return false;
      }
      SumSizesRemove(events, i);
      DropOneMoreEcho(all, k, i);
      bufferedEventBytes := bufferedEventBytes - EventSize(events[i].kind);
      events := events[..i] + events[i + 1..];
      return true;
    }

    method DropInputEchoesForRoom(needed: nat, room: nat) returns (dropped: nat)
      requires bufferedEventBytes == SumSizes(events)
      modifies `events, `bufferedEventBytes
      ensures events == DropEchoes(old(events), dropped)
      ensures events == SpareEchoes(old(events), room - needed - bufferedBytes)
      ensures bufferedEventBytes == SumSizes(events)
      ensures Total() + needed <= room || !HasEcho(events)
      ensures old(Total()) + needed <= room ==> dropped == 0
      ensures dropped == 0 ==> events == old(events)
      ensures dropped > 0 ==> HasEcho(old(events))
      ensures Total() <= old(Total())
    {
      dropped := 0;
      while Total() + needed > room
        invariant events == DropEchoes(old(events), dropped)
        invariant SpareEchoes(events, room - needed - bufferedBytes)
               == SpareEchoes(old(events), room - needed - bufferedBytes)
        invariant bufferedEventBytes == SumSizes(events)
        invariant old(Total()) + needed <= room ==> dropped == 0
        invariant dropped == 0 ==> events == old(events)
        invariant dropped > 0 ==> HasEcho(old(events))
        decreases |events|
      {
        DropEchoesAgain(old(events), dropped, 1);
        var popped := PopOldestInputEcho(old(events), dropped);
        if !popped {
          break;
        }
        dropped := dropped + 1;
      }
      DropEchoesKeepsOthers(old(events), dropped);
    }

    // ----- cleaning up behind and ahead of the retained range

    method CleanupFrontBeforeBoundary()
      requires bufferedEventBytes == SumSizes(events)
      modifies `lineEnds, `events, `bufferedEventBytes
      ensures lineEnds == DropLineEnds(old(lineEnds), startOffset)
      ensures events == DropEventsBelow(old(events), startOffset)
      ensures bufferedEventBytes == SumSizes(events)
    {
      while lineEnds != [] && lineEnds[0] <= startOffset
        modifies `lineEnds
        invariant DropLineEnds(lineEnds, startOffset) == DropLineEnds(old(lineEnds), startOffset)
        decreases |lineEnds|
      {
        lineEnds := lineEnds[1..];
      }
      while events != [] && events[0].offset < startOffset
        modifies `events, `bufferedEventBytes
        invariant DropEventsBelow(events, startOffset) == DropEventsBelow(old(events), startOffset)
        invariant bufferedEventBytes == SumSizes(events)
        decreases |events|
      {
        var _ := PopFrontEvent();
      }
    }

    method CleanupFront()
      requires bufferedEventBytes == SumSizes(events)
      modifies `lineEnds, `events, `bufferedEventBytes
      ensures lineEnds == DropLineEnds(old(lineEnds), startOffset)
      ensures events == DropEventsBelow(old(events), startOffset + 1)
      ensures bufferedEventBytes == SumSizes(events)
    {
      DropEventsTwice(events, startOffset, startOffset + 1);
      CleanupFrontBeforeBoundary();
      while events != [] && events[0].offset <= startOffset
        modifies `events, `bufferedEventBytes
        invariant DropEventsBelow(events, startOffset + 1) == DropEventsBelow(old(events), startOffset + 1)
        invariant bufferedEventBytes == SumSizes(events)
        decreases |events|
      {
        var _ := PopFrontEvent();
      }
    }

    method CleanupFrontConsumingBoundaryEvents(n: nat)
      requires bufferedEventBytes == SumSizes(events)
      modifies `lineEnds, `events, `bufferedEventBytes
      ensures lineEnds == DropLineEnds(old(lineEnds), startOffset)
      ensures events == DropEventsAt(DropEventsBelow(old(events), startOffset), startOffset, n)
      ensures bufferedEventBytes == SumSizes(events)
    {
      CleanupFrontBeforeBoundary();
      ghost var before := events;
      var i := 0;
      while i < n
        modifies `events, `bufferedEventBytes
        invariant i <= n
        invariant DropEventsAt(events, startOffset, n - i) == DropEventsAt(before, startOffset, n)
        invariant bufferedEventBytes == SumSizes(events)
      {
        if events == [] || events[0].offset != startOffset {
          break;
        }
        var _ := PopFrontEvent();
        i := i + 1;
      }
    }

    /** `retained_end_offset`. */
    function RetainedEnd(): nat
      reads this
    {
      Max(if chunks == [] then startOffset else chunks[|chunks| - 1].End(), startOffset)
    }

    method CleanupBack()
      requires bufferedEventBytes == SumSizes(events)
      modifies `lineEnds, `events, `bufferedEventBytes
      ensures lineEnds == DropLineEndsAbove(old(lineEnds), RetainedEnd())
      ensures events <= old(events) && events == DropEventsAbove(old(events), RetainedEnd())
      ensures bufferedEventBytes == SumSizes(events) <= old(bufferedEventBytes)
    {
      var retainedEnd := RetainedEnd();
      while lineEnds != [] && lineEnds[|lineEnds| - 1] > retainedEnd
        modifies `lineEnds
        invariant DropLineEndsAbove(lineEnds, retainedEnd) == DropLineEndsAbove(old(lineEnds), retainedEnd)
        decreases |lineEnds|
      {
        lineEnds := lineEnds[..|lineEnds| - 1];
      }
      while events != [] && events[|events| - 1].offset > retainedEnd
        modifies `events, `bufferedEventBytes
        invariant events <= old(events)
        invariant DropEventsAbove(events, retainedEnd) == DropEventsAbove(old(events), retainedEnd)
        invariant bufferedEventBytes == SumSizes(events) <= old(bufferedEventBytes)
        decreases |events|
      {
        SumSizesConcat(events[..|events| - 1], [events[|events| - 1]]);
        assert events == events[..|events| - 1] + [events[|events| - 1]];
        var _ := PopBackEvent();
      }
    }

    // ----- trimming the front

    /** One round of the front loop: drop or shorten the first chunk, or step over a gap. */
    method TrimFrontChunk(offset: nat)
      requires chunks != [] && Ascending(chunks, startOffset, endOffset) && startOffset < offset <= endOffset
      requires bufferedBytes == SumLens(chunks)
      modifies `chunks, `startOffset, `bufferedBytes
      ensures old(startOffset) < startOffset <= offset
      ensures chunks == DropTo(old(chunks), startOffset)
      ensures DropTo(chunks, offset) == DropTo(old(chunks), offset)
      ensures Ascending(chunks, startOffset, endOffset) && bufferedBytes == SumLens(chunks)
      ensures |chunks| < |old(chunks)| || startOffset == offset
    {
      var front := chunks[0];
      if front.End() <= offset {
        DropFirstChunk(chunks, startOffset, endOffset);
        DropToAscends(chunks, startOffset, endOffset, front.End());
        bufferedBytes := bufferedBytes - |front.bytes|;
        chunks := chunks[1..];
        startOffset := front.End();
      } else if front.start < offset {
        DropToOneStep(chunks, startOffset, endOffset, offset);
        DropToAscends(chunks, startOffset, endOffset, offset);
        var delta := offset - front.start;
        var shorter := Chunk(offset, front.bytes[delta..], front.key);
        assert ([shorter] + chunks[1..])[1..] == chunks[1..];
        bufferedBytes := bufferedBytes - delta;
        chunks := [shorter] + chunks[1..];
        startOffset := offset;
      } else {
        startOffset := offset;
      }
    }

    ghost predicate Counted()
      reads this
    {
      && Ascending(chunks, startOffset, endOffset)
      && bufferedBytes == SumLens(chunks)
      && bufferedEventBytes == SumSizes(events)
      && lineEnds == LineEnds(chunks)
    }

    /**
      The front loop shared by eviction (which drops the events at the new
      start) and by the drain cursor (which leaves them for its own count).
     */
    method AdvanceFront(offset: nat, through: bool)
      requires Counted() && startOffset < offset <= endOffset
      modifies `chunks, `startOffset, `bufferedBytes, `lineEnds, `events, `bufferedEventBytes
      ensures Counted() && startOffset == offset
      ensures chunks == DropTo(old(chunks), offset)
      ensures events == DropEventsBelow(old(events), if through then offset + 1 else offset)
    {
      hide Ascending, SumLens, SumSizes, LineEnds, DropLineEnds, DropEventsBelow;
      ghost var bound := if through then offset + 1 else offset;
      ghost var events0 := events;
      while chunks != []
        invariant startOffset < offset && Counted()
        invariant DropTo(chunks, offset) == DropTo(old(chunks), offset)
        invariant DropEventsBelow(events, bound) == DropEventsBelow(events0, bound)
        decreases |chunks|
      {
        ghost var before, from, evs := chunks, startOffset, events;
        TrimFrontChunk(offset);
        DropToLineEnds(before, from, endOffset, startOffset);
        if through {
          DropEventsTwice(evs, startOffset + 1, bound);
          CleanupFront();
        } else {
          DropEventsTwice(evs, startOffset, bound);
          CleanupFrontBeforeBoundary();
        }
        if startOffset >= offset {
          DropToNothing(chunks, startOffset, endOffset);
          return;
        }
      }
      DropToLineEnds(chunks, startOffset, endOffset, offset);
      DropToAscends(chunks, startOffset, endOffset, offset);
      DropEventsTwice(events, bound, bound);
      startOffset := offset;
      if through {
        CleanupFront();
      } else {
        CleanupFrontBeforeBoundary();
      }
    }

    /** Trimming the front of a valid ring leaves a valid ring. */
    twostate lemma FrontTrimKeepsValid(o: nat)
      requires old(Valid()) && old(startOffset) <= o <= endOffset == old(endOffset) && log == old(log)
      requires Counted() && startOffset == o && chunks == DropTo(old(chunks), o)
      requires SumSizes(events) <= SumSizes(old(events))
      requires retention.Tail? ==> Sorted(events, o, endOffset)
      ensures Valid()
    {
      DropToAscends(old(chunks), old(startOffset), endOffset, o);
      if retention.Tail? {
        DropToTiles(old(chunks), old(startOffset), endOffset, o);
        DropDrop(log, old(startOffset), o - old(startOffset));
      }
    }

    /** `trim_to_offset`: keeps the bytes from the target on and the events strictly after it. */
    method TrimToOffset(target: nat)
      requires Valid()
      modifies `chunks, `startOffset, `bufferedBytes, `lineEnds, `events, `bufferedEventBytes
      ensures Valid()
      ensures Min(target, endOffset) <= old(startOffset) ==>
                startOffset == old(startOffset) && chunks == old(chunks) && events == old(events)
      ensures Min(target, endOffset) > old(startOffset) ==>
                startOffset == Min(target, endOffset)
                && chunks == DropTo(old(chunks), startOffset) && events == DropEventsBelow(old(events), startOffset + 1)
    {
      hide DropTo, DropEventsBelow, SumLens, SumSizes, LineEnds, Sorted, Tiles, Flatten;
      var offset := Min(target, endOffset);
      if offset <= startOffset {
        return;
      }
      DropEventsBelowSize(events, offset + 1);
      if retention.Tail? {
        DropEventsBelowSorted(events, startOffset, endOffset, offset, offset + 1);
      }
      AdvanceFront(offset, true);
      FrontTrimKeepsValid(offset);
    }

    /**
      `trim_to_offset_consuming_boundary_events`: keeps the bytes from the target
      on, and all events at it but the first n.
     */
    method TrimToOffsetConsumingBoundaryEvents(target: nat, n: nat)
      requires Valid()
      modifies `chunks, `startOffset, `bufferedBytes, `lineEnds, `events, `bufferedEventBytes
      ensures Valid()
      ensures Min(target, endOffset) < old(startOffset) ==>
                startOffset == old(startOffset) && chunks == old(chunks) && events == old(events)
      ensures Min(target, endOffset) >= old(startOffset) ==>
                startOffset == Min(target, endOffset)
                && chunks == DropTo(old(chunks), startOffset)
                && events == DropEventsAt(DropEventsBelow(old(events), startOffset), startOffset, n)
    {
      hide DropTo, DropEventsBelow, DropEventsAt, SumLens, SumSizes, LineEnds, Sorted, Tiles, Flatten;
      var offset := Min(target, endOffset);
      if offset < startOffset {
        return;
      }
      DropEventsBelowSize(events, offset);
      DropEventsAtSize(DropEventsBelow(events, offset), offset, n);
      if retention.Tail? {
        DropEventsBelowSorted(events, startOffset, endOffset, offset, offset);
        DropEventsAtSorted(DropEventsBelow(events, offset), endOffset, offset, n);
      }
      DropEventsTwice(events, offset, offset);
      if offset == startOffset {
        DropToNothing(chunks, startOffset, endOffset);
      } else {
        AdvanceFront(offset, false);
        DropToNothing(chunks, startOffset, endOffset);
      }
      DropToLineEnds(chunks, startOffset, endOffset, offset);
      CleanupFrontConsumingBoundaryEvents(n);
      FrontTrimKeepsValid(offset);
    }

    // ----- eviction under the Tail policy

    twostate lemma EchoDropKeepsValid(k: nat)
      requires old(Valid()) && events == DropEchoes(old(events), k) && bufferedEventBytes == SumSizes(events)
      requires unchanged(`chunks, `lineEnds, `startOffset, `endOffset, `bufferedBytes, `log)
      ensures Valid()
    {
      DropEchoesKeepsOthers(old(events), k);
      if retention.Tail? {
        DropEchoesSorted(old(events), startOffset, endOffset, k);
      }
    }

    /** Drops everything, counting what a reader could have seen. */
    method Evacuate() returns (dropped: DropStats)
      requires Valid() && retention.Tail?
      modifies `chunks, `startOffset, `bufferedBytes, `lineEnds, `events, `bufferedEventBytes
      ensures Valid() && chunks == [] && events == [] && startOffset == endOffset && Total() == 0
      ensures dropped == DropStats(endOffset - old(startOffset), |NonEcho(old(events))|)
    {
      var seen := 0;
      for i := 0 to |events|
        modifies {}
        invariant seen == |NonEcho(events[..i])|
      {
        assert events[..i + 1] == events[..i] + [events[i]];
        NonEchoConcat(events[..i], [events[i]]);
        assert [events[i]][1..] == [];
        if !events[i].kind.InputEcho? {
          seen := seen + 1;
        }
      }
      assert events[..|events|] == events;
      dropped := DropStats(endOffset - startOffset, seen);
      chunks, lineEnds, events := [], [], [];
      startOffset := endOffset;
      bufferedBytes, bufferedEventBytes := 0, 0;
    }

    /** Evicts the whole first chunk, and the events up to and at its end. */
    method EvictChunk()
      requires Valid() && retention.Tail? && chunks != []
      modifies `chunks, `startOffset, `bufferedBytes, `lineEnds, `events, `bufferedEventBytes
      ensures Valid() && IsSuffix(events, old(events)) && startOffset > old(startOffset)
      ensures Now() == WithoutFirst(old(Now()))
    {
      hide DropTo, DropEventsBelow, SumLens, SumSizes, LineEnds, Flatten, Tiles, Ascending, Sorted;
      var front := chunks[0];
      FrontOfTiles(chunks, startOffset, endOffset);
      DropEventsBelowSuffix(events, front.End() + 1);
      TrimToOffset(Max(front.End(), startOffset + 1));
    }

    /** With no chunk left: evicts the first event. */
    method EvictEvent()
      requires Valid() && retention.Tail? && events != []
      modifies `events, `bufferedEventBytes
      ensures Valid() && events == old(events)[1..]
    {
      hide SumLens, LineEnds, Flatten, Tiles, Ascending, EventSize;
      SortedLower(events[1..], startOffset, events[0].offset, endOffset);
      var _ := PopFrontEvent();
    }

    /** What eviction may do to a Tail ring, and what it must report. */
    twostate predicate Evicted(dropped: DropStats, echoes: nat)
      reads this
    {
      && endOffset == old(endOffset) && log == old(log) && startOffset >= old(startOffset)
      && dropped.droppedBytes == startOffset - old(startOffset)
      && (!dropped.DroppedVisible() ==> chunks == old(chunks) && events == DropEchoes(old(events), echoes))
      && (dropped.DroppedVisible() ==>
            && (startOffset > old(startOffset) || |events| < |NonEcho(old(events))|)
            && IsSuffix(events, NonEcho(old(events))))
    }

    /** `make_room_for`. */
    method MakeRoomFor(needed: nat) returns (dropped: DropStats, ghost echoes: nat)
      requires Valid() && retention.Tail?
      modifies `chunks, `startOffset, `bufferedBytes, `lineEnds, `events, `bufferedEventBytes
      ensures Valid() && Evicted(dropped, echoes)
      ensures LeftOf(old(events), old(startOffset), events, startOffset, dropped.DroppedVisible(), echoes)
      ensures needed <= capacity ==> Total() + needed <= capacity
      ensures Now() == MakeRoom(old(Now()), needed, capacity)
      ensures old(Total()) + needed <= capacity && needed < capacity ==>
                !dropped.DroppedVisible() && events == old(events)
    {
      hide LeftOf, MakeRoom, NonEcho, DropEchoes, Flatten, LineEnds, SumSizes, SumLens, Ascending, Tiles, Sorted;
      if needed >= capacity {
        dropped, echoes := MakeAllRoom(needed);
      } else {
        dropped, echoes := MakeSomeRoom(needed);
      }
      EvictedLeaves(old(events), old(startOffset), events, startOffset, dropped.DroppedVisible(), echoes);
    }

    method MakeAllRoom(ghost needed: nat) returns (dropped: DropStats, ghost echoes: nat)
      requires Valid() && retention.Tail? && needed >= capacity
      modifies `chunks, `startOffset, `bufferedBytes, `lineEnds, `events, `bufferedEventBytes
      ensures Valid() && Evicted(dropped, echoes) && Total() == 0
      ensures Now() == MakeRoom(old(Now()), needed, capacity)
    {
      hide Evict, SpareEchoes, LineEnds, SumSizes, SumLens, Ascending, Sorted;
      AllGone(chunks, events, startOffset, endOffset);
      dropped := Evacuate();
      echoes := |old(events)|;
    }

    method MakeSomeRoom(needed: nat) returns (dropped: DropStats, ghost echoes: nat)
      requires Valid() && retention.Tail? && needed < capacity
      modifies `chunks, `startOffset, `bufferedBytes, `lineEnds, `events, `bufferedEventBytes
      ensures Valid() && Evicted(dropped, echoes) && Total() + needed <= capacity
      ensures Now() == MakeRoom(old(Now()), needed, capacity)
      ensures old(Total()) + needed <= capacity ==> !dropped.DroppedVisible() && events == old(events)
    {
      hide Evict, SpareEchoes, NonEcho, DropEchoes, HasEcho, Flatten, LineEnds, SumSizes, SumLens, Ascending, Tiles,
          Sorted;
      echoes := DropInputEchoesForRoom(needed, capacity);
      EchoDropKeepsValid(echoes);
      dropped := EvictUntil(needed);
      DropEchoesKeepsOthers(old(events), echoes);
      NonEchoOfNone(DropEchoes(old(events), echoes));
    }

    method EvictUntil(needed: nat) returns (dropped: DropStats)
      requires Valid() && retention.Tail? && needed < capacity
      requires Total() + needed <= capacity || !HasEcho(events)
      modifies `chunks, `startOffset, `bufferedBytes, `lineEnds, `events, `bufferedEventBytes
      ensures Valid() && Total() + needed <= capacity && startOffset >= old(startOffset)
      ensures Now() == Evict(old(Now()), capacity - needed)
      ensures dropped.droppedBytes == startOffset - old(startOffset)
      ensures !dropped.DroppedVisible() ==> chunks == old(chunks) && events == old(events)
      ensures dropped.DroppedVisible() ==>
                !HasEcho(old(events)) && IsSuffix(events, old(events))
                && (startOffset > old(startOffset) || |events| < |old(events)|)
      ensures old(Total()) + needed <= capacity ==> !dropped.DroppedVisible()
    {
      hide DropTo, DropEventsBelow, LineEnds, Flatten, DropEchoes, NonEcho;
      dropped := DropStats(0, 0);
      while Total() + needed > capacity
        invariant Valid() && startOffset >= old(startOffset)
        invariant Evict(Now(), capacity - needed) == Evict(old(Now()), capacity - needed)
        invariant dropped.droppedBytes == startOffset - old(startOffset)
        invariant !dropped.DroppedVisible() ==>
                    chunks == old(chunks) && events == old(events) && startOffset == old(startOffset)
        invariant IsSuffix(events, old(events))
        invariant dropped.DroppedVisible() ==>
                    !HasEcho(old(events)) && (startOffset > old(startOffset) || |events| < |old(events)|)
        invariant dropped.DroppedVisible() ==> old(Total()) + needed > capacity
        decreases |chunks| + |events|
      {
        ghost var evs := events;
        if chunks != [] {
          var before := startOffset;
          EvictChunk();
          dropped := dropped.(droppedBytes := dropped.droppedBytes + (startOffset - before));
        } else {
          EvictEvent();
          dropped := dropped.(droppedVisibleEvents := dropped.droppedVisibleEvents + 1);
        }
        SuffixTrans(events, evs, old(events));
      }
    }

    // ----- appending

    method AppendChunk(bytes: seq<byte>, key: Key)
      requires Valid() && bytes != [] && Total() + |bytes| <= capacity
      modifies `chunks, `endOffset, `bufferedBytes, `lineEnds, `log
      ensures Valid()
      ensures chunks == old(chunks) + [Chunk(old(endOffset), bytes, key)]
      ensures endOffset == old(endOffset) + |bytes| && bufferedBytes == old(bufferedBytes) + |bytes|
      ensures log == old(log) + Cells(bytes, key)
    {
      hide Cells, Flatten, LineEnds, SumSizes, NewlinesOf;
      var start := endOffset;
      var chunk := Chunk(start, bytes, key);
      endOffset := endOffset + |bytes|;
      bufferedBytes := bufferedBytes + |bytes|;
      PushLineEnds(start, bytes);
      chunks := chunks + [chunk];
      log := log + Cells(bytes, key);
      LineEndsSnoc(old(chunks), chunk);
      AppendKeepsCounts(old(chunks), chunk, startOffset, start);
      if retention.Tail? {
        TilesAppend(old(chunks), startOffset, start, chunk);
        DropIntoFirst(old(log), Cells(bytes, key), startOffset);
        SortedWiden(events, startOffset, start, endOffset);
      }
    }

    method PushLineEnds(start: nat, bytes: seq<byte>)
      modifies `lineEnds
      ensures lineEnds == old(lineEnds) + NewlinesOf(start, bytes)
    {
      for i := 0 to |bytes|
        invariant lineEnds == old(lineEnds) + NewlinesOf(start, bytes[..i])
      {
        assert bytes[..i + 1] == bytes[..i] + [bytes[i]];
        NewlinesConcat(start, bytes[..i], [bytes[i]]);
        assert [bytes[i]][1..] == [];
        if bytes[i] == NEWLINE {
          lineEnds := lineEnds + [start + i + 1];
        }
      }
      assert bytes[..|bytes|] == bytes;
    }

    /** Puts an event at the end of the stream; the caller has made room. */
    method PushEvent(offset: nat, kind: EventKind)
      requires Valid() && Total() + EventSize(kind) <= capacity
      requires retention.Tail? ==> offset == endOffset
      modifies `events, `bufferedEventBytes
      ensures Valid() && events == old(events) + [Event(offset, kind)]
      ensures bufferedEventBytes == old(bufferedEventBytes) + EventSize(kind)
    {
      hide EventSize;
      var event := Event(offset, kind);
      SumSizesConcat(events, [event]);
      assert [event][1..] == [];
      if retention.Tail? {
        SortedAppend(events, startOffset, endOffset, event);
      }
      bufferedEventBytes := bufferedEventBytes + EventSize(kind);
      events := events + [event];
    }

    /** `append_truncation_notice_locked`, which is always asked for the end of the stream. */
    method AppendTruncationNotice(extra: nat) returns (ghost left: seq<Event>, ghost lost: bool, ghost echoes: nat)
      requires Valid() && retention.Tail?
      modifies this
      ensures Valid() && endOffset == old(endOffset) && log == old(log)
      ensures NOTICE_SIZE + extra > capacity ==>
                chunks == old(chunks) && events == left == old(events) && startOffset == old(startOffset)
      ensures NOTICE_SIZE + extra <= capacity ==>
                Announced(events, left) && Total() + extra <= capacity
                && Kept(chunks, left) == MakeRoom(old(Now()), NOTICE_SIZE + extra, capacity)
      ensures LeftOf(old(events), old(startOffset), left, startOffset, lost, echoes)
    {
      hide MakeRoom, TruncationNotice, LeftOf, NonEcho, DropEchoes, Flatten, LineEnds, SumSizes, SumLens, Ascending,
          Tiles, Sorted;
      left, lost, echoes := events, false, 0;
      NothingLeft(events, startOffset);
      if NOTICE_SIZE + extra > capacity {
        return;
      }
      var dropped;
      dropped, echoes := MakeRoomFor(NOTICE_SIZE + extra);
      left, lost := events, dropped.DroppedVisible();
      progressSeq := progressSeq + 1;
      PushEvent(Max(endOffset, startOffset), TruncationNotice());
    }

    /** A truncation notice has been added behind the given events, at the end of the stream. */
    ghost predicate Announced(evs: seq<Event>, left: seq<Event>)
      reads this
    {
      evs == left + [Event(endOffset, TruncationNotice())]
    }

    /** Bytes, or events other than input echoes, are gone when the given events are left. */
    twostate predicate Lost(left: seq<Event>)
      reads this
    {
      startOffset > old(startOffset) || |NonEcho(left)| < |NonEcho(old(events))|
    }

    /**
      What making room may leave: a visible loss adds a new notice exactly when the
      notice fits next to `room` more bytes, and nothing else is ever added.
     */
    twostate predicate Reported(evs: seq<Event>, left: seq<Event>, echoes: nat, room: nat)
      reads this
    {
      && LeftOf(old(events), old(startOffset), left, startOffset, Lost(left), echoes)
      && (if Lost(left) && NOTICE_SIZE + room <= capacity then Announced(evs, left) else evs == left)
    }

    /** The ring holds what a first eviction kept, and after a visible loss what the notice left of that. */
    twostate predicate KeepsOf(first: Kept, left: seq<Event>, room: nat)
      reads this
    {
      Kept(chunks, left)
      == if Lost(left) && NOTICE_SIZE + room <= capacity then MakeRoom(first, NOTICE_SIZE + room, capacity) else first
    }

    /** `append_bytes_retaining_tail`. */
    method AppendBytesRetainingTail(bytes: seq<byte>, key: Key) returns (ghost left: seq<Event>, ghost echoes: nat)
      requires Valid() && retention.Tail? && capacity > 0
      modifies this
      ensures Valid() && log == old(log) + Cells(bytes, key)
      ensures Reported(events, left, echoes, 0)
      ensures KeepsOf(AppendInSections(old(Now()), old(endOffset), bytes, key, AppendChunkLen(capacity), capacity),
                      left, 0)
      ensures capacity > 1 && old(Total()) + |bytes| <= capacity ==>
                startOffset == old(startOffset) && events == old(events)
    {
      hide MakeRoom, AppendSection, AppendInSections, Cells, LeftOf, Flatten, LineEnds, SumSizes, SumLens, Ascending,
          Tiles, Sorted;
      var droppedAny := false;
      var done := 0;
      var maxChunkLen := AppendChunkLen(capacity);
      echoes := 0;
      NothingLeft(events, startOffset);
      assert Cells(bytes[..0], key) == [] && old(log) + [] == old(log);
      assert bytes[0..] == bytes;
      while done < |bytes|
        invariant done <= |bytes| && Valid()
        invariant log == old(log) + Cells(bytes[..done], key)
        invariant AppendInSections(Now(), endOffset, bytes[done..], key, maxChunkLen, capacity)
               == AppendInSections(old(Now()), old(endOffset), bytes, key, maxChunkLen, capacity)
        invariant LeftOf(old(events), old(startOffset), events, startOffset, droppedAny, echoes)
        invariant capacity > 1 && old(Total()) + |bytes| <= capacity ==>
                    !droppedAny && events == old(events) && startOffset == old(startOffset)
                    && Total() == old(Total()) + done
      {
        var chunkLen := Min(|bytes| - done, maxChunkLen);
        var head := bytes[done..done + chunkLen];
        var dropped;
        SectionOf(Now(), endOffset, bytes, done, key, maxChunkLen, capacity);
        dropped, echoes := AppendTailChunk(head, key, old(events), old(startOffset), droppedAny, echoes);
        droppedAny := droppedAny || dropped;
        ExtendLog(old(log), bytes, key, done, chunkLen);
        done := done + chunkLen;
      }
      assert bytes[..|bytes|] == bytes;
      NoMoreSections(Now(), endOffset, bytes, key, maxChunkLen, capacity);
      left := ReportLoss(droppedAny, 0, old(events), old(startOffset), echoes);
      LeftMeansLost(old(events), old(startOffset), left, startOffset, droppedAny, echoes);
    }

    /** One locked section of it. */
    method AppendTailChunk(head: seq<byte>, key: Key, ghost first: seq<Event>, ghost base: nat, ghost lost: bool,
                           ghost echoes: nat)
        returns (dropped: bool, ghost more: nat)
      requires Valid() && retention.Tail? && head != [] && |head| <= capacity
      requires LeftOf(first, base, events, startOffset, lost, echoes)
      modifies this
      ensures Valid() && log == old(log) + Cells(head, key) && endOffset == old(endOffset) + |head|
      ensures Now() == AppendSection(old(Now()), old(endOffset), head, key, capacity)
      ensures LeftOf(first, base, events, startOffset, lost || dropped, more)
      ensures old(Total()) + |head| <= capacity && |head| < capacity ==>
                !dropped && events == old(events) && startOffset == old(startOffset)
                && Total() == old(Total()) + |head|
    {
      hide MakeRoom, Cells, LeftOf, Flatten, LineEnds, SumSizes, SumLens, Ascending, Tiles, Sorted, NonEcho, DropEchoes;
      ghost var evs, from := events, startOffset;
      var stats;
      stats, more := MakeRoomFor(|head|);
      dropped := stats.DroppedVisible();
      LeftOfLeft(first, base, evs, from, lost, echoes, events, startOffset, dropped, more);
      more := echoes + more;
      AppendChunk(head, key);
    }

    /** Announces a visible loss, if there was one. */
    method ReportLoss(lost: bool, extra: nat, ghost first: seq<Event>, ghost base: nat, ghost echoes: nat)
        returns (ghost left: seq<Event>)
      requires Valid() && retention.Tail? && LeftOf(first, base, events, startOffset, lost, echoes)
      modifies this
      ensures Valid() && endOffset == old(endOffset) && log == old(log)
      ensures LeftOf(first, base, left, startOffset, lost, echoes)
      ensures if lost && NOTICE_SIZE + extra <= capacity then Announced(events, left) else events == left
      ensures lost && NOTICE_SIZE + extra <= capacity ==>
                Kept(chunks, left) == MakeRoom(old(Now()), NOTICE_SIZE + extra, capacity)
      ensures !lost || NOTICE_SIZE + extra > capacity ==>
                chunks == old(chunks) && events == old(events) && startOffset == old(startOffset)
                && Total() == old(Total())
      ensures NOTICE_SIZE + extra <= capacity && lost ==> Total() + extra <= capacity
    {
      hide MakeRoom, LeftOf, TruncationNotice, Flatten, LineEnds, SumSizes, SumLens, Ascending, Tiles, Sorted;
      left := events;
      if lost {
        ghost var evs, from := events, startOffset;
        ghost var again, more;
        left, again, more := AppendTruncationNotice(extra);
        LeftAfterLoss(first, base, evs, from, echoes, left, startOffset, again, more);
      }
    }

    /** `append_input_echo_event` and `append_visible_event` under the Tail policy. */
    method AppendEventRetainingTail(kind: EventKind)
        returns (ghost accepted: bool, ghost before: seq<Event>, ghost left: seq<Event>, ghost echoes: nat)
      requires Valid() && retention.Tail? && !kind.IsMarker()
      modifies this
      ensures Valid() && log == old(log) && endOffset == old(endOffset)
      ensures Reported(before, left, echoes, EventSize(kind))
      ensures events == if accepted then before + [Event(endOffset, kind)] else before
      ensures !kind.InputEcho? ==> accepted == (EventSize(kind) <= capacity)
      ensures EventSize(kind) > capacity ==> !accepted && events == old(events) && startOffset == old(startOffset)
      ensures kind.InputEcho? ==> !Lost(left)
      ensures kind.InputEcho? ==> EchoTurn(EventSize(kind), accepted, left) && chunks == old(chunks)
      ensures !kind.InputEcho? && accepted ==>
                KeepsOf(MakeRoom(old(Now()), EventSize(kind), capacity), left, EventSize(kind))
      ensures old(Total()) + EventSize(kind) <= capacity && EventSize(kind) < capacity ==>
                startOffset == old(startOffset) && events == old(events) + [Event(endOffset, kind)]
    {
      hide MakeRoom, SpareEchoes, LeftOf, EventSize, TruncationNotice, NonEcho, Flatten, LineEnds, SumSizes, SumLens,
          Ascending, Tiles, Sorted;
      progressSeq := progressSeq + 1;
      NothingLeft(events, startOffset);
      LeftMeansLost(events, startOffset, events, startOffset, false, 0);
      accepted, before, left, echoes := false, events, events, 0;
      if EventSize(kind) > capacity {
        return;
      }
      if kind.InputEcho? {
        var fits;
        fits, echoes := MakeEchoRoom(EventSize(kind));
        before, left := events, events;
        if !fits {
          return;
        }
      } else {
        left, echoes := MakeVisibleRoom(EventSize(kind));
        before := events;
      }
      accepted := true;
      PushEvent(Max(endOffset, startOffset), kind);
    }

    method MakeEchoRoom(size: nat) returns (fits: bool, ghost echoes: nat)
      requires Valid() && retention.Tail? && size <= capacity
      modifies this
      ensures Valid() && log == old(log) && endOffset == old(endOffset)
      ensures chunks == old(chunks) && startOffset == old(startOffset)
      ensures Reported(events, events, echoes, size) && !Lost(events) && EchoTurn(size, fits, events)
      ensures fits ==> Total() + size <= capacity
      ensures old(Total()) + size <= capacity && size < capacity ==> fits && events == old(events)
    {
      hide SpareEchoes, LeftOf, NonEcho, DropEchoes, Flatten, LineEnds, SumSizes, SumLens, Ascending, Tiles, Sorted;
      fits, echoes := MakeRoomForInputEcho(size);
      EchoesLeft(old(events), startOffset, echoes);
      LeftMeansLost(old(events), startOffset, events, startOffset, false, echoes);
    }

    method MakeVisibleRoom(size: nat) returns (ghost left: seq<Event>, ghost echoes: nat)
      requires Valid() && retention.Tail? && size <= capacity
      modifies this
      ensures Valid() && log == old(log) && endOffset == old(endOffset) && Total() + size <= capacity
      ensures Reported(events, left, echoes, size)
      ensures KeepsOf(MakeRoom(old(Now()), size, capacity), left, size)
      ensures old(Total()) + size <= capacity && size < capacity ==>
                startOffset == old(startOffset) && events == old(events)
    {
      hide MakeRoom, LeftOf, TruncationNotice, Flatten, LineEnds, SumSizes, SumLens, Ascending, Tiles, Sorted, NonEcho,
          DropEchoes;
      var dropped;
      dropped, echoes := MakeRoomFor(size);
      ghost var lost := dropped.DroppedVisible();
      left := ReportLoss(dropped.DroppedVisible(), size, old(events), old(startOffset), echoes);
      LeftMeansLost(old(events), old(startOffset), left, startOffset, lost, echoes);
    }

    /** An input echo takes no room but that of older echoes, and fits when that is enough. */
    twostate predicate EchoTurn(needed: nat, fits: bool, left: seq<Event>)
      reads this
    {
      && left == (if needed >= capacity then old(events)
                  else SpareEchoes(old(events), capacity - needed - old(bufferedBytes)))
      && (fits <==> needed < capacity && old(bufferedBytes) + SumSizes(left) + needed <= capacity)
    }

    method MakeRoomForInputEcho(needed: nat) returns (fits: bool, ghost echoes: nat)
      requires Valid() && retention.Tail?
      modifies `events, `bufferedEventBytes
      ensures Valid() && events == DropEchoes(old(events), echoes)
      ensures EchoTurn(needed, fits, events)
      ensures fits ==> Total() + needed <= capacity
      ensures old(Total()) + needed <= capacity && needed < capacity ==> fits && events == old(events)
    {
      echoes := 0;
      DropNoEchoes(events);
      if needed >= capacity {
        return false, 0;
      }
      echoes := DropInputEchoesForRoom(needed, capacity);
      EchoDropKeepsValid(echoes);
      fits := Total() + needed <= capacity;
    }

    // ----- refusal under the Head policy

    /** Shortens the last chunk by d bytes, with the line ends and events past the new end. */
    method TrimBackChunk(d: nat)
      requires Valid() && retention.Head? && chunks != [] && 0 < d <= |chunks[|chunks| - 1].bytes|
      modifies `chunks, `bufferedBytes, `lineEnds, `events, `bufferedEventBytes
      ensures Valid() && Flatten(chunks) <= old(Flatten(chunks)) && events <= old(events)
      ensures bufferedBytes == old(bufferedBytes) - d && bufferedEventBytes <= old(bufferedEventBytes)
      ensures Now() == ShortenedBy(old(Now()), startOffset, d)
    {
      hide Flatten, LineEnds, SumSizes, SumLens, DropLineEndsAbove, Ascending;
      ghost var front := chunks[..|chunks| - 1];
      var back := chunks[|chunks| - 1];
      assert chunks == front + [back];
      TrimBackKeeps(front, back, startOffset, endOffset, d);
      TrimBackLineEnds(front, back, startOffset, endOffset, d);
      ShortenBack(d);
      AscendingBounds(chunks, startOffset, endOffset);
      CleanupBack();
    }

    method ShortenBack(d: nat)
      requires chunks != [] && 0 < d <= |chunks[|chunks| - 1].bytes| && d <= bufferedBytes
      modifies `chunks, `bufferedBytes
      ensures chunks == TrimBack(old(chunks)[..|old(chunks)| - 1], old(chunks)[|old(chunks)| - 1], d)
      ensures bufferedBytes == old(bufferedBytes) - d
    {
      var back := chunks[|chunks| - 1];
      bufferedBytes := bufferedBytes - d;
      chunks := chunks[..|chunks| - 1];
      if d < |back.bytes| {
        chunks := chunks + [back.(bytes := back.bytes[..|back.bytes| - d])];
      }
    }

    /** `trim_tail_for_room`. */
    method TrimTailForRoom(needed: nat)
      requires Valid() && retention.Head? && needed <= capacity
      modifies `chunks, `bufferedBytes, `lineEnds, `events, `bufferedEventBytes
      ensures Valid() && Total() + needed <= capacity
      ensures Flatten(chunks) <= old(Flatten(chunks)) && events <= old(events)
      ensures Now() == TrimTail(old(Now()), startOffset, capacity - needed)
      ensures old(Total()) + needed <= capacity ==> chunks == old(chunks) && events == old(events)
    {
      hide Flatten, LineEnds, Ascending, SumLens, SumSizes, TrimTail;
      while Total() + needed > capacity
        invariant Valid()
        invariant Flatten(chunks) <= old(Flatten(chunks)) && events <= old(events)
        invariant TrimTail(Now(), startOffset, capacity - needed)
               == TrimTail(old(Now()), startOffset, capacity - needed)
        invariant old(Total()) + needed <= capacity ==>
                    chunks == old(chunks) && events == old(events) && Total() == old(Total())
        decreases bufferedBytes + |events|
      {
        TrimTailTurn(needed);
      }
      TrimTailDone(Now(), startOffset, capacity - needed);
    }

    /** One round of it. */
    method TrimTailTurn(needed: nat)
      requires Valid() && retention.Head? && needed <= capacity < Total() + needed
      modifies `chunks, `bufferedBytes, `lineEnds, `events, `bufferedEventBytes
      ensures Valid() && bufferedBytes + |events| < old(bufferedBytes) + |old(events)|
      ensures Flatten(chunks) <= old(Flatten(chunks)) && events <= old(events)
      ensures TrimTail(Now(), startOffset, capacity - needed) == TrimTail(old(Now()), startOffset, capacity - needed)
    {
      hide Flatten, LineEnds, Ascending, ShortenedBy;
      var lastChunkEnd := if chunks == [] then 0 else chunks[|chunks| - 1].End();
      if events != [] && events[|events| - 1].offset >= lastChunkEnd {
        var n := |events| - 1;
        SumSizesRemove(events, n);
        assert events[..n] + events[n + 1..] == events[..n];
        var _ := PopBackEvent();
      } else {
        var excess := Total() + needed - capacity;
        LastChunkNonEmpty(chunks, startOffset, endOffset);
        TrimBackChunk(Min(excess, |chunks[|chunks| - 1].bytes|));
      }
    }

    /** `append_omission_notice_locked`. */
    method AppendOmissionNotice()
      requires Valid() && retention.Head?
      modifies this
      ensures Valid() && endOffset == old(endOffset) && startOffset == old(startOffset)
      ensures OMISSION_SIZE <= capacity ==> HasOmission(events)
      ensures OMISSION_SIZE > capacity || old(HasOmission(events)) ==> chunks == old(chunks) && events == old(events)
      ensures Now() == Omit(old(Now()), startOffset, capacity)
      ensures Flatten(chunks) <= old(Flatten(chunks))
      ensures old(Total()) + OMISSION_SIZE <= capacity ==> chunks == old(chunks)
      ensures CountOmissions(events) <= Max(old(CountOmissions(events)), 1)
    {
      hide TrimTail, Flatten, LineEnds, Ascending, OmissionNotice, SumSizes, SumLens;
      HasOmissionIffCounted(events);
      if HasOmissionNotice() {
        return;
      }
      if OMISSION_SIZE > capacity {
        return;
      }
      TrimTailForRoom(OMISSION_SIZE);
      CountOfPrefix(events, old(events));
      PushOmissionNotice();
    }

    method PushOmissionNotice()
      requires Valid() && retention.Head? && Total() + OMISSION_SIZE <= capacity
      modifies `progressSeq, `events, `bufferedEventBytes
      ensures Valid() && events == old(events) + [Event(RetainedEnd(), OmissionNotice())]
      ensures HasOmission(events) && CountOmissions(events) == CountOmissions(old(events)) + 1
    {
      hide Flatten, LineEnds, Ascending, OmissionNotice, SumSizes, SumLens;
      progressSeq := progressSeq + 1;
      PushEvent(RetainedEnd(), OmissionNotice());
      ghost var notice := Event(RetainedEnd(), OmissionNotice());
      assert events[|events| - 1] == notice && IsOmission(notice);
      CountOneMore(old(events), notice);
    }

    predicate HasOmissionNotice()
      reads this
    {
      HasOmission(events)
    }

    /** `head_omission_notice_reserve_locked`. */
    function OmissionReserve(): nat
      reads this
    {
      if HasOmissionNotice() then 0
      else if OMISSION_SIZE <= capacity then OMISSION_SIZE
      else 0
    }

    /** Makes room by dropping input echoes, announcing that any were dropped. */
    method DropEchoesAnnounced(needed: nat, room: nat)
      requires Valid() && retention.Head?
      modifies this
      ensures Valid() && endOffset == old(endOffset) && startOffset == old(startOffset)
      ensures Now() == GiveWay(old(Now()), startOffset, needed, room, capacity)
      ensures Flatten(chunks) <= old(Flatten(chunks))
      ensures Total() + needed <= room || !HasEcho(old(events)) || HasOmission(events) || OMISSION_SIZE > capacity
      ensures !HasEcho(old(events)) || old(Total()) + needed <= room ==> chunks == old(chunks) && events == old(events)
      ensures OMISSION_SIZE > capacity || old(HasOmission(events)) ==> chunks == old(chunks)
      ensures old(HasOmission(events)) ==> HasOmission(events)
      ensures OMISSION_SIZE <= capacity ==> HasOmission(events) || (chunks == old(chunks) && events == old(events))
      ensures CountOmissions(events) <= Max(old(CountOmissions(events)), 1)
    {
      hide Omit, SpareEchoes, TrimTail, Flatten, LineEnds, Ascending, SumSizes, SumLens, IsOmission;
      DropEchoesKeepsOthers(events, 0);
      HasOmissionIffCounted(events);
      var dropped := DropInputEchoesForRoom(needed, room);
      EchoDropKeepsValid(dropped);
      DropEchoesKeepsOmissions(old(events), dropped);
      DropEchoesKeepsOthers(old(events), dropped);
      HasOmissionIffCounted(events);
      if dropped > 0 {
        AppendOmissionNotice();
      }
    }

    /** Nothing retained can be trimmed any more while `incoming` bytes are offered. */
    ghost predicate Settled(incoming: nat)
      reads this
    {
      || Total() + incoming <= capacity
      || HasOmission(events)
      || OMISSION_SIZE > capacity
      || (!HasEcho(events) && Total() + OMISSION_SIZE <= capacity)
    }

    /** A refused ring says so: content may be missing only behind an omission notice. */
    twostate predicate LossAnnounced(keptAll: bool)
      reads this
    {
      && (OMISSION_SIZE <= capacity ==> HasOmission(events) || (keptAll && events == old(events)))
      && (old(HasOmission(events)) ==> HasOmission(events))
      && CountOmissions(events) <= Max(old(CountOmissions(events)), 1)
    }

    /** One locked section of `append_bytes_retaining_head`; `rest` more bytes follow `head`. */
    method AppendHeadChunk(head: seq<byte>, rest: nat, key: Key)
        returns (full: bool, kept: nat, ghost a: nat)
      requires Valid() && retention.Head? && head != []
      modifies this
      ensures Valid() && kept <= |head| && a <= |old(Flatten(chunks))|
      ensures startOffset == old(startOffset) && endOffset == old(endOffset) + kept
      ensures Turn(Now(), kept, full) == TakeSection(old(Now()), startOffset, old(endOffset), head, rest, key, capacity)
      ensures Flatten(chunks) == old(Flatten(chunks))[..a] + Cells(head[..kept], key)
      ensures old(Settled(|head| + rest)) ==> a == |old(Flatten(chunks))|
      ensures !full ==> kept == |head| && Settled(rest)
      ensures full && OMISSION_SIZE <= capacity ==> HasOmission(events)
      ensures LossAnnounced(a == |old(Flatten(chunks))| && kept == |head|)
      ensures old(Total()) + |head| + rest <= capacity ==>
                !full && events == old(events) && a == |old(Flatten(chunks))| && Total() == old(Total()) + |head|
    {
      hide TakeUsable, Omit, GiveWay, OmissionNotice, Flatten, LineEnds, Ascending, Tiles, Sorted, SumSizes, SumLens,
          Cells, HasOmission, CountOmissions, HasEcho;
      ghost var flat := Flatten(chunks);
      var incoming := |head| + rest;
      DropEchoesAnnounced(incoming, capacity);
      a := |Flatten(chunks)|;
      PrefixIs(Flatten(chunks), flat);
      if Total() + incoming <= capacity {
        FlattenSnoc(chunks, Chunk(endOffset, head, key));
        AppendChunk(head, key);
        WholeSlice(head);
        return false, |head|, a;
      }
      ghost var cut;
      full, kept, cut := AppendUsable(head, rest, key);
      PrefixOfPrefix(flat, a, cut);
      a := cut;
    }

    /** The rest of the section, when not everything fits: takes as much as fits next to a notice. */
    method AppendUsable(head: seq<byte>, rest: nat, key: Key) returns (full: bool, kept: nat, ghost a: nat)
      requires Valid() && retention.Head? && head != [] && capacity < Total() + |head| + rest
      modifies this
      ensures Valid() && kept <= |head| && a <= |old(Flatten(chunks))|
      ensures startOffset == old(startOffset) && endOffset == old(endOffset) + kept
      ensures Turn(Now(), kept, full) == TakeUsable(old(Now()), startOffset, old(endOffset), head, rest, key, capacity)
      ensures Flatten(chunks) == old(Flatten(chunks))[..a] + Cells(head[..kept], key)
      ensures old(Settled(|head| + rest)) ==> a == |old(Flatten(chunks))|
      ensures !full ==> kept == |head| && Settled(rest)
      ensures full && OMISSION_SIZE <= capacity ==> HasOmission(events)
      ensures LossAnnounced(a == |old(Flatten(chunks))| && kept == |head|)
    {
      hide Omit, GiveWay, OmissionNotice, Flatten, LineEnds, Ascending, Tiles, Sorted, SumSizes, SumLens, Cells,
          HasOmission, CountOmissions, HasEcho;
      ghost var flat := Flatten(chunks);
      var reserve := OmissionReserve();
      var effective := SaturatingSub(capacity, reserve);
      DropEchoesAnnounced(|head| + rest, effective);
      a := |Flatten(chunks)|;
      PrefixIs(Flatten(chunks), flat);
      var available := SaturatingSub(effective, Total());
      if available == 0 {
        AppendOmissionNotice();
        a := |Flatten(chunks)|;
        PrefixIs(Flatten(chunks), flat);
        NoCells(head, key);
        return true, 0, a;
      }
      kept := Min(|head|, available);
      WholeSlice(head);
      FlattenSnoc(chunks, Chunk(endOffset, head[..kept], key));
      AppendChunk(head[..kept], key);
      full := kept < |head|;
      if full {
        AppendOmissionNotice();
      }
    }

    /**
      `append_bytes_retaining_head`: what survives is a prefix of what was
      retained followed by a prefix of what was offered.
     */
    method AppendBytesRetainingHead(bytes: seq<byte>, key: Key) returns (ghost a: nat, ghost b: nat)
      requires Valid() && retention.Head?
      modifies this
      ensures Valid() && a <= |old(Flatten(chunks))| && b <= |bytes|
      ensures var len := AppendChunkLen(capacity);
              var t := TakeInSections(old(Now()), old(startOffset), old(endOffset), bytes, key, len, capacity);
              Now() == t.left && b == t.taken
      ensures Flatten(chunks) == old(Flatten(chunks))[..a] + Cells(bytes[..b], key)
      ensures LossAnnounced(a == |old(Flatten(chunks))| && b == |bytes|)
      ensures old(Total()) + |bytes| <= capacity ==>
                events == old(events) && a == |old(Flatten(chunks))| && b == |bytes|
    {
      hide Owes, TakeSection, TakeInSections, Settled, Flatten, LineEnds, Ascending, Tiles, Sorted, SumSizes, SumLens,
          Cells, HasOmission, CountOmissions, HasEcho;
      ghost var flat := Flatten(chunks);
      a, b := |flat|, 0;
      var done := 0;
      var maxChunkLen := AppendChunkLen(capacity);
      var full := false;
      NoCells(bytes, key);
      WholeSlice(flat);
      ghost var whole := TakeInSections(Now(), startOffset, endOffset, bytes, key, maxChunkLen, capacity);
      OwesAll(Now(), startOffset, endOffset, bytes, key, maxChunkLen, capacity);
      HasOmissionIffCounted(events);
      while done < |bytes| && !full
        invariant done <= |bytes| && Valid() && a <= |flat|
        invariant b <= |bytes| && (!full ==> b == done) && startOffset == old(startOffset)
        invariant Owes(whole, Now(), startOffset, endOffset, bytes, done, b, full, key, maxChunkLen, capacity)
        invariant Flatten(chunks) == flat[..a] + Cells(bytes[..b], key)
        invariant done == 0 ==> chunks == old(chunks) && a == |flat|
        invariant 0 < done < |bytes| && !full ==> Settled(|bytes| - done)
        invariant LossAnnounced(a == |flat| && (full ==> b == |bytes|))
        invariant full && OMISSION_SIZE <= capacity ==> HasOmission(events)
        invariant old(Total()) + |bytes| <= capacity ==>
                    !full && events == old(events) && a == |flat| && Total() == old(Total()) + done
      {
        var chunkLen := Min(|bytes| - done, maxChunkLen);
        var head := bytes[done..done + chunkLen];
        ghost var kept, cut;
        ghost var first := done == 0;
        OwesNext(whole, Now(), startOffset, endOffset, bytes, done, key, maxChunkLen, capacity);
        full, kept, cut := AppendHeadChunk(head, |bytes| - done - chunkLen, key);
        JoinPrefixes(flat, bytes, key, a, done, chunkLen, kept, cut);
        a := if first then cut else a;
        b := done + kept;
        done := done + chunkLen;
      }
      OwesNothing(whole, Now(), startOffset, endOffset, bytes, done, b, full, key, maxChunkLen, capacity);
    }

    /** `append_visible_event` and `append_input_echo_event` under the Head policy. */
    method AppendEventRetainingHead(kind: EventKind) returns (accepted: bool, ghost before: seq<Event>)
      requires Valid() && retention.Head? && !kind.IsMarker()
      modifies this
      ensures Valid() && Flatten(chunks) <= old(Flatten(chunks))
      ensures events == if accepted then before + [Event(endOffset, kind)] else before
      ensures Offer(accepted, Kept(chunks, before)) == OfferEvent(old(Now()), startOffset, kind, capacity)
      ensures startOffset == old(startOffset) && endOffset == old(endOffset)
      ensures old(Total()) + EventSize(kind) <= capacity && (kind.InputEcho? ==> !old(HasOmission(events))) ==>
                accepted && before == old(events) && chunks == old(chunks)
      ensures OMISSION_SIZE <= capacity ==>
                HasOmission(events) || (accepted && before == old(events) && chunks == old(chunks))
      ensures old(HasOmission(events)) ==> HasOmission(before)
      ensures CountOmissions(before) <= Max(old(CountOmissions(events)), 1)
      ensures CountOmissions(events) ==
                CountOmissions(before) + (if accepted && IsOmission(Event(endOffset, kind)) then 1 else 0)
    {
      hide Omit, OfferVisible, OmissionNotice, Flatten, LineEnds, Ascending, Tiles, Sorted, SumSizes, SumLens,
          EventSize, IsOmission, CountOmissions;
      progressSeq := progressSeq + 1;
      accepted := true;
      EventWithRoom(Now(), startOffset, kind, capacity);
      var size := EventSize(kind);
      HasOmissionIffCounted(events);
      if size > capacity {
        AppendOmissionNotice();
        accepted := false;
      } else if kind.InputEcho? {
        if HasOmissionNotice() {
          accepted := false;
        } else if Total() + size > capacity {
          AppendOmissionNotice();
          accepted := false;
        }
      } else {
        accepted := MakeRoomForVisible(size);
      }
      before := events;
      HasOmissionIffCounted(events);
      AscendingBounds(chunks, startOffset, endOffset);
      if accepted {
        PushEvent(Max(endOffset, startOffset), kind);
        ghost var event := Event(endOffset, kind);
        CountOneMore(before, event);
        KeepsOmission(before, event);
      }
    }

    /** Makes room for a visible event by dropping input echoes, or leaves a notice instead of it. */
    method MakeRoomForVisible(size: nat) returns (fits: bool)
      requires Valid() && retention.Head? && size <= capacity
      modifies this
      ensures Valid() && startOffset == old(startOffset) && endOffset == old(endOffset)
      ensures Flatten(chunks) <= old(Flatten(chunks))
      ensures Offer(fits, Now()) == OfferVisible(old(Now()), startOffset, size, capacity)
      ensures fits ==> Total() + size <= capacity
      ensures LossAnnounced(fits && chunks == old(chunks))
    {
      hide Omit, GiveWay, OmissionNotice, Flatten, LineEnds, Ascending, Tiles, Sorted, SumSizes, SumLens, HasEcho,
          HasOmission, CountOmissions;
      fits := true;
      DropEchoesAnnounced(size, capacity);
      if Total() + size > capacity {
        var effective := SaturatingSub(capacity, OmissionReserve());
        DropEchoesAnnounced(size, effective);
        if Total() + size > effective {
          AppendOmissionNotice();
          fits := false;
        }
      }
    }

    /** `append_marker_event`: markers weigh nothing and are always accepted. */
    method AppendMarkerEvent(kind: EventKind)
      requires Valid() && kind.IsMarker()
      modifies this
      ensures Valid() && events == old(events) + [Event(endOffset, kind)]
      ensures chunks == old(chunks) && startOffset == old(startOffset) && endOffset == old(endOffset) && log == old(log)
    {
      hide Flatten, LineEnds, SumSizes, SumLens, Sorted, Tiles;
      progressSeq := progressSeq + 1;
      AscendingBounds(chunks, startOffset, endOffset);
      PushEvent(Max(endOffset, startOffset), kind);
    }

    /** `reset`. */
    method Reset()
      requires Valid()
      modifies this
      ensures Valid() && chunks == [] && events == [] && startOffset == endOffset == progressSeq == 0 && log == []
    {
      chunks, lineEnds, events := [], [], [];
      startOffset, endOffset := 0, 0;
      bufferedBytes, bufferedEventBytes := 0, 0;
      progressSeq := 0;
      log := [];
    }

    // ----- reading and consuming

    /**
      `read_range`: the retained bytes of [s, e) in offset order with the maximal
      runs that label them.  Under the Tail policy that is a slice of the log.
     */
    method ReadRange(s: nat, e: nat) returns (range: OutputRange, ghost cells: seq<Cell>)
      requires Valid()
      ensures range.start == Max(s, startOffset) && range.end == Min(e, endOffset)
      ensures cells == Flatten(Clip(chunks, range.start, range.end))
      ensures range.bytes == BytesOf(cells) && range.spans == Runs(cells)
      ensures range.events == if range.start <= range.end then EventsIn(events, range.start, range.end) else []
      ensures retention.Tail? && range.start <= range.end ==> cells == log[range.start..range.end]
    {
      hide Clip, Flatten, Runs, BytesOf, EventsIn, Ascending, Tiles, LineEnds;
      var from, until := Max(s, startOffset), Min(e, endOffset);
      var slices := CollectSlices(chunks, startOffset, endOffset, from, until);
      var bytes, spans := AssembleSlices(slices);
      var evs := CollectEvents(events, from, until);
      cells := Flatten(slices);
      range := OutputRange(from, until, bytes, evs, spans);
      if retention.Tail? && from <= until {
        ClipTiles(chunks, startOffset, endOffset, from, until);
        SliceDrop(log, startOffset, from - startOffset, until - startOffset);
      }
    }

    /** `saw_stderr_in_range`: whether any retained byte of [s, e) was written to stderr. */
    method SawStderrInRange(s: nat, e: nat) returns (saw: bool)
      requires Valid()
      ensures saw <==> HasStderr(Flatten(Clip(chunks, Max(s, startOffset), Min(e, endOffset))))
      ensures var from, until := Max(s, startOffset), Min(e, endOffset);
              retention.Tail? && from <= until ==> (saw <==> HasStderr(log[from..until]))
    {
      hide Clip, Flatten, HasStderr, Ascending, Tiles, LineEnds;
      var from, until := Max(s, startOffset), Min(e, endOffset);
      if from >= until {
        ClipEmptyRange(chunks, from, until);
        NoStderrYet(from, until);
        ClipNone(from, until);
      }
      if retention.Tail? && from <= until {
        ClipTiles(chunks, startOffset, endOffset, from, until);
        SliceDrop(log, startOffset, from - startOffset, until - startOffset);
      }
      if s >= until {
        return false;
      }
      saw := SawStderr(chunks, startOffset, endOffset, from, until);
    }

    /** `consume_to`. */
    method ConsumeTo(target: nat)
      requires Valid()
      modifies `chunks, `startOffset, `bufferedBytes, `lineEnds, `events, `bufferedEventBytes
      ensures Valid() && startOffset >= old(startOffset)
      ensures Min(target, endOffset) >= old(startOffset) ==>
                startOffset == Min(target, endOffset)
                && chunks == DropTo(old(chunks), startOffset) && events == DropEventsBelow(old(events), startOffset + 1)
      ensures Min(target, endOffset) < old(startOffset) ==> chunks == old(chunks) && events == old(events)
    {
      hide DropTo, DropEventsBelow, SumLens, SumSizes, LineEnds, Sorted, Tiles, Flatten;
      var offset := Min(target, endOffset);
      if offset < startOffset {
        return;
      }
      if offset == startOffset {
        DropToNothing(chunks, startOffset, endOffset);
        DropToLineEnds(chunks, startOffset, endOffset, startOffset);
        DropEventsBelowSize(events, startOffset + 1);
        if retention.Tail? {
          DropEventsBelowSorted(events, startOffset, endOffset, startOffset, startOffset + 1);
        }
        CleanupFront();
        return;
      }
      TrimToOffset(offset);
    }

    /** `consume_to_with_boundary_events`. */
    method ConsumeToWithBoundaryEvents(target: nat, n: nat)
      requires Valid()
      modifies `chunks, `startOffset, `bufferedBytes, `lineEnds, `events, `bufferedEventBytes
      ensures Valid()
      ensures Min(target, endOffset) < old(startOffset) ==>
                startOffset == old(startOffset) && chunks == old(chunks) && events == old(events)
      ensures Min(target, endOffset) >= old(startOffset) ==>
                startOffset == Min(target, endOffset)
                && chunks == DropTo(old(chunks), startOffset)
                && events == DropEventsAt(DropEventsBelow(old(events), startOffset), startOffset, n)
    {
      var offset := Min(target, endOffset);
      if offset < startOffset {
        return;
      }
      TrimToOffsetConsumingBoundaryEvents(offset, n);
    }

    /** `append_bytes_with_source`. */
    method AppendBytes(bytes: seq<byte>, key: Key) returns (ghost report: Report)
      requires Valid() && capacity > 0
      modifies this
      ensures Valid()
      ensures report.TailReport? <==> retention.Tail?
      ensures report.TailReport? ==>
                && log == old(log) + Cells(bytes, key) && Reported(events, report.left, report.echoes, 0)
                && KeepsOf(AppendInSections(old(Now()), old(endOffset), bytes, key, AppendChunkLen(capacity), capacity),
                           report.left, 0)
      ensures report.HeadReport? ==>
                && report.kept <= |old(Flatten(chunks))| && report.taken <= |bytes|
                && Flatten(chunks) == old(Flatten(chunks))[..report.kept] + Cells(bytes[..report.taken], key)
                && LossAnnounced(report.kept == |old(Flatten(chunks))| && report.taken == |bytes|)
                && var len := AppendChunkLen(capacity);
                   var t := TakeInSections(old(Now()), old(startOffset), old(endOffset), bytes, key, len, capacity);
                   Now() == t.left && report.taken == t.taken
      ensures report.HeadReport? && old(Total()) + |bytes| <= capacity ==>
                events == old(events) && report.kept == |old(Flatten(chunks))| && report.taken == |bytes|
      ensures retention.Tail? && capacity > 1 && old(Total()) + |bytes| <= capacity ==>
                startOffset == old(startOffset) && events == old(events)
      ensures bytes == [] ==> startOffset == old(startOffset) && events == old(events) && chunks == old(chunks)
    {
      hide MakeRoom, AppendInSections, TakeSection, Cells, DropEchoes, NonEcho, Flatten, LineEnds, SumSizes, SumLens,
          Ascending, Tiles, Sorted;
      if bytes == [] {
        NoMoreSections(Now(), endOffset, bytes, key, AppendChunkLen(capacity), capacity);
        assert bytes[|bytes|..] == bytes;
        NothingAppended(log, Flatten(chunks), bytes, key);
        NothingLeft(events, startOffset);
        HasOmissionIffCounted(events);
        return if retention.Tail? then TailReport(events, 0) else HeadReport(|Flatten(chunks)|, 0);
      }
      progressSeq := progressSeq + 1;
      match retention {
        case Tail =>
          ghost var left, echoes := AppendBytesRetainingTail(bytes, key);
          report := TailReport(left, echoes);
        case Head =>
          ghost var a, b := AppendBytesRetainingHead(bytes, key);
          report := HeadReport(a, b);
      }
    }

    /** `append_materialized_event`. */
    method AppendEvent(kind: EventKind) returns (ghost accepted: bool, ghost before: seq<Event>, ghost report: Report)
      requires Valid()
      modifies this
      ensures Valid()
      ensures report.TailReport? <==> retention.Tail?
      ensures events == if accepted then before + [Event(endOffset, kind)] else before
      ensures kind.IsMarker() ==>
                accepted && before == old(events) && chunks == old(chunks) && startOffset == old(startOffset)
      ensures report.TailReport? ==>
                && log == old(log) && endOffset == old(endOffset)
                && Reported(before, report.left, report.echoes, EventSize(kind))
                && (kind.InputEcho? ==>
                      !Lost(report.left) && EchoTurn(EventSize(kind), accepted, report.left) && chunks == old(chunks))
                && (accepted && !kind.InputEcho? && !kind.IsMarker() ==>
                      KeepsOf(MakeRoom(old(Now()), EventSize(kind), capacity), report.left, EventSize(kind)))
                && (!kind.InputEcho? ==> accepted == (kind.IsMarker() || EventSize(kind) <= capacity))
                && (!accepted && !kind.InputEcho? ==> events == old(events) && startOffset == old(startOffset))
      ensures report.HeadReport? ==>
                && Flatten(chunks) <= old(Flatten(chunks))
                && (OMISSION_SIZE <= capacity ==>
                      HasOmission(events) || (accepted && before == old(events) && chunks == old(chunks)))
                && CountOmissions(before) <= Max(old(CountOmissions(events)), 1)
                && (!kind.IsMarker() ==>
                      Offer(accepted, Kept(chunks, before)) == OfferEvent(old(Now()), startOffset, kind, capacity))
                && startOffset == old(startOffset) && endOffset == old(endOffset)
      ensures retention.Head? && old(Total()) + EventSize(kind) <= capacity
              && (kind.InputEcho? ==> !old(HasOmission(events))) ==>
                chunks == old(chunks) && events == old(events) + [Event(endOffset, kind)]
      ensures retention.Tail? && old(Total()) + EventSize(kind) <= capacity
              && (kind.IsMarker() || EventSize(kind) < capacity) ==>
                startOffset == old(startOffset) && events == old(events) + [Event(endOffset, kind)]
    {
      hide MakeRoom, OfferEvent, DropEchoes, NonEcho, TruncationNotice, Flatten, LineEnds, SumSizes, SumLens, Ascending,
          Tiles, Sorted, EventSize;
      HasOmissionIffCounted(events);
      NothingLeft(events, startOffset);
      before := events;
      report := if retention.Tail? then TailReport(events, 0) else HeadReport(0, 0);
      if kind.IsMarker() {
        AppendMarkerEvent(kind);
        accepted := true;
      } else {
        match retention {
          case Tail =>
            ghost var left, echoes;
            accepted, before, left, echoes := AppendEventRetainingTail(kind);
            report := TailReport(left, echoes);
          case Head => accepted, before := AppendEventRetainingHead(kind);
        }
      }
    }
  }

  /**
    The notice is left out when it does not fit next to the event: in a full ring of
    70 bytes, an event that weighs 26 evicts output and announces nothing.
   */
  method LossWithoutNotice(key: Key) returns (ring: Ring)
    ensures ring.Valid() && ring.retention.Tail? && |ring.log| == 70 && ring.startOffset > 0
    ensures exists kind: EventKind :: ring.events == [Event(70, kind)] && EventSize(kind) == 26
  {
    hide Cells, DropEchoes, Flatten, LineEnds, Ascending, Tiles, Sorted, TruncationNotice, LeftOf;
    ring := new Ring(70, Retention.Tail);
    var text := seq(70, _ => 97 as byte);
    ghost var report := ring.AppendBytes(text, key);
    assert |ring.log| == 70 && ring.events == [] && ring.startOffset == 0;
    var kind := TextEvent(seq(10, _ => 98 as byte), false, Worker);
    label full:
    ghost var accepted, before;
    accepted, before, report := ring.AppendEvent(kind);
    assert ring.log == old@full(ring.log);
    FewBytesLeft(ring, before, kind);
    ReportedLoss(report.left, ring.startOffset, report.echoes);
  }

  /** A ring that holds the event cannot hold all the bytes. */
  lemma FewBytesLeft(ring: Ring, before: seq<Event>, kind: EventKind)
    requires ring.Valid() && ring.retention.Tail? && ring.capacity == 70 && |ring.log| == 70
    requires ring.events == before + [Event(ring.endOffset, kind)] && EventSize(kind) == 26
    ensures ring.startOffset > 0 && ring.endOffset == 70
  {
    hide Flatten, LineEnds, Ascending, Sorted, EventSize;
    SumSizesConcat(before, [Event(ring.endOffset, kind)]);
    assert [Event(ring.endOffset, kind)][1..] == [];
    FlattenLength(ring.chunks);
  }

  lemma ReportedLoss(left: seq<Event>, start: nat, echoes: nat)
    requires start > 0 && LeftOf([], 0, left, start, true, echoes)
    ensures left == []
  {
  }

  lemma NothingAppended(log: seq<Cell>, flat: seq<Cell>, bytes: seq<byte>, key: Key)
    requires bytes == []
    ensures log == log + Cells(bytes, key) && flat == flat[..|flat|] + Cells(bytes[..0], key)
  {
    assert Cells(bytes, key) == [];
  }
}
