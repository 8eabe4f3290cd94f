/**
  `PendingOutputTape`: the side buffer, a Tail ring and the drain cursor working
  together, and what a client finally sees of a worker's raw standard output.
 */
module Tape {
  import opened Sequences
  import opened Utf8
  import opened Timeline
  import opened RingScans
  import opened Rendering
  import opened StreamRendering
  import opened Delivery
  import opened OutputRing
  import opened SideBuffer
  import opened Drain

  // ----- from the side buffer into the ring

  function ReadyTokens(ready: seq<Ready>): seq<Token> {
    if ready == [] then []
    else
      ReadyTokens(ready[..|ready| - 1]) +
      match ready[|ready| - 1]
      case ReadyText(key, bytes) => CellTokens(Cells(bytes, key))
      case ReadyEvent(kind) => [E(kind)]
  }

  /** The bytes that reach the ring, whether or not something is evicted for them. */
  function ReadyCells(ready: seq<Ready>): seq<Cell> {
    if ready == [] then []
    else
      ReadyCells(ready[..|ready| - 1]) +
      match ready[|ready| - 1]
      case ReadyText(key, bytes) => Cells(bytes, key)
      case ReadyEvent(_) => []
  }

  function ReadySize(ready: seq<Ready>): nat {
    if ready == [] then 0
    else
      ReadySize(ready[..|ready| - 1]) +
      match ready[|ready| - 1]
      case ReadyText(_, bytes) => |bytes|
      case ReadyEvent(kind) => EventSize(kind)
  }

  lemma {:induction false} ReadySizeOfPrefix(ready: seq<Ready>, i: nat)
    requires i <= |ready|
    ensures ReadySize(ready[..i]) <= ReadySize(ready)
    decreases |ready|
  {
    if i < |ready| {
      var front := ready[..|ready| - 1];
      ReadySizeOfPrefix(front, i);
      assert front[..i] == ready[..i];
    } else {
      assert ready[..i] == ready;
    }
  }

  class OutputTimeline {
    const ring: Ring
    const tails: Utf8Tails

    ghost predicate Valid()
      reads this, ring, tails
    {
      ring.Valid() && ring.retention.Tail? && ring.capacity > 0 && tails.Valid()
    }

    constructor (capacity: nat)
      requires capacity > 0
      ensures Valid() && fresh(ring) && fresh(tails) && ring.capacity == capacity
      ensures ring.log == [] && ring.events == [] && ring.startOffset == 0 && ring.chunks == [] && tails.entries == []
    {
      ring := new Ring(capacity, Retention.Tail);
      tails := new Utf8Tails();
    }

    /** `append_pending_locked`: with room for it, what is ready becomes the end of the stream. */
    method AppendPending(ready: seq<Ready>)
      requires Valid()
      modifies ring
      ensures Valid() && ring.log == old(ring.log) + ReadyCells(ready)
      ensures old(ring.Total()) + ReadySize(ready) < ring.capacity ==>
                && ring.startOffset == old(ring.startOffset)
                && ViewOf(ring).Stream() == old(ViewOf(ring)).Stream() + ReadyTokens(ready)
                && ring.Total() == old(ring.Total()) + ReadySize(ready)
    {
      hide Tokens, CellTokens, Cells, EventSize, Flatten, Tiles, Sorted, Ascending, LineEnds, SumSizes, SumLens;
      var i := 0;
      assert ready[..0] == [];
      assert ViewOf(ring).Stream() + [] == ViewOf(ring).Stream() && ring.log + [] == ring.log;
      while i < |ready|
        invariant i <= |ready| && Valid()
        invariant ring.log == old(ring.log) + ReadyCells(ready[..i])
        invariant old(ring.Total()) + ReadySize(ready) < ring.capacity ==>
                    && ring.startOffset == old(ring.startOffset)
                    && ViewOf(ring).Stream() == old(ViewOf(ring)).Stream() + ReadyTokens(ready[..i])
                    && ring.Total() == old(ring.Total()) + ReadySize(ready[..i])
      {
        assert ready[..i + 1][..i] == ready[..i];
        ReadySizeOfPrefix(ready, i + 1);
        ghost var stream, cells := ReadyTokens(ready[..i]), ReadyCells(ready[..i]);
        match ready[i] {
          case ReadyText(key, bytes) =>
            Assoc3(old(ViewOf(ring)).Stream(), stream, CellTokens(Cells(bytes, key)));
            Assoc3(old(ring.log), cells, Cells(bytes, key));
            AppendTextToRing(bytes, key);
          case ReadyEvent(kind) =>
            Assoc3(old(ViewOf(ring)).Stream(), stream, [E(kind)]);
            Assoc3(old(ring.log), cells, []);
            assert ring.log + [] == ring.log;
            AppendEventToRing(kind);
        }
        i := i + 1;
      }
      assert ready[..|ready|] == ready;
    }

    method AppendTextToRing(bytes: seq<byte>, key: Key)
      requires Valid()
      modifies ring
      ensures Valid() && ring.log == old(ring.log) + Cells(bytes, key)
      ensures old(ring.Total()) + |bytes| < ring.capacity ==>
                && ring.startOffset == old(ring.startOffset)
                && ViewOf(ring).Stream() == old(ViewOf(ring)).Stream() + CellTokens(Cells(bytes, key))
                && ring.Total() == old(ring.Total()) + |bytes|
    {
      hide Tokens, CellTokens, Cells, Flatten, Tiles, Ascending, LineEnds, SumSizes, SumLens;
      ghost var v := ViewOf(ring);
      TailTotal(ring);
      ghost var _ := ring.AppendBytes(bytes, key);
      if old(ring.Total()) + |bytes| < ring.capacity && bytes != [] {
        DropIntoFirst(old(ring.log), Cells(bytes, key), v.start);
        TokensGrow(v.cells, v.events, v.start, Cells(bytes, key));
        TailTotal(ring);
      } else if bytes == [] {
        assert Cells(bytes, key) == [] && CellTokens([]) == [];
        assert v.Stream() + [] == v.Stream();
        TailTotal(ring);
        assert old(ring.log) + [] == old(ring.log);
      }
    }

    method AppendEventToRing(kind: EventKind)
      requires Valid()
      modifies ring
      ensures Valid() && ring.log == old(ring.log)
      ensures old(ring.Total()) + EventSize(kind) < ring.capacity ==>
                && ring.startOffset == old(ring.startOffset)
                && ViewOf(ring).Stream() == old(ViewOf(ring)).Stream() + [E(kind)]
                && ring.Total() == old(ring.Total()) + EventSize(kind)
    {
      hide Tokens, EventSize, Flatten, Tiles, Ascending, LineEnds, SumLens;
      ghost var v := ViewOf(ring);
      TailTotal(ring);
      ghost var s := System(v, Idle, v.Stream(), []);
      assert [] + v.Stream() == v.Stream();
      SumSizesConcat(ring.events, [Event(ring.endOffset, kind)]);
      assert [Event(ring.endOffset, kind)][1..] == [];
      ghost var _, _, _ := ring.AppendEvent(kind);
      if old(ring.Total()) + EventSize(kind) < ring.capacity {
        ghost var t := s.(ring := v.(events := v.events + [Event(v.End(), kind)]), appended := s.appended + [E(kind)]);
        AppendEventKeeps(s, kind, t);
        assert ViewOf(ring) == t.ring;
        assert [] + t.ring.Stream() == t.ring.Stream();
        TailTotal(ring);
      }
    }

    /** `append_text_with_source`. */
    method AppendText(bytes: seq<byte>, key: Key, isContinuation: bool) returns (ghost ready: seq<Ready>, ghost i: nat)
      requires Valid()
      modifies ring, tails
      ensures Valid() && ring.log == old(ring.log) + ReadyCells(ready)
      ensures bytes == [] ==> ready == [] && tails.entries == old(tails.entries)
      ensures bytes != [] ==>
                FoundAt(old(tails.entries), i, key)
                && var placed := Placed(old(tails.entries), i, key, bytes, isContinuation || key.source.Raw?);
                   var split := SplitBounded(placed, ring.capacity);
                   ready == MaterializeAll(split.leaving) && tails.entries == split.staying
      ensures old(ring.Total()) + ReadySize(ready) < ring.capacity ==>
                && ring.startOffset == old(ring.startOffset)
                && ViewOf(ring).Stream() == old(ViewOf(ring)).Stream() + ReadyTokens(ready)
                && ring.Total() == old(ring.Total()) + ReadySize(ready)
    {
      var pending;
      pending, i := tails.Push(key, bytes, isContinuation || key.source.Raw?, ring.capacity);
      ready := pending;
      AppendPending(pending);
    }

    /** `append_event`. */
    method AppendEvent(kind: EventKind) returns (ghost ready: seq<Ready>)
      requires Valid()
      modifies ring, tails
      ensures Valid() && ring.log == old(ring.log) + ReadyCells(ready)
      ensures var split := SplitBounded(old(tails.entries) + [PendingEvent(kind)], ring.capacity);
              ready == MaterializeAll(split.leaving) && tails.entries == split.staying
      ensures old(ring.Total()) + ReadySize(ready) < ring.capacity ==>
                && ring.startOffset == old(ring.startOffset)
                && ViewOf(ring).Stream() == old(ViewOf(ring)).Stream() + ReadyTokens(ready)
                && ring.Total() == old(ring.Total()) + ReadySize(ready)
    {
      var pending := tails.PushEvent(kind, ring.capacity);
      ready := pending;
      AppendPending(pending);
    }

    /** `seal_utf8_tails`. */
    method SealUtf8Tails() returns (ghost ready: seq<Ready>)
      requires Valid()
      modifies ring, tails
      ensures ring.log == old(ring.log) + ReadyCells(ready)
      ensures Valid() && tails.entries == [] && ready == MaterializeAll(CloseAll(old(tails.entries)))
      ensures old(ring.Total()) + ReadySize(ready) < ring.capacity ==>
                && ring.startOffset == old(ring.startOffset)
                && ViewOf(ring).Stream() == old(ViewOf(ring)).Stream() + ReadyTokens(ready)
                && ring.Total() == old(ring.Total()) + ReadySize(ready)
    {
      var pending := tails.Drain();
      ready := pending;
      AppendPending(pending);
    }

    /** `seal_utf8_tails_blocking_visible_output`. */
    method SealUtf8TailsBlockingVisibleOutput() returns (ghost ready: seq<Ready>)
      requires Valid()
      modifies ring, tails
      ensures Valid() && ring.log == old(ring.log) + ReadyCells(ready)
      ensures ready == MaterializeAll(SplitGaps(old(tails.entries)).leaving)
      ensures tails.entries == SplitGaps(old(tails.entries)).staying
      ensures old(ring.Total()) + ReadySize(ready) < ring.capacity ==>
                && ring.startOffset == old(ring.startOffset)
                && ViewOf(ring).Stream() == old(ViewOf(ring)).Stream() + ReadyTokens(ready)
                && ring.Total() == old(ring.Total()) + ReadySize(ready)
    {
      var pending := tails.DrainReadyAfterVisibleGaps();
      ready := pending;
      AppendPending(pending);
    }
  }

  /** The weight of a Tail ring is its retained bytes and events. */
  lemma TailTotal(ring: Ring)
    requires ring.Valid() && ring.retention.Tail?
    ensures ring.Total() == |ViewOf(ring).cells| + SumSizes(ring.events)
  {
    TilesAscend(ring.chunks, ring.startOffset, ring.endOffset);
  }
}
