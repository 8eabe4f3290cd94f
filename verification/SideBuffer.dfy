/**
  `OutputUtf8Tails`: the queue in front of the ring.  Text that ends inside a
  UTF-8 sequence blocks everything behind it until its stream completes the
  sequence, or until it is sealed, which escapes the incomplete bytes.
 */
module SideBuffer {
  import opened Sequences
  import opened Utf8
  import opened Timeline

  datatype Entry =
    | PendingText(key: Key, bytes: seq<byte>, closed: bool)
    | PendingEvent(kind: EventKind)
  {
    predicate IsMarker() {
      PendingEvent? && kind.IsMarker()
    }

    /** Unsealed text that ends inside a sequence. */
    predicate Open() {
      PendingText? && !closed && Flushable(bytes) < |bytes|
    }

    /** Leaves as it is when it reaches the front. */
    predicate Passes() {
      PendingEvent? || closed || (bytes != [] && Flushable(bytes) == |bytes|)
    }

    function Size(): nat {
      match this
      case PendingText(_, bytes, _) => |bytes|
      case PendingEvent(kind) => EventSize(kind)
    }
  }

  /** What leaves for the ring. */
  datatype Ready = ReadyText(key: Key, bytes: seq<byte>) | ReadyEvent(kind: EventKind)

  /** Sealed text leaves with its incomplete tail escaped, other text as it is. */
  function Materialize(e: Entry): Ready {
    match e
    case PendingText(key, bytes, closed) => ReadyText(key, if closed then EscapeTail(bytes) else bytes)
    case PendingEvent(kind) => ReadyEvent(kind)
  }

  function MaterializeAll(es: seq<Entry>): seq<Ready> {
    if es == [] then [] else [Materialize(es[0])] + MaterializeAll(es[1..])
  }

  lemma {:induction false} MaterializeConcat(a: seq<Entry>, b: seq<Entry>)
    ensures MaterializeAll(a + b) == MaterializeAll(a) + MaterializeAll(b)
  {
    hide Materialize;
    if a == [] {
      assert a + b == b;
    } else {
      MaterializeConcat(a[1..], b);
      assert (a + b)[1..] == a[1..] + b;
      Assoc3([Materialize(a[0])], MaterializeAll(a[1..]), MaterializeAll(b));
    }
  }

  /** Leaving the side buffer never changes what text will look like. */
  lemma MaterializeRendersSame(e: Entry)
    requires e.PendingText?
    ensures Render(Materialize(e).bytes) == Render(e.bytes)
  {
    SealingCommutesWithRendering(e.bytes);
  }

  // ----- draining

  /** What leaves, as it was queued, and what stays. */
  datatype Split = Split(leaving: seq<Entry>, staying: seq<Entry>)

  function Leave(first: Entry, rest: Split): Split {
    Split([first] + rest.leaving, rest.staying)
  }

  /** The complete part of an open front, and its incomplete rest. */
  function CompletePart(e: Entry): Entry
    requires e.PendingText?
  {
    PendingText(e.key, e.bytes[..Flushable(e.bytes)], false)
  }

  function OpenPart(e: Entry, closed: bool): Entry
    requires e.PendingText?
  {
    PendingText(e.key, e.bytes[Flushable(e.bytes)..], closed)
  }

  /** `drain_ready`. */
  function SplitReady(es: seq<Entry>): Split {
    if es == [] then Split([], [])
    else if es[0].Passes() then
      Leave(es[0], SplitReady(es[1..]))
    else if Flushable(es[0].bytes) == 0 then Split([], es)
    else Split([CompletePart(es[0])], [OpenPart(es[0], false)] + es[1..])
  }

  predicate HasVisible(es: seq<Entry>) {
    exists i :: 0 <= i < |es| && !es[i].IsMarker()
  }

  /** `drain_ready_after_visible_gaps`: seals a blocking front that has visible entries behind it. */
  function SplitGaps(es: seq<Entry>): Split
    decreases |es|
  {
    if es == [] then Split([], [])
    else if es[0].Passes() then
      Leave(es[0], SplitGaps(es[1..]))
    else if !HasVisible(es[1..]) then
      if Flushable(es[0].bytes) == 0 then Split([], es)
      else Split([CompletePart(es[0])], [OpenPart(es[0], false)] + es[1..])
    else if Flushable(es[0].bytes) == 0 then
      Leave(es[0].(closed := true), SplitGaps(es[1..]))
    else
      Leave(CompletePart(es[0]), Leave(OpenPart(es[0], true), SplitGaps(es[1..])))
  }

  /** `blocked_side_buffer_bytes`. */
  function BlockedBytes(es: seq<Entry>): nat {
    if es == [] || !es[0].Open() then 0 else SumEntries(es[1..])
  }

  function SumEntries(es: seq<Entry>): nat {
    if es == [] then 0 else es[0].Size() + SumEntries(es[1..])
  }

  /** `drain_ready_bounded`. */
  function SplitBounded(es: seq<Entry>, capacity: nat): Split {
    var ready := SplitReady(es);
    if BlockedBytes(ready.staying) > capacity
    then var more := SplitGaps(ready.staying); Split(ready.leaving + more.leaving, more.staying)
    else ready
  }

  // ----- nothing is lost, added or reordered

  function KeyBytes(es: seq<Entry>, key: Key): seq<byte> {
    if es == [] then []
    else if es[0].PendingText? && es[0].key == key then es[0].bytes + KeyBytes(es[1..], key)
    else KeyBytes(es[1..], key)
  }

  function Events(es: seq<Entry>): seq<EventKind> {
    if es == [] then []
    else if es[0].PendingEvent? then [es[0].kind] + Events(es[1..])
    else Events(es[1..])
  }

  /** Per stream the same bytes in the same order, and the same events in the same order. */
  ghost predicate SameContent(a: seq<Entry>, b: seq<Entry>) {
    Events(a) == Events(b) && forall key :: KeyBytes(a, key) == KeyBytes(b, key)
  }

  lemma {:induction false} KeyBytesConcat(a: seq<Entry>, b: seq<Entry>, key: Key)
    ensures KeyBytes(a + b, key) == KeyBytes(a, key) + KeyBytes(b, key)
  {
    if a == [] {
      assert a + b == b;
    } else {
      KeyBytesConcat(a[1..], b, key);
      assert (a + b)[1..] == a[1..] + b;
      if a[0].PendingText? && a[0].key == key {
        Assoc3(a[0].bytes, KeyBytes(a[1..], key), KeyBytes(b, key));
      }
    }
  }

  lemma {:induction false} EventsConcat(a: seq<Entry>, b: seq<Entry>)
    ensures Events(a + b) == Events(a) + Events(b)
  {
    if a == [] {
      assert a + b == b;
    } else {
      EventsConcat(a[1..], b);
      assert (a + b)[1..] == a[1..] + b;
      if a[0].PendingEvent? {
        Assoc3([a[0].kind], Events(a[1..]), Events(b));
      }
    }
  }

  lemma SameContentConcat(a: seq<Entry>, b: seq<Entry>, c: seq<Entry>, d: seq<Entry>)
    requires SameContent(a, b) && SameContent(c, d)
    ensures SameContent(a + c, b + d)
  {
    EventsConcat(a, c);
    EventsConcat(b, d);
    forall key
      ensures KeyBytes(a + c, key) == KeyBytes(b + d, key)
    {
      KeyBytesConcat(a, c, key);
      KeyBytesConcat(b, d, key);
    }
  }

  /** An entry sealed or cut in two carries the same content. */
  lemma PairBytes(a: Entry, b: Entry, key: Key)
    ensures KeyBytes([a] + [b], key) == KeyBytes([a], key) + KeyBytes([b], key)
    ensures KeyBytes([a], key) == if a.PendingText? && a.key == key then a.bytes else []
    ensures KeyBytes([b], key) == if b.PendingText? && b.key == key then b.bytes else []
  {
    assert [a][1..] == [] && [b][1..] == [];
    KeyBytesConcat([a], [b], key);
    assert a.PendingText? ==> a.bytes + [] == a.bytes;
    assert b.PendingText? ==> b.bytes + [] == b.bytes;
  }

  lemma PartsSameContent(e: Entry, closed: bool)
    requires e.PendingText?
    ensures SameContent([CompletePart(e)] + [OpenPart(e, closed)], [e])
    ensures SameContent([e.(closed := true)], [e])
  {
    var parts := [CompletePart(e)] + [OpenPart(e, closed)];
    assert parts[0] == CompletePart(e) && parts[1..] == [OpenPart(e, closed)] && parts[1..][1..] == [];
    assert [e][1..] == [] && [e.(closed := true)][1..] == [];
    TakeThenDrop(e.bytes, Flushable(e.bytes));
    forall key
      ensures KeyBytes(parts, key) == KeyBytes([e], key)
    {
      PairBytes(CompletePart(e), OpenPart(e, closed), key);
      PairBytes(e, PendingEvent(InputWait), key);
    }
  }

  /** What leaves and what stays is together what was queued. */
  lemma {:induction false} SplitReadyConserves(es: seq<Entry>)
    ensures SameContent(SplitReady(es).leaving + SplitReady(es).staying, es)
  {
    hide SameContent;
    if es == [] {
      SameContentRefl([]);
    } else {
      var e, rest := es[0], es[1..];
      assert [e] + rest == es;
      SameContentRefl([e]);
      SameContentRefl(rest);
      SameContentRefl(es);
      if e.Passes() {
        SplitReadyConserves(rest);
        var s := SplitReady(rest);
        SameContentConcat([e], [e], s.leaving + s.staying, rest);
        Assoc3([e], s.leaving, s.staying);
      } else if Flushable(e.bytes) > 0 {
        PartsSameContent(e, false);
        SameContentConcat([CompletePart(e)] + [OpenPart(e, false)], [e], rest, rest);
        Assoc3([CompletePart(e)], [OpenPart(e, false)], rest);
      } else {
        assert [] + es == es;
      }
    }
  }

  lemma SameContentRefl(a: seq<Entry>)
    ensures SameContent(a, a)
  {
  }

  lemma {:induction false} SplitGapsConserves(es: seq<Entry>)
    ensures SameContent(SplitGaps(es).leaving + SplitGaps(es).staying, es)
  {
    hide SameContent;
    if es == [] {
      SameContentRefl([]);
      assert SplitGaps(es).leaving + SplitGaps(es).staying == es;
    } else {
      var e, rest := es[0], es[1..];
      assert [e] + rest == es;
      SameContentRefl([e]);
      SameContentRefl(rest);
      SameContentRefl(es);
      var s := SplitGaps(rest);
      SplitGapsConserves(rest);
      if e.Passes() {
        SameContentConcat([e], [e], s.leaving + s.staying, rest);
        Assoc3([e], s.leaving, s.staying);
      } else if !HasVisible(rest) {
        if Flushable(e.bytes) > 0 {
          PartsSameContent(e, false);
          SameContentConcat([CompletePart(e)] + [OpenPart(e, false)], [e], rest, rest);
          Assoc3([CompletePart(e)], [OpenPart(e, false)], rest);
        } else {
          assert [] + es == es;
        }
      } else {
        SealedConserves(e, s, rest);
      }
    }
  }

  lemma SealedConserves(e: Entry, s: Split, rest: seq<Entry>)
    requires e.PendingText? && SameContent(s.leaving + s.staying, rest)
    ensures SameContent([e.(closed := true)] + s.leaving + s.staying, [e] + rest)
    ensures SameContent([CompletePart(e)] + ([OpenPart(e, true)] + s.leaving) + s.staying, [e] + rest)
  {
    hide SameContent;
    PartsSameContent(e, true);
    SameContentConcat([e.(closed := true)], [e], s.leaving + s.staying, rest);
    Assoc3([e.(closed := true)], s.leaving, s.staying);
    SameContentConcat([CompletePart(e)] + [OpenPart(e, true)], [e], s.leaving + s.staying, rest);
    assert [CompletePart(e)] + [OpenPart(e, true)] + (s.leaving + s.staying)
        == [CompletePart(e)] + ([OpenPart(e, true)] + s.leaving) + s.staying;
  }

  lemma SplitBoundedConserves(es: seq<Entry>, capacity: nat)
    ensures SameContent(SplitBounded(es, capacity).leaving + SplitBounded(es, capacity).staying, es)
  {
    hide SameContent, SplitReady, SplitGaps;
    var ready := SplitReady(es);
    SplitReadyConserves(es);
    if BlockedBytes(ready.staying) > capacity {
      var more := SplitGaps(ready.staying);
      SplitGapsConserves(ready.staying);
      SameContentRefl(ready.leaving);
      SameContentConcat(ready.leaving, ready.leaving, more.leaving + more.staying, ready.staying);
      Assoc3(ready.leaving, more.leaving, more.staying);
      SameContentTrans(ready.leaving + more.leaving + more.staying, ready.leaving + ready.staying, es);
    }
  }

  lemma SameContentTrans(a: seq<Entry>, b: seq<Entry>, c: seq<Entry>)
    requires SameContent(a, b) && SameContent(b, c)
    ensures SameContent(a, c)
  {
  }

  // ----- what blocks

  /** One to three bytes that begin a UTF-8 sequence without ending it. */
  predicate Blocks(e: Entry) {
    e.PendingText? && !e.closed && 1 <= |e.bytes| <= 3 && DecodeStep(e.bytes) == Truncated
  }

  ghost predicate NoEmptyText(es: seq<Entry>) {
    forall i :: 0 <= i < |es| && es[i].PendingText? ==> es[i].bytes != []
  }

  lemma OpenPartBlocks(e: Entry)
    requires e.Open()
    ensures Blocks(OpenPart(e, false)) && OpenPart(e, false).Open()
    ensures Flushable(e.bytes) == 0 ==> Blocks(e)
  {
    HeldBackIsIncomplete(e.bytes);
    var tail := e.bytes[Flushable(e.bytes)..];
    assert Flushable(tail) == 0;
    if Flushable(e.bytes) == 0 {
      assert e.bytes[0..] == e.bytes;
    }
  }

  /** After a drain the front, if any, is an incomplete prefix of its stream. */
  lemma {:induction false} SplitReadyBlocks(es: seq<Entry>)
    requires NoEmptyText(es)
    ensures SplitReady(es).staying != [] ==> Blocks(SplitReady(es).staying[0])
    ensures NoEmptyText(SplitReady(es).staying)
  {
    hide Blocks, Flushable, DecodeStep;
    if es != [] {
      assert es[1..] != [] ==> forall i :: 0 <= i < |es| - 1 ==> es[1..][i] == es[i + 1];
      if es[0].Passes() {
        SplitReadyBlocks(es[1..]);
      } else {
        OpenPartBlocks(es[0]);
      }
    }
  }

  /** After sealing around visible gaps, only markers stay behind the front. */
  lemma {:induction false} SplitGapsBlocks(es: seq<Entry>)
    requires NoEmptyText(es)
    ensures SplitGaps(es).staying != [] ==>
              Blocks(SplitGaps(es).staying[0]) && !HasVisible(SplitGaps(es).staying[1..])
    ensures NoEmptyText(SplitGaps(es).staying)
  {
    hide Blocks, Flushable, DecodeStep;
    if es != [] {
      assert es[1..] != [] ==> forall i :: 0 <= i < |es| - 1 ==> es[1..][i] == es[i + 1];
      SplitGapsBlocks(es[1..]);
      if !es[0].Passes() {
        OpenPartBlocks(es[0]);
        assert ([OpenPart(es[0], false)] + es[1..])[1..] == es[1..];
      }
    }
  }

  lemma {:induction false} MarkersWeighNothing(es: seq<Entry>)
    requires !HasVisible(es)
    ensures SumEntries(es) == 0
  {
    if es != [] {
      assert es[0].IsMarker();
      assert forall i :: 0 <= i < |es| - 1 ==> es[1..][i] == es[i + 1];
      MarkersWeighNothing(es[1..]);
    }
  }

  /** The bytes held up behind a blocking front never exceed the capacity. */
  lemma BlockedWithinCapacity(es: seq<Entry>, capacity: nat)
    requires NoEmptyText(es)
    ensures BlockedBytes(SplitBounded(es, capacity).staying) <= capacity
    ensures SplitBounded(es, capacity).staying != [] ==> Blocks(SplitBounded(es, capacity).staying[0])
    ensures NoEmptyText(SplitBounded(es, capacity).staying)
  {
    hide Blocks, SplitReady, SplitGaps;
    SplitReadyBlocks(es);
    var ready := SplitReady(es);
    if BlockedBytes(ready.staying) > capacity {
      SplitGapsBlocks(ready.staying);
      var staying := SplitGaps(ready.staying).staying;
      if staying != [] {
        MarkersWeighNothing(staying[1..]);
      }
    }
  }

  // ----- one open entry per stream

  /** An open entry is the last text of its stream, so each stream has at most one. */
  ghost predicate OpenIsLast(es: seq<Entry>) {
    forall i, j :: 0 <= i < j < |es| && es[i].Open() && es[j].PendingText? ==> es[i].key != es[j].key
  }

  ghost predicate WellKept(es: seq<Entry>) {
    NoEmptyText(es) && OpenIsLast(es)
  }

  lemma WellKeptTail(es: seq<Entry>)
    requires es != [] && WellKept(es)
    ensures WellKept(es[1..])
  {
    var rest := es[1..];
    assert forall i :: 0 <= i < |rest| ==> rest[i] == es[i + 1];
  }

  lemma WellKeptOpenFront(e: Entry, rest: seq<Entry>)
    requires WellKept([e] + rest) && e.Open()
    ensures WellKept([OpenPart(e, false)] + rest)
  {
    hide Flushable;
    var before, after := [e] + rest, [OpenPart(e, false)] + rest;
    assert forall i :: 0 < i < |before| ==> before[i] == after[i];
    assert before[0] == e && after[0] == OpenPart(e, false);
    OpenPartBlocks(e);
  }

  lemma {:induction false} SplitReadyKeeps(es: seq<Entry>)
    requires WellKept(es)
    ensures WellKept(SplitReady(es).staying)
  {
    hide WellKept;
    if es != [] {
      var e, rest := es[0], es[1..];
      assert [e] + rest == es;
      WellKeptNonEmpty(es);
      if e.Passes() {
        WellKeptTail(es);
        SplitReadyKeeps(rest);
      } else if Flushable(e.bytes) > 0 {
        WellKeptOpenFront(e, rest);
      }
    }
  }

  lemma WellKeptNonEmpty(es: seq<Entry>)
    requires WellKept(es) && es != []
    ensures es[0].PendingText? ==> es[0].bytes != []
  {
  }

  lemma {:induction false} SplitGapsKeeps(es: seq<Entry>)
    requires WellKept(es)
    ensures WellKept(SplitGaps(es).staying)
  {
    hide WellKept;
    if es != [] {
      var e, rest := es[0], es[1..];
      assert [e] + rest == es;
      WellKeptNonEmpty(es);
      WellKeptTail(es);
      SplitGapsKeeps(rest);
      if !e.Passes() && Flushable(e.bytes) > 0 {
        WellKeptOpenFront(e, rest);
      }
    }
  }

  lemma SplitBoundedKeeps(es: seq<Entry>, capacity: nat)
    requires WellKept(es)
    ensures WellKept(SplitBounded(es, capacity).staying)
  {
    hide WellKept, SplitReady, SplitGaps;
    SplitReadyKeeps(es);
    SplitGapsKeeps(SplitReady(es).staying);
  }

  // ----- pushing

  /** Position i holds the open entry of this stream, or is the end of a queue without one. */
  ghost predicate FoundAt(es: seq<Entry>, i: nat, key: Key) {
    if i < |es| then es[i].Open() && es[i].key == key
    else i == |es| && forall j :: 0 <= j < |es| ==> !(es[j].Open() && es[j].key == key)
  }

  /** The queue right after `push` has placed its bytes: continued, or behind a sealed predecessor. */
  function Placed(es: seq<Entry>, i: nat, key: Key, bytes: seq<byte>, continues: bool): seq<Entry>
    requires i < |es| ==> es[i].PendingText?
  {
    if i < |es| && continues then es[i := es[i].(bytes := es[i].bytes + bytes)]
    else if i < |es| then es[i := es[i].(closed := true)] + [PendingText(key, bytes, false)]
    else es + [PendingText(key, bytes, false)]
  }

  lemma PlacedKeeps(es: seq<Entry>, n: nat, key: Key, bytes: seq<byte>, continues: bool)
    requires WellKept(es) && bytes != [] && FoundAt(es, n, key)
    ensures WellKept(Placed(es, n, key, bytes, continues))
  {
    hide Flushable;
    var after := Placed(es, n, key, bytes, continues);
    forall i, j | 0 <= i < j < |after| && after[i].Open() && after[j].PendingText?
      ensures after[i].key != after[j].key
    {
      if n < |es| && continues {
        assert es[j].PendingText? && es[j].key == after[j].key && es[i].PendingText? && es[i].key == after[i].key;
        assert i != n ==> es[i].Open();
      } else if j < |es| {
        assert i != n && es[i].Open() && es[j].PendingText? && es[j].key == after[j].key;
      } else {
        assert after[j] == PendingText(key, bytes, false) && i != n && es[i] == after[i];
      }
    }
  }

  /** A push adds its bytes at the end of its own stream and touches no other. */
  lemma PlacedConserves(es: seq<Entry>, n: nat, key: Key, bytes: seq<byte>, continues: bool)
    requires WellKept(es) && FoundAt(es, n, key)
    ensures var after := Placed(es, n, key, bytes, continues);
            Events(after) == Events(es)
            && forall k :: KeyBytes(after, k) == KeyBytes(es, k) + (if k == key then bytes else [])
  {
    hide WellKept, KeyBytes, Events;
    if n < |es| && continues {
      GrowEntry(es, n, bytes);
    } else if n < |es| {
      CloseEntry(es, n);
      AppendEntry(es[n := es[n].(closed := true)], key, bytes);
    } else {
      AppendEntry(es, key, bytes);
    }
  }

  lemma AppendEntry(es: seq<Entry>, key: Key, bytes: seq<byte>)
    ensures var e := PendingText(key, bytes, false);
            Events(es + [e]) == Events(es)
            && forall k :: KeyBytes(es + [e], k) == KeyBytes(es, k) + (if k == key then bytes else [])
  {
    var e := PendingText(key, bytes, false);
    EventsConcat(es, [e]);
    assert [e][1..] == [] && Events(es) + [] == Events(es);
    forall k
      ensures KeyBytes(es + [e], k) == KeyBytes(es, k) + (if k == key then bytes else [])
    {
      PairBytes(e, e, k);
      KeyBytesConcat(es, [e], k);
    }
  }

  lemma CloseEntry(es: seq<Entry>, i: nat)
    requires i < |es| && es[i].PendingText?
    ensures SameContent(es[i := es[i].(closed := true)], es)
  {
    hide SameContent;
    var a, e, c := es[..i], es[i], es[i + 1..];
    assert es == a + ([e] + c) && es[i := e.(closed := true)] == a + ([e.(closed := true)] + c);
    SameContentRefl(a);
    SameContentRefl(c);
    PartsSameContent(e, true);
    SameContentConcat([e.(closed := true)], [e], c, c);
    SameContentConcat(a, a, [e.(closed := true)] + c, [e] + c);
  }

  lemma NoBytesOf(es: seq<Entry>, key: Key)
    requires forall i :: 0 <= i < |es| && es[i].PendingText? ==> es[i].key != key
    ensures KeyBytes(es, key) == []
  {
  }

  lemma GrowEntry(es: seq<Entry>, i: nat, bytes: seq<byte>)
    requires i < |es| && WellKept(es) && es[i].Open()
    ensures var grown := es[i := es[i].(bytes := es[i].bytes + bytes)];
            Events(grown) == Events(es)
            && forall k :: KeyBytes(grown, k) == KeyBytes(es, k) + (if k == es[i].key then bytes else [])
  {
    hide Flushable;
    var a, e, c := es[..i], es[i], es[i + 1..];
    var g := e.(bytes := e.bytes + bytes);
    assert es == a + ([e] + c) && es[i := g] == a + ([g] + c);
    assert [e][1..] == [] && [g][1..] == [];
    EventsConcat(a, [e] + c);
    EventsConcat(a, [g] + c);
    EventsConcat([e], c);
    EventsConcat([g], c);
    assert forall j :: 0 <= j < |c| ==> c[j] == es[i + 1 + j];
    NoBytesOf(c, e.key);
    forall k
      ensures KeyBytes(es[i := g], k) == KeyBytes(es, k) + (if k == e.key then bytes else [])
    {
      GrowBytes(a, e, g, c, bytes, k);
    }
  }

  lemma GrowBytes(a: seq<Entry>, e: Entry, g: Entry, c: seq<Entry>, bytes: seq<byte>, k: Key)
    requires e.PendingText? && g == e.(bytes := e.bytes + bytes)
    requires KeyBytes(c, e.key) == []
    ensures KeyBytes(a + ([g] + c), k) == KeyBytes(a + ([e] + c), k) + (if k == e.key then bytes else [])
  {
    KeyBytesConcat(a, [g] + c, k);
    KeyBytesConcat(a, [e] + c, k);
    KeyBytesConcat([g], c, k);
    KeyBytesConcat([e], c, k);
    PairBytes(e, g, k);
    PairBytes(g, e, k);
    if k == e.key {
      assert e.bytes + bytes + [] == e.bytes + [] + bytes;
      Assoc3(KeyBytes(a, k), e.bytes, bytes);
      assert KeyBytes([g], k) + [] == KeyBytes([g], k) && KeyBytes([e], k) + [] == KeyBytes([e], k);
    }
  }

  // ----- the object

  class Utf8Tails {
    var entries: seq<Entry>

    ghost predicate Valid()
      reads this
    {
      WellKept(entries)
    }

    constructor ()
      ensures Valid() && entries == []
    {
      entries := [];
    }

    method FindOpen(key: Key) returns (i: nat)
      ensures FoundAt(entries, i, key)
    {
      i := 0;
      while i < |entries|
        invariant i <= |entries|
        invariant forall j :: 0 <= j < i ==> !(entries[j].Open() && entries[j].key == key)
      {
        if entries[i].Open() && entries[i].key == key {
          return;
        }
        i := i + 1;
      }
    }

    /** `push`: places the bytes with their stream, then drains what is ready. */
    method Push(key: Key, bytes: seq<byte>, continues: bool, capacity: nat) returns (ready: seq<Ready>, ghost i: nat)
      requires Valid()
      modifies this
      ensures Valid()
      ensures bytes == [] ==> ready == [] && entries == old(entries)
      ensures bytes != [] ==>
                FoundAt(old(entries), i, key)
                && var split := SplitBounded(Placed(old(entries), i, key, bytes, continues), capacity);
                   ready == MaterializeAll(split.leaving) && entries == split.staying
    {
      i := 0;
      if bytes == [] {
        return [], 0;
      }
      var index := FindOpen(key);
      i := index;
      PlacedKeeps(entries, index, key, bytes, continues);
      if index < |entries| && continues {
        entries := entries[index := entries[index].(bytes := entries[index].bytes + bytes)];
      } else {
        if index < |entries| {
          entries := entries[index := entries[index].(closed := true)];
        }
        entries := entries + [PendingText(key, bytes, false)];
      }
      ready := DrainReadyBounded(capacity);
    }

    /** `push_event`. */
    method PushEvent(kind: EventKind, capacity: nat) returns (ready: seq<Ready>)
      requires Valid()
      modifies this
      ensures Valid()
      ensures var split := SplitBounded(old(entries) + [PendingEvent(kind)], capacity);
              ready == MaterializeAll(split.leaving) && entries == split.staying
    {
      entries := entries + [PendingEvent(kind)];
      ready := DrainReadyBounded(capacity);
    }

    /** `drain`: seals everything, so everything leaves. */
    method Drain() returns (ready: seq<Ready>)
      requires Valid()
      modifies this
      ensures Valid() && entries == []
      ensures ready == MaterializeAll(CloseAll(old(entries)))
    {
      var i := 0;
      while i < |entries|
        invariant i <= |entries| == |old(entries)|
        invariant entries == CloseAll(old(entries)[..i]) + old(entries)[i..]
      {
        CloseAllNext(old(entries), i);
        if entries[i].PendingText? {
          entries := entries[i := entries[i].(closed := true)];
        }
        i := i + 1;
      }
      assert old(entries)[..i] == old(entries) && old(entries)[i..] == [];
      assert entries == CloseAll(old(entries));
      CloseAllKeeps(old(entries));
      CloseAllLeaves(old(entries));
      ready := DrainReady();
    }

    method DrainReady() returns (ready: seq<Ready>)
      requires Valid()
      modifies this
      ensures Valid()
      ensures ready == MaterializeAll(SplitReady(old(entries)).leaving) && entries == SplitReady(old(entries)).staying
    {
      hide WellKept, Flushable;
      SplitReadyKeeps(entries);
      ready := [];
      while entries != []
        invariant ready + MaterializeAll(SplitReady(entries).leaving)
                  == MaterializeAll(SplitReady(old(entries)).leaving)
        invariant SplitReady(entries).staying == SplitReady(old(entries)).staying
        decreases |entries|
      {
        var front, rest := entries[0], entries[1..];
        if front.Passes() {
          NextReady(ready, front, SplitReady(rest).leaving);
          ready := ready + [Materialize(front)];
          entries := rest;
        } else {
          var flushable := FlushablePrefixLen(front.bytes);
          if flushable > 0 {
            NextReady(ready, CompletePart(front), []);
            ready := ready + [ReadyText(front.key, front.bytes[..flushable])];
            entries := [PendingText(front.key, front.bytes[flushable..], false)] + rest;
          } else {
            NoMoreReady(ready);
          }
          return;
        }
      }
      NoMoreReady(ready);
    }

    /** `drain_ready_after_visible_gaps`. */
    method DrainReadyAfterVisibleGaps() returns (ready: seq<Ready>)
      requires Valid()
      modifies this
      ensures Valid()
      ensures ready == MaterializeAll(SplitGaps(old(entries)).leaving) && entries == SplitGaps(old(entries)).staying
    {
      hide WellKept, Flushable;
      SplitGapsKeeps(entries);
      ready := [];
      while entries != []
        invariant ready + MaterializeAll(SplitGaps(entries).leaving) == MaterializeAll(SplitGaps(old(entries)).leaving)
        invariant SplitGaps(entries).staying == SplitGaps(old(entries)).staying
        decreases |entries|
      {
        var front, rest := entries[0], entries[1..];
        var hasLaterVisible := exists i :: 0 <= i < |rest| && !rest[i].IsMarker();
        if front.Passes() {
          NextReady(ready, front, SplitGaps(rest).leaving);
          ready := ready + [Materialize(front)];
          entries := rest;
        } else {
          var flushable := FlushablePrefixLen(front.bytes);
          if !hasLaterVisible {
            if flushable > 0 {
              NextReady(ready, CompletePart(front), []);
              ready := ready + [ReadyText(front.key, front.bytes[..flushable])];
              entries := [PendingText(front.key, front.bytes[flushable..], false)] + rest;
            } else {
              NoMoreReady(ready);
            }
            return;
          }
          if flushable > 0 {
            NextReady(ready, CompletePart(front), [OpenPart(front, true)] + SplitGaps(rest).leaving);
            ready := ready + [ReadyText(front.key, front.bytes[..flushable])];
          }
          ghost var held := if flushable > 0 then OpenPart(front, true) else front.(closed := true);
          assert front.bytes[0..] == front.bytes;
          NextReady(ready, held, SplitGaps(rest).leaving);
          ready := ready + [Materialize(PendingText(front.key, front.bytes[flushable..], true))];
          entries := rest;
        }
      }
      NoMoreReady(ready);
    }

    method DrainReadyBounded(capacity: nat) returns (ready: seq<Ready>)
      requires NoEmptyText(entries) && OpenIsLast(entries)
      modifies this
      ensures Valid()
      ensures var split := SplitBounded(old(entries), capacity);
              ready == MaterializeAll(split.leaving) && entries == split.staying
    {
      hide SplitReady, SplitGaps;
      ready := DrainReady();
      var blocked := BlockedSideBufferBytes();
      if blocked > capacity {
        MaterializeConcat(SplitReady(old(entries)).leaving, SplitGaps(entries).leaving);
        var more := DrainReadyAfterVisibleGaps();
        ready := ready + more;
      }
    }

    method BlockedSideBufferBytes() returns (total: nat)
      ensures total == BlockedBytes(entries)
    {
      if entries == [] || !entries[0].Open() {
        return 0;
      }
      total := 0;
      var i := 1;
      while i < |entries|
        invariant 1 <= i <= |entries|
        invariant total + SumEntries(entries[i..]) == SumEntries(entries[1..])
      {
        assert entries[i..][1..] == entries[i + 1..];
        total := total + entries[i].Size();
        i := i + 1;
      }
      assert entries[i..] == [];
    }
  }

  lemma NextReady(ready: seq<Ready>, e: Entry, rest: seq<Entry>)
    ensures ready + MaterializeAll([e] + rest) == ready + [Materialize(e)] + MaterializeAll(rest)
  {
    hide Materialize;
    assert ([e] + rest)[1..] == rest;
    Assoc3(ready, [Materialize(e)], MaterializeAll(rest));
  }

  lemma NoMoreReady(ready: seq<Ready>)
    ensures ready + MaterializeAll([]) == ready
  {
  }

  // ----- sealing everything

  function CloseAll(es: seq<Entry>): (r: seq<Entry>)
    ensures |r| == |es|
  {
    seq(|es|, i requires 0 <= i < |es| => if es[i].PendingText? then es[i].(closed := true) else es[i])
  }

  lemma CloseAllNext(es: seq<Entry>, i: nat)
    requires i < |es|
    ensures var now := CloseAll(es[..i]) + es[i..];
            var next := CloseAll(es[..i + 1]) + es[i + 1..];
            && now[i] == es[i]
            && (if es[i].PendingText? then next == now[i := es[i].(closed := true)] else next == now)
  {
  }

  lemma CloseAllKeeps(es: seq<Entry>)
    requires WellKept(es)
    ensures WellKept(CloseAll(es))
  {
  }

  lemma {:induction false} CloseAllLeaves(es: seq<Entry>)
    ensures SplitReady(CloseAll(es)) == Split(CloseAll(es), [])
  {
    if es != [] {
      assert CloseAll(es)[1..] == CloseAll(es[1..]);
      CloseAllLeaves(es[1..]);
      assert [CloseAll(es)[0]] + CloseAll(es)[1..] == CloseAll(es);
    }
  }
}
