/**
  What the Head policy keeps and what it refuses: input echoes give way first, then
  the newest output is refused, and a loss of either kind leaves an omission notice.
 */
module HeadRetention {
  import opened Utf8
  import opened Timeline
  import opened RingScans
  import opened Eviction

  /** With an omission notice, if it can fit and is not there. */
  function Omit(k: Kept, start: nat, capacity: nat): Kept {
    if HasOmission(k.events) || OMISSION_SIZE > capacity then k
    else
      var left := TrimTail(k, start, capacity - OMISSION_SIZE);
      Kept(left.chunks, left.events + [Event(EndOf(left.chunks, start), OmissionNotice())])
  }

  /** Without the echoes that give way, and with a notice if any did. */
  function GiveWay(k: Kept, start: nat, needed: nat, room: nat, capacity: nat): Kept {
    var spared := SpareEchoes(k.events, room - needed - SumLens(k.chunks));
    if spared == k.events then k else Omit(Kept(k.chunks, spared), start, capacity)
  }

  /** The capacity less the room for a notice that is still to come. */
  function Usable(events: seq<Event>, capacity: nat): nat {
    if HasOmission(events) || OMISSION_SIZE > capacity then capacity else capacity - OMISSION_SIZE
  }

  /** What is left, how many of the bytes it took, and whether the rest was refused. */
  datatype Turn = Turn(left: Kept, taken: nat, full: bool)

  function Behind(k: Kept, end: nat, bytes: seq<byte>, key: Key): Kept {
    Kept(k.chunks + [Chunk(end, bytes, key)], k.events)
  }

  /** One locked section that is offered `head`, with `rest` more bytes to follow. */
  function TakeSection(k: Kept, start: nat, end: nat, head: seq<byte>, rest: nat, key: Key, capacity: nat): (t: Turn)
    ensures t.taken <= |head| && (!t.full ==> t.taken == |head|)
  {
    var incoming := |head| + rest;
    var first := GiveWay(k, start, incoming, capacity, capacity);
    if first.Weight() + incoming <= capacity then Turn(Behind(first, end, head, key), |head|, false)
    else TakeUsable(first, start, end, head, rest, key, capacity)
  }

  /** When not everything fits: as much as fits next to a notice. */
  function TakeUsable(k: Kept, start: nat, end: nat, head: seq<byte>, rest: nat, key: Key, capacity: nat): (t: Turn)
    ensures t.taken <= |head| && (!t.full ==> t.taken == |head|)
  {
    var usable := Usable(k.events, capacity);
    var left := GiveWay(k, start, |head| + rest, usable, capacity);
    if usable <= left.Weight() then Turn(Omit(left, start, capacity), 0, true)
    else
      var available := usable - left.Weight();
      if |head| <= available then Turn(Behind(left, end, head, key), |head|, false)
      else Turn(Omit(Behind(left, end, head[..available], key), start, capacity), available, true)
  }

  function TakeInSections(k: Kept, start: nat, end: nat, bytes: seq<byte>, key: Key, len: nat, capacity: nat): (t: Turn)
    requires len > 0
    ensures t.taken <= |bytes| && (!t.full ==> t.taken == |bytes|)
    decreases |bytes|
  {
    if bytes == [] then Turn(k, 0, false)
    else
      var n := if |bytes| < len then |bytes| else len;
      var t := TakeSection(k, start, end, bytes[..n], |bytes| - n, key, capacity);
      if t.full then t
      else
        var more := TakeInSections(t.left, start, end + n, bytes[n..], key, len, capacity);
        Turn(more.left, n + more.taken, more.full)
  }

  /** A turn that goes on behind `before` bytes taken already. */
  function Resumed(t: Turn, before: nat): Turn {
    Turn(t.left, before + t.taken, t.full)
  }

  /** After `done` bytes have been offered and `b` taken, what comes makes up `whole`. */
  ghost predicate Owes(whole: Turn, k: Kept, start: nat, end: nat, bytes: seq<byte>, done: nat, b: nat, full: bool,
                       key: Key, len: nat, capacity: nat)
    requires len > 0 && done <= |bytes|
  {
    whole == if full then Turn(k, b, true)
             else Resumed(TakeInSections(k, start, end, bytes[done..], key, len, capacity), b)
  }

  lemma OwesAll(k: Kept, start: nat, end: nat, bytes: seq<byte>, key: Key, len: nat, capacity: nat)
    requires len > 0
    ensures Owes(TakeInSections(k, start, end, bytes, key, len, capacity), k, start, end, bytes, 0, 0, false, key, len,
                 capacity)
  {
    hide TakeInSections;
    assert bytes[0..] == bytes;
  }

  lemma OwesNext(whole: Turn, k: Kept, start: nat, end: nat, bytes: seq<byte>, done: nat, key: Key, len: nat,
                 capacity: nat)
    requires done < |bytes| && len > 0
    requires Owes(whole, k, start, end, bytes, done, done, false, key, len, capacity)
    ensures var n := if |bytes| - done < len then |bytes| - done else len;
            var t := TakeSection(k, start, end, bytes[done..done + n], |bytes| - done - n, key, capacity);
            Owes(whole, t.left, start, end + t.taken, bytes, done + n, done + t.taken, t.full, key, len, capacity)
  {
    hide TakeSection;
    var n := if |bytes| - done < len then |bytes| - done else len;
    assert bytes[done..][..n] == bytes[done..done + n] && bytes[done..][n..] == bytes[done + n..];
  }

  lemma OwesNothing(whole: Turn, k: Kept, start: nat, end: nat, bytes: seq<byte>, done: nat, b: nat, full: bool,
                    key: Key, len: nat, capacity: nat)
    requires len > 0 && done <= |bytes| && (full || done == |bytes|)
    requires Owes(whole, k, start, end, bytes, done, b, full, key, len, capacity)
    ensures whole.left == k && whole.taken == b
  {
  }

  datatype Offer = Offer(accepted: bool, before: Kept)

  /** What becomes of an event that is offered, and what is there before it. */
  function OfferEvent(k: Kept, start: nat, kind: EventKind, capacity: nat): Offer {
    var size := EventSize(kind);
    if size > capacity then Offer(false, Omit(k, start, capacity))
    else if kind.InputEcho? then
      if HasOmission(k.events) then Offer(false, k)
      else if k.Weight() + size > capacity then Offer(false, Omit(k, start, capacity))
      else Offer(true, k)
    else OfferVisible(k, start, size, capacity)
  }

  function OfferVisible(k: Kept, start: nat, size: nat, capacity: nat): Offer {
    var first := GiveWay(k, start, size, capacity, capacity);
    if first.Weight() + size <= capacity then Offer(true, first)
    else
      var usable := Usable(first.events, capacity);
      var second := GiveWay(first, start, size, usable, capacity);
      if second.Weight() + size <= usable then Offer(true, second) else Offer(false, Omit(second, start, capacity))
  }

  // ----- how much is taken

  lemma NothingGivesWay(k: Kept, start: nat, needed: nat, room: nat, capacity: nat)
    requires k.Weight() + needed <= room || !HasEcho(k.events)
    ensures GiveWay(k, start, needed, room, capacity) == k
  {
  }

  lemma BehindWeighs(k: Kept, end: nat, bytes: seq<byte>, key: Key)
    ensures Behind(k, end, bytes, key).Weight() == k.Weight() + |bytes|
  {
    var c := Chunk(end, bytes, key);
    FlattenConcat(k.chunks, [c]);
    assert [c][1..] == [];
  }

  /**
    Without echoes to give way, all bytes are taken exactly when they fit; otherwise
    exactly as many as fit next to a notice, however the sections cut them.
   */
  lemma {:induction false} BytesTakenExactly(k: Kept, start: nat, end: nat, bytes: seq<byte>, key: Key, len: nat,
                                             capacity: nat)
    requires len > 0 && !HasEcho(k.events)
    ensures var t := TakeInSections(k, start, end, bytes, key, len, capacity);
            var usable := Usable(k.events, capacity);
            && t.full == (bytes != [] && k.Weight() + |bytes| > capacity)
            && t.taken == if !t.full then |bytes| else if usable <= k.Weight() then 0 else usable - k.Weight()
    decreases |bytes|
  {
    hide TakeSection, Usable, HasEcho, SumLens, SumSizes;
    if bytes != [] {
      var n := if |bytes| < len then |bytes| else len;
      UsableFits(k.events, capacity);
      SectionTakesExactly(k, start, end, bytes[..n], |bytes| - n, key, capacity);
      if k.Weight() + |bytes| <= capacity || k.Weight() + n <= Usable(k.events, capacity) {
        BehindWeighs(k, end, bytes[..n], key);
        BytesTakenExactly(Behind(k, end, bytes[..n], key), start, end + n, bytes[n..], key, len, capacity);
      }
    }
  }

  lemma SectionTakesExactly(k: Kept, start: nat, end: nat, head: seq<byte>, rest: nat, key: Key, capacity: nat)
    requires head != [] && !HasEcho(k.events)
    ensures var t := TakeSection(k, start, end, head, rest, key, capacity);
            var usable := Usable(k.events, capacity);
            if k.Weight() + |head| + rest <= capacity || k.Weight() + |head| <= usable
            then t == Turn(Behind(k, end, head, key), |head|, false)
            else t.full && t.taken == if usable <= k.Weight() then 0 else usable - k.Weight()
  {
    hide Omit, GiveWay, Usable, HasEcho, SumLens, SumSizes;
    NothingGivesWay(k, start, |head| + rest, capacity, capacity);
    NothingGivesWay(k, start, |head| + rest, Usable(k.events, capacity), capacity);
  }

  lemma UsableFits(events: seq<Event>, capacity: nat)
    ensures Usable(events, capacity) <= capacity
  {
  }

  // ----- which events are accepted

  /** The weight of everything but input echoes. */
  function Visible(k: Kept): nat {
    SumLens(k.chunks) + SumSizes(NonEcho(k.events))
  }

  /** Without echoes to give way, a visible event is accepted exactly when it fits. */
  lemma EventAcceptedIff(k: Kept, start: nat, kind: EventKind, capacity: nat)
    requires !kind.InputEcho? && !HasEcho(k.events)
    ensures OfferEvent(k, start, kind, capacity).accepted <==> k.Weight() + EventSize(kind) <= capacity
  {
    hide Omit, GiveWay, Usable, HasEcho, EventSize;
    UsableFits(k.events, capacity);
    NothingGivesWay(k, start, EventSize(kind), capacity, capacity);
    NothingGivesWay(k, start, EventSize(kind), Usable(k.events, capacity), capacity);
  }

  /** With room for it as things are, an event is accepted and nothing gives way. */
  lemma EventWithRoom(k: Kept, start: nat, kind: EventKind, capacity: nat)
    requires !kind.IsMarker()
    ensures k.Weight() + EventSize(kind) <= capacity && (kind.InputEcho? ==> !HasOmission(k.events)) ==>
              OfferEvent(k, start, kind, capacity) == Offer(true, k)
  {
    hide HasEcho, HasOmission, EventSize, SumLens, SumSizes;
    if k.Weight() + EventSize(kind) <= capacity {
      NothingGivesWay(k, start, EventSize(kind), capacity, capacity);
    }
  }

  /** What fits next to a notice once all echoes are gone is never refused. */
  lemma VisibleEventsComeFirst(k: Kept, start: nat, kind: EventKind, capacity: nat)
    requires !kind.InputEcho? && Visible(k) + EventSize(kind) <= Usable(k.events, capacity)
    ensures OfferEvent(k, start, kind, capacity).accepted
  {
    hide Omit, GiveWay, EventSize, SpareEchoes, NonEcho, HasEcho, HasOmission;
    var size := EventSize(kind);
    var first := GiveWay(k, start, size, capacity, capacity);
    if first.Weight() + size > capacity {
      GiveWayVisible(k, start, size, capacity, capacity);
      var usable := Usable(first.events, capacity);
      assert Visible(first) + size <= usable;
      if HasOmission(first.events) || OMISSION_SIZE > capacity {
        SparedFits(first, start, size, capacity, capacity);
      } else {
        NoticeOrNothing(k, start, size, capacity, capacity);
        AllSpared(first, start, size, usable, capacity);
      }
    }
  }

  /** Giving way adds at most the notice. */
  lemma GiveWayVisible(k: Kept, start: nat, needed: nat, room: nat, capacity: nat)
    ensures var left := GiveWay(k, start, needed, room, capacity);
            && (HasOmission(k.events) ==> HasOmission(left.events))
            && Visible(left) <= Visible(k) + (if HasOmission(left.events) && !HasOmission(k.events)
                                              then OMISSION_SIZE else 0)
            && (HasOmission(left.events) && !HasOmission(k.events) ==> OMISSION_SIZE <= capacity)
  {
    var k0 := EchoesGoOnlyForRoom(k.events, room - needed - SumLens(k.chunks));
    DropEchoesKeepsOthers(k.events, k0);
    DropEchoesKeepsOmissions(k.events, k0);
    var spared := SpareEchoes(k.events, room - needed - SumLens(k.chunks));
    HasOmissionIffCounted(k.events);
    HasOmissionIffCounted(spared);
    hide SpareEchoes, DropEchoes, NonEcho, HasOmission, Omit;
    OmitVisible(Kept(k.chunks, spared), start, capacity);
  }

  lemma OmitVisible(k: Kept, start: nat, capacity: nat)
    ensures var left := Omit(k, start, capacity);
            && (HasOmission(k.events) ==> left == k)
            && Visible(left) <= Visible(k) + (if HasOmission(left.events) && !HasOmission(k.events)
                                              then OMISSION_SIZE else 0)
            && (HasOmission(left.events) && !HasOmission(k.events) ==> OMISSION_SIZE <= capacity)
  {
    if !HasOmission(k.events) && OMISSION_SIZE <= capacity {
      var left := TrimTail(k, start, capacity - OMISSION_SIZE);
      var notice := Event(EndOf(left.chunks, start), OmissionNotice());
      TrimTailLess(k, start, capacity - OMISSION_SIZE);
      IsTheNotice(left.events, notice);
      hide TrimTail, SumSizes, SumLens, NonEcho, HasOmission, OmissionNotice;
      NonEchoConcat(left.events, [notice]);
      SumSizesConcat(NonEcho(left.events), NonEcho([notice]));
    }
  }

  lemma IsTheNotice(events: seq<Event>, notice: Event)
    requires notice.kind == OmissionNotice()
    ensures HasOmission(events + [notice]) && SumSizes(NonEcho([notice])) == OMISSION_SIZE
  {
    assert (events + [notice])[|events|] == notice && IsOmission(notice);
    assert [notice][1..] == [] && NonEcho([notice]) == [notice];
  }

  /** Trimming leaves less of everything. */
  lemma {:induction false} TrimTailLess(k: Kept, start: nat, room: nat)
    ensures Visible(TrimTail(k, start, room)) <= Visible(k)
    decreases SumLens(k.chunks), |k.events|
  {
    hide NonEcho, SumSizes, SumLens, ShortenedBy, EventSize;
    if k.Weight() > room {
      var n := |k.events| - 1;
      if k.events != [] && k.events[n].offset >= LastEnd(k.chunks, 0) {
        PrefixLess(k.events, n);
        TrimTailLess(Kept(k.chunks, k.events[..n]), start, room);
      } else if k.chunks != [] && k.chunks[|k.chunks| - 1].bytes != [] {
        var m := |k.chunks| - 1;
        var excess := k.Weight() - room;
        var d := if excess < |k.chunks[m].bytes| then excess else |k.chunks[m].bytes|;
        ShortenedLess(k, start, d);
        TrimTailLess(ShortenedBy(k, start, d), start, room);
      }
    }
  }

  lemma ShortenedLess(k: Kept, start: nat, d: nat)
    requires k.chunks != [] && 0 < d <= |k.chunks[|k.chunks| - 1].bytes|
    ensures var left := ShortenedBy(k, start, d);
            SumLens(left.chunks) < SumLens(k.chunks) && Visible(left) <= Visible(k)
  {
    hide NonEcho, SumSizes, SumLens, DropEventsAbove;
    var n := |k.chunks| - 1;
    assert k.chunks == k.chunks[..n] + [k.chunks[n]];
    TrimBackIsShorter(k.chunks[..n], k.chunks[n], d);
    DropAboveLess(k.events, EndOf(TrimBack(k.chunks[..n], k.chunks[n], d), start));
  }

  lemma {:induction false} DropAboveLess(events: seq<Event>, r: nat)
    ensures SumSizes(NonEcho(DropEventsAbove(events, r))) <= SumSizes(NonEcho(events))
  {
    hide NonEcho, SumSizes;
    if events != [] && events[|events| - 1].offset > r {
      PrefixLess(events, |events| - 1);
      DropAboveLess(events[..|events| - 1], r);
    }
  }

  lemma PrefixLess(events: seq<Event>, n: nat)
    requires n <= |events|
    ensures SumSizes(NonEcho(events[..n])) <= SumSizes(NonEcho(events))
  {
    hide NonEcho, SumSizes;
    assert events == events[..n] + events[n..];
    NonEchoConcat(events[..n], events[n..]);
    SumSizesConcat(NonEcho(events[..n]), NonEcho(events[n..]));
  }

  /** Where no notice is added, what is visible fits, then so does what is left when echoes have given way. */
  lemma SparedFits(k: Kept, start: nat, needed: nat, room: nat, capacity: nat)
    requires HasOmission(k.events) || OMISSION_SIZE > capacity
    requires Visible(k) + needed <= room
    ensures GiveWay(k, start, needed, room, capacity).Weight() + needed <= room
  {
    var left := room - needed - SumLens(k.chunks);
    var n := EchoesGoOnlyForRoom(k.events, left);
    var spared := SpareEchoes(k.events, left);
    DropEchoesKeepsOthers(k.events, n);
    DropEchoesKeepsOmissions(k.events, n);
    HasOmissionIffCounted(k.events);
    HasOmissionIffCounted(spared);
    SparedEnough(k.events, left);
    NonEchoOfNone(spared);
  }

  lemma {:induction false} SparedEnough(events: seq<Event>, room: int)
    ensures SumSizes(SpareEchoes(events, room)) <= room || !HasEcho(SpareEchoes(events, room))
    decreases |events|
  {
    hide SumSizes, HasEcho, DropEchoes;
    if SumSizes(events) > room && HasEcho(events) {
      DropEchoShortens(events);
      SparedEnough(DropEchoes(events, 1), room);
    }
  }

  /** Echoes that give way leave a notice that can fit. */
  lemma NoticeOrNothing(k: Kept, start: nat, needed: nat, room: nat, capacity: nat)
    requires OMISSION_SIZE <= capacity
    ensures var left := GiveWay(k, start, needed, room, capacity);
            HasOmission(left.events) || (left == k && (k.Weight() + needed <= room || !HasEcho(k.events)))
  {
    var left := room - needed - SumLens(k.chunks);
    SparedEnough(k.events, left);
    hide SpareEchoes, HasEcho, HasOmission, OmissionNotice;
    var spared := SpareEchoes(k.events, left);
    var trimmed := TrimTail(Kept(k.chunks, spared), start, capacity - OMISSION_SIZE);
    IsTheNotice(trimmed.events, Event(EndOf(trimmed.chunks, start), OmissionNotice()));
  }

  lemma AllSpared(k: Kept, start: nat, needed: nat, room: nat, capacity: nat)
    requires !HasEcho(k.events) && Visible(k) + needed <= room
    ensures GiveWay(k, start, needed, room, capacity).Weight() + needed <= room
  {
    NonEchoOfNone(k.events);
    NothingGivesWay(k, start, needed, room, capacity);
  }
}
