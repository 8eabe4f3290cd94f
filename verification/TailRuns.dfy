/**
  The side buffer over any run of calls: what leaves and what is pending is what was
  pushed, and in which order.
 */
module TailRuns {
  import opened Sequences
  import opened Utf8
  import opened Timeline
  import opened Rendering
  import opened StreamRendering
  import opened SideBuffer

  // ----- any run of calls

  datatype Call =
    | PushText(key: Key, bytes: seq<byte>, continues: bool)
    | PushKind(kind: EventKind)
    | SealAll
    | SealGaps

  function PushedBytes(calls: seq<Call>, key: Key): seq<byte> {
    if calls == [] then []
    else
      PushedBytes(calls[..|calls| - 1], key) +
      match calls[|calls| - 1]
      case PushText(k, bytes, _) => if k == key then bytes else []
      case _ => []
  }

  function PushedEvents(calls: seq<Call>): seq<EventKind> {
    if calls == [] then []
    else
      PushedEvents(calls[..|calls| - 1]) +
      match calls[|calls| - 1]
      case PushKind(kind) => [kind]
      case _ => []
  }

  /** What left and what is pending is, per stream and for the events, what was pushed. */
  ghost predicate Accounts(leaving: seq<Entry>, pending: seq<Entry>, calls: seq<Call>) {
    && Events(leaving) + Events(pending) == PushedEvents(calls)
    && forall key :: KeyBytes(leaving, key) + KeyBytes(pending, key) == PushedBytes(calls, key)
  }

  /** What a call queues before anything leaves. */
  ghost predicate Queued(before: seq<Entry>, after: seq<Entry>, call: Call) {
    && Events(after) == Events(before) + (if call.PushKind? then [call.kind] else [])
    && forall key ::
         KeyBytes(after, key) == KeyBytes(before, key) + (if call.PushText? && call.key == key then call.bytes else [])
  }

  lemma CallAccounts(leaving: seq<Entry>, before: seq<Entry>, queued: seq<Entry>, split: Split, calls: seq<Call>,
                     call: Call)
    requires Accounts(leaving, before, calls) && Queued(before, queued, call)
    requires SameContent(split.leaving + split.staying, queued)
    ensures Accounts(leaving + split.leaving, split.staying, calls + [call])
  {
    hide KeyBytes, Events, PushedBytes, PushedEvents;
    forall key
      ensures KeyBytes(leaving + split.leaving, key) + KeyBytes(split.staying, key) == PushedBytes(calls + [call], key)
    {
      KeyBytesConcat(leaving, split.leaving, key);
      KeyBytesConcat(split.leaving, split.staying, key);
      PushedMore(calls, call, key);
      Assoc3(KeyBytes(leaving, key), KeyBytes(split.leaving, key), KeyBytes(split.staying, key));
      Assoc3(KeyBytes(leaving, key), KeyBytes(before, key),
             if call.PushText? && call.key == key then call.bytes else []);
    }
    EventsConcat(leaving, split.leaving);
    EventsConcat(split.leaving, split.staying);
    PushedMore(calls, call, Key(false, Worker, Raw));
    Assoc3(Events(leaving), Events(split.leaving), Events(split.staying));
    Assoc3(Events(leaving), Events(before), if call.PushKind? then [call.kind] else []);
  }

  lemma PushedMore(calls: seq<Call>, call: Call, key: Key)
    ensures PushedBytes(calls + [call], key)
            == PushedBytes(calls, key) + (if call.PushText? && call.key == key then call.bytes else [])
    ensures PushedEvents(calls + [call]) == PushedEvents(calls) + (if call.PushKind? then [call.kind] else [])
  {
    assert (calls + [call])[..|calls|] == calls;
  }

  lemma QueuedText(before: seq<Entry>, i: nat, key: Key, bytes: seq<byte>, continues: bool)
    requires WellKept(before) && FoundAt(before, i, key)
    ensures Queued(before, Placed(before, i, key, bytes, continues), PushText(key, bytes, continues))
  {
    hide WellKept, KeyBytes, Events, FoundAt, Placed;
    PlacedConserves(before, i, key, bytes, continues);
    assert Events(before) + [] == Events(before);
  }

  lemma FoundIsText(es: seq<Entry>, i: nat, key: Key)
    requires FoundAt(es, i, key)
    ensures i < |es| ==> es[i].PendingText?
  {
  }

  lemma QueuedNothing(before: seq<Entry>, call: Call)
    requires call.SealAll? || call.SealGaps? || (call.PushText? && call.bytes == [])
    ensures Queued(before, before, call)
  {
    hide KeyBytes, Events;
    assert Events(before) + [] == Events(before);
    forall key
      ensures KeyBytes(before, key) == KeyBytes(before, key) + []
    {
    }
  }

  lemma QueuedEvent(before: seq<Entry>, kind: EventKind)
    ensures Queued(before, before + [PendingEvent(kind)], PushKind(kind))
  {
    var e := PendingEvent(kind);
    EventsConcat(before, [e]);
    forall key
      ensures KeyBytes(before + [e], key) == KeyBytes(before, key) + []
    {
      KeyBytesConcat(before, [e], key);
    }
  }

  lemma {:induction false} CloseAllConserves(es: seq<Entry>)
    ensures SameContent(CloseAll(es) + [], es)
  {
    hide SameContent;
    assert CloseAll(es) + [] == CloseAll(es);
    if es == [] {
      SameContentRefl([]);
    } else {
      CloseAllConserves(es[1..]);
      var first := CloseAll(es)[0];
      assert CloseAll(es)[1..] == CloseAll(es[1..]) && CloseAll(es[1..]) + [] == CloseAll(es[1..]);
      assert [first] + CloseAll(es[1..]) == CloseAll(es) && [es[0]] + es[1..] == es;
      ClosedSameContent(es[0], first);
      SameContentConcat([first], [es[0]], CloseAll(es[1..]), es[1..]);
    }
  }

  lemma ClosedSameContent(e: Entry, closed: Entry)
    requires closed == if e.PendingText? then e.(closed := true) else e
    ensures SameContent([closed], [e])
  {
  }

  // ----- order

  function EntryTokens(e: Entry): seq<Token> {
    match e
    case PendingText(key, bytes, _) => CellTokens(Cells(bytes, key))
    case PendingEvent(kind) => [E(kind)]
  }

  /** The entries as a stream, whatever is sealed. */
  function RawTokens(es: seq<Entry>): seq<Token> {
    if es == [] then [] else EntryTokens(es[0]) + RawTokens(es[1..])
  }

  lemma {:induction false} RawConcat(a: seq<Entry>, b: seq<Entry>)
    ensures RawTokens(a + b) == RawTokens(a) + RawTokens(b)
  {
    hide EntryTokens;
    if a == [] {
      assert a + b == b;
    } else {
      RawConcat(a[1..], b);
      assert (a + b)[1..] == a[1..] + b;
      Assoc3(EntryTokens(a[0]), RawTokens(a[1..]), RawTokens(b));
    }
  }

  lemma RawOne(e: Entry)
    ensures RawTokens([e]) == EntryTokens(e)
  {
    hide EntryTokens;
    assert [e][1..] == [] && EntryTokens(e) + [] == EntryTokens(e);
  }

  lemma PartsTokens(e: Entry, closed: bool)
    requires e.PendingText?
    ensures EntryTokens(CompletePart(e)) + EntryTokens(OpenPart(e, closed)) == EntryTokens(e)
    ensures EntryTokens(e.(closed := true)) == EntryTokens(e)
  {
    TakeThenDrop(e.bytes, Flushable(e.bytes));
  }

  /** Draining neither adds, loses nor moves anything. */
  lemma {:induction false} SplitReadyOrder(es: seq<Entry>)
    ensures RawTokens(SplitReady(es).leaving) + RawTokens(SplitReady(es).staying) == RawTokens(es)
  {
    hide EntryTokens;
    if es != [] {
      var e, rest := es[0], es[1..];
      if e.Passes() {
        LeaveOrder(e, SplitReady(rest));
        SplitReadyOrder(rest);
      } else {
        FrontOrder(e, rest);
      }
    }
  }

  lemma LeaveOrder(e: Entry, s: Split)
    ensures RawTokens(Leave(e, s).leaving) + RawTokens(s.staying)
         == EntryTokens(e) + (RawTokens(s.leaving) + RawTokens(s.staying))
  {
    hide EntryTokens;
    assert ([e] + s.leaving)[1..] == s.leaving;
    Assoc3(EntryTokens(e), RawTokens(s.leaving), RawTokens(s.staying));
  }

  lemma FrontOrder(e: Entry, rest: seq<Entry>)
    requires e.PendingText?
    ensures RawTokens([CompletePart(e)]) + RawTokens([OpenPart(e, false)] + rest) == EntryTokens(e) + RawTokens(rest)
  {
    PartsTokens(e, false);
    hide EntryTokens;
    RawOne(CompletePart(e));
    assert ([OpenPart(e, false)] + rest)[1..] == rest;
    Assoc3(EntryTokens(CompletePart(e)), EntryTokens(OpenPart(e, false)), RawTokens(rest));
  }

  lemma {:induction false} SplitGapsOrder(es: seq<Entry>)
    ensures RawTokens(SplitGaps(es).leaving) + RawTokens(SplitGaps(es).staying) == RawTokens(es)
  {
    hide EntryTokens, HasVisible;
    if es != [] {
      var e, rest := es[0], es[1..];
      var s := SplitGaps(rest);
      SplitGapsOrder(rest);
      if e.Passes() {
        LeaveOrder(e, s);
      } else if !HasVisible(rest) {
        FrontOrder(e, rest);
      } else {
        PartsTokens(e, true);
        LeaveOrder(e.(closed := true), s);
        LeaveOrder(OpenPart(e, true), s);
        LeaveOrder(CompletePart(e), Leave(OpenPart(e, true), s));
        Assoc3(EntryTokens(CompletePart(e)), EntryTokens(OpenPart(e, true)), RawTokens(rest));
      }
    }
  }

  lemma SplitBoundedOrder(es: seq<Entry>, capacity: nat)
    ensures RawTokens(SplitBounded(es, capacity).leaving) + RawTokens(SplitBounded(es, capacity).staying)
         == RawTokens(es)
  {
    hide SplitReady, SplitGaps, RawTokens;
    var ready := SplitReady(es);
    SplitReadyOrder(es);
    if BlockedBytes(ready.staying) > capacity {
      var more := SplitGaps(ready.staying);
      SplitGapsOrder(ready.staying);
      RawConcat(ready.leaving, more.leaving);
      Assoc3(RawTokens(ready.leaving), RawTokens(more.leaving), RawTokens(more.staying));
    }
  }

  lemma {:induction false} CloseAllOrder(es: seq<Entry>)
    ensures RawTokens(CloseAll(es)) == RawTokens(es)
  {
    if es != [] {
      CloseAllOrder(es[1..]);
      assert CloseAll(es)[1..] == CloseAll(es[1..]);
      assert EntryTokens(CloseAll(es)[0]) == EntryTokens(es[0]);
      hide EntryTokens;
    }
  }

  // ----- where a push goes

  function CallTokens(call: Call): seq<Token> {
    match call
    case PushText(key, bytes, _) => CellTokens(Cells(bytes, key))
    case PushKind(kind) => [E(kind)]
    case _ => []
  }

  function Inserted(ts: seq<Token>, at: nat, more: seq<Token>): seq<Token> {
    if at <= |ts| then ts[..at] + more + ts[at..] else ts + more
  }

  /** Everything pushed, each at its spot in what was there before. */
  function Arranged(calls: seq<Call>, spots: seq<nat>): seq<Token>
    requires |calls| == |spots|
  {
    if calls == [] then []
    else
      var n := |calls| - 1;
      Inserted(Arranged(calls[..n], spots[..n]), spots[n], CallTokens(calls[n]))
  }

  /** Bytes of one stream that end inside a UTF-8 sequence. */
  predicate OpenRun(ts: seq<Token>, key: Key) {
    (forall i :: 0 <= i < |ts| ==> OfKey(ts[i], key)) && Flushable(TokenBytes(ts)) < |ts|
  }

  ghost predicate EndsOpen(ts: seq<Token>, key: Key) {
    exists n :: 0 <= n <= |ts| && OpenRun(ts[n..], key)
  }

  /**
    A push goes to the end; but text that continues its stream goes behind the last
    byte of that stream when that byte leaves a sequence open.
   */
  ghost predicate SpotOk(before: seq<Token>, call: Call, at: nat) {
    at == |before| ||
    (&& call.PushText? && call.continues && at < |before|
     && EndsOpen(before[..at], call.key)
     && forall i :: at <= i < |before| ==> !OfKey(before[i], call.key))
  }

  ghost predicate SpotsOk(calls: seq<Call>, spots: seq<nat>)
    requires |calls| == |spots|
  {
    calls == [] ||
    var n := |calls| - 1;
    SpotsOk(calls[..n], spots[..n]) && SpotOk(Arranged(calls[..n], spots[..n]), calls[n], spots[n])
  }

  function PushedTokens(calls: seq<Call>): seq<Token> {
    if calls == [] then [] else PushedTokens(calls[..|calls| - 1]) + CallTokens(calls[|calls| - 1])
  }

  /** Where no text continues its stream, that is the order of the pushes. */
  lemma {:induction false} PushOrderKept(calls: seq<Call>, spots: seq<nat>)
    requires |calls| == |spots| && SpotsOk(calls, spots)
    requires forall i :: 0 <= i < |calls| && calls[i].PushText? ==> !calls[i].continues
    ensures Arranged(calls, spots) == PushedTokens(calls)
  {
    hide CallTokens, EndsOpen;
    if calls != [] {
      var n := |calls| - 1;
      PushOrderKept(calls[..n], spots[..n]);
      var before := Arranged(calls[..n], spots[..n]);
      assert before[..|before|] == before && before[|before|..] == [];
      assert before + CallTokens(calls[n]) + [] == before + CallTokens(calls[n]);
    }
  }

  /** The spot of a push, behind what has left already. */
  lemma PlacedOrder(lead: seq<Token>, es: seq<Entry>, n: nat, key: Key, bytes: seq<byte>, continues: bool)
      returns (at: nat)
    requires WellKept(es) && FoundAt(es, n, key)
    ensures var call := PushText(key, bytes, continues);
            && SpotOk(lead + RawTokens(es), call, at)
            && lead + RawTokens(Placed(es, n, key, bytes, continues))
               == Inserted(lead + RawTokens(es), at, CallTokens(call))
  {
    var more := CellTokens(Cells(bytes, key));
    if n < |es| && continues {
      at := ContinuedOrder(lead, es, n, bytes);
    } else {
      at := |lead + RawTokens(es)|;
      var e := PendingText(key, bytes, false);
      var kept := if n < |es| then es[n := es[n].(closed := true)] else es;
      if n < |es| {
        SealedOrder(es, n);
      }
      RawConcat(kept, [e]);
      RawOne(e);
      Assoc3(lead, RawTokens(es), more);
      hide RawTokens, CellTokens, Cells, WellKept;
      var all := lead + RawTokens(es);
      assert all[..at] == all && all[at..] == [] && all + more + [] == all + more;
    }
  }

  lemma RawInThree(a: seq<Entry>, e: Entry, c: seq<Entry>)
    ensures RawTokens(a + ([e] + c)) == RawTokens(a) + (EntryTokens(e) + RawTokens(c))
  {
    hide EntryTokens;
    RawConcat(a, [e] + c);
    RawConcat([e], c);
    RawOne(e);
  }

  lemma SealedOrder(es: seq<Entry>, n: nat)
    requires n < |es| && es[n].PendingText?
    ensures RawTokens(es[n := es[n].(closed := true)]) == RawTokens(es)
  {
    var a, e, c := es[..n], es[n], es[n + 1..];
    assert es == a + ([e] + c) && es[n := e.(closed := true)] == a + ([e.(closed := true)] + c);
    PartsTokens(e, true);
    hide EntryTokens, RawTokens;
    RawInThree(a, e, c);
    RawInThree(a, e.(closed := true), c);
  }

  lemma ContinuedOrder(lead: seq<Token>, es: seq<Entry>, n: nat, bytes: seq<byte>) returns (at: nat)
    requires WellKept(es) && n < |es| && es[n].Open()
    ensures var key := es[n].key;
            var call := PushText(key, bytes, true);
            && SpotOk(lead + RawTokens(es), call, at)
            && lead + RawTokens(es[n := es[n].(bytes := es[n].bytes + bytes)])
               == Inserted(lead + RawTokens(es), at, CallTokens(call))
  {
    var a, e, c := es[..n], es[n], es[n + 1..];
    var key, grown := e.key, e.(bytes := e.bytes + bytes);
    assert es == a + ([e] + c) && es[n := grown] == a + ([grown] + c);
    RawInThree(a, e, c);
    RawInThree(a, grown, c);
    var more := CellTokens(Cells(bytes, key));
    assert EntryTokens(grown) == EntryTokens(e) + more;
    forall j | 0 <= j < |c| && c[j].PendingText?
      ensures c[j].key != key
    {
      assert c[j] == es[n + 1 + j];
    }
    NoneOfStream(c, key);
    EntryIsOpenRun(e);
    hide EntryTokens, RawTokens, WellKept, CellTokens, Cells, OpenRun;
    at := InsertBehind(lead, RawTokens(a), EntryTokens(e), more, RawTokens(c), key);
  }

  lemma {:induction false} NoneOfStream(es: seq<Entry>, key: Key)
    requires forall j :: 0 <= j < |es| && es[j].PendingText? ==> es[j].key != key
    ensures forall i :: 0 <= i < |RawTokens(es)| ==> !OfKey(RawTokens(es)[i], key)
  {
    if es != [] {
      var rest := es[1..];
      assert forall j :: 0 <= j < |rest| ==> rest[j] == es[j + 1];
      NoneOfStream(rest, key);
      var first := EntryTokens(es[0]);
      assert forall i :: 0 <= i < |first| ==> !OfKey(first[i], key);
    }
  }

  lemma EntryIsOpenRun(e: Entry)
    requires e.Open()
    ensures OpenRun(EntryTokens(e), e.key)
  {
    assert TokenBytes(EntryTokens(e)) == e.bytes;
  }

  lemma InsertBehind(lead: seq<Token>, a: seq<Token>, run: seq<Token>, more: seq<Token>, c: seq<Token>, key: Key)
      returns (at: nat)
    requires OpenRun(run, key) && forall i :: 0 <= i < |c| ==> !OfKey(c[i], key)
    ensures var before := lead + (a + (run + c));
            && lead + (a + (run + more + c)) == Inserted(before, at, more)
            && at <= |before| && EndsOpen(before[..at], key)
            && (forall i :: at <= i < |before| ==> !OfKey(before[i], key))
  {
    hide OpenRun;
    var before := lead + (a + (run + c));
    at := |lead| + |a| + |run|;
    var front := lead + a;
    assert before == front + run + c;
    assert before[..at] == front + run && before[at..] == c;
    assert (front + run)[|front|..] == run;
    assert lead + (a + (run + more + c)) == front + run + more + c;
    assert forall i :: at <= i < |before| ==> before[i] == c[i - at];
  }

  // ----- the ledger of a run

  /** What left and what is pending is what was pushed: per stream, for the events, and in which order. */
  ghost predicate Ledger(leaving: seq<Entry>, pending: seq<Entry>, calls: seq<Call>, spots: seq<nat>) {
    && Accounts(leaving, pending, calls)
    && |spots| == |calls| && SpotsOk(calls, spots)
    && RawTokens(leaving) + RawTokens(pending) == Arranged(calls, spots)
  }

  lemma LedgerStep(leaving: seq<Entry>, before: seq<Entry>, queued: seq<Entry>, split: Split, calls: seq<Call>,
                   spots: seq<nat>, call: Call, at: nat)
    requires Ledger(leaving, before, calls, spots)
    requires Queued(before, queued, call) && SameContent(split.leaving + split.staying, queued)
    requires RawTokens(split.leaving) + RawTokens(split.staying) == RawTokens(queued)
    requires var ts := RawTokens(leaving) + RawTokens(before);
             SpotOk(ts, call, at) && RawTokens(leaving) + RawTokens(queued) == Inserted(ts, at, CallTokens(call))
    ensures Ledger(leaving + split.leaving, split.staying, calls + [call], spots + [at])
  {
    hide Accounts, Queued, SameContent, RawTokens, SpotOk, Inserted, CallTokens;
    CallAccounts(leaving, before, queued, split, calls, call);
    RawConcat(leaving, split.leaving);
    Assoc3(RawTokens(leaving), RawTokens(split.leaving), RawTokens(split.staying));
    assert (calls + [call])[..|calls|] == calls && (spots + [at])[..|spots|] == spots;
  }

  lemma AtTheEnd(ts: seq<Token>, call: Call)
    ensures SpotOk(ts, call, |ts|) && Inserted(ts, |ts|, CallTokens(call)) == ts + CallTokens(call)
  {
    hide CallTokens;
    assert ts[..|ts|] == ts && ts[|ts|..] == [] && ts + CallTokens(call) + [] == ts + CallTokens(call);
  }

  /** A push of text, placed at n and followed by what is ready then. */
  lemma TextLedger(leaving: seq<Entry>, before: seq<Entry>, n: nat, calls: seq<Call>, spots: seq<nat>, key: Key,
                   bytes: seq<byte>, continues: bool, capacity: nat)
      returns (at: nat)
    requires Ledger(leaving, before, calls, spots) && WellKept(before) && FoundAt(before, n, key)
    ensures n < |before| ==> before[n].PendingText?
    ensures var split := SplitBounded(Placed(before, n, key, bytes, continues), capacity);
            Ledger(leaving + split.leaving, split.staying, calls + [PushText(key, bytes, continues)], spots + [at])
  {
    FoundIsText(before, n, key);
    hide *;
    var queued := Placed(before, n, key, bytes, continues);
    QueuedText(before, n, key, bytes, continues);
    SplitBoundedConserves(queued, capacity);
    SplitBoundedOrder(queued, capacity);
    at := PlacedOrder(RawTokens(leaving), before, n, key, bytes, continues);
    LedgerStep(leaving, before, queued, SplitBounded(queued, capacity), calls, spots, PushText(key, bytes, continues),
               at);
  }

  lemma EventLedger(leaving: seq<Entry>, before: seq<Entry>, calls: seq<Call>, spots: seq<nat>, kind: EventKind,
                    capacity: nat)
      returns (at: nat)
    requires Ledger(leaving, before, calls, spots)
    ensures var split := SplitBounded(before + [PendingEvent(kind)], capacity);
            Ledger(leaving + split.leaving, split.staying, calls + [PushKind(kind)], spots + [at])
  {
    hide *;
    var e, call := PendingEvent(kind), PushKind(kind);
    var queued := before + [e];
    var ts := RawTokens(leaving) + RawTokens(before);
    at := |ts|;
    QueuedEvent(before, kind);
    SplitBoundedConserves(queued, capacity);
    SplitBoundedOrder(queued, capacity);
    AtTheEnd(ts, call);
    EventTokens(kind);
    RawConcat(before, [e]);
    Assoc3(RawTokens(leaving), RawTokens(before), CallTokens(call));
    LedgerStep(leaving, before, queued, SplitBounded(queued, capacity), calls, spots, call, at);
  }

  lemma EventTokens(kind: EventKind)
    ensures RawTokens([PendingEvent(kind)]) == CallTokens(PushKind(kind))
  {
    RawOne(PendingEvent(kind));
  }

  /** A call that pushes nothing and drains by `split`. */
  lemma DrainLedger(leaving: seq<Entry>, before: seq<Entry>, split: Split, calls: seq<Call>, spots: seq<nat>,
                    call: Call)
      returns (at: nat)
    requires Ledger(leaving, before, calls, spots)
    requires call.SealAll? || call.SealGaps? || (call.PushText? && call.bytes == [])
    requires match call
             case SealAll => split == Split(CloseAll(before), [])
             case SealGaps => split == SplitGaps(before)
             case _ => split == Split([], before)
    ensures Ledger(leaving + split.leaving, split.staying, calls + [call], spots + [at])
  {
    NoTokens(call);
    hide *;
    var ts := RawTokens(leaving) + RawTokens(before);
    at := |ts|;
    QueuedNothing(before, call);
    AtTheEnd(ts, call);
    assert ts + [] == ts;
    match call {
      case SealAll =>
        CloseAllConserves(before);
        CloseAllOrder(before);
        assert RawTokens(CloseAll(before)) + [] == RawTokens(CloseAll(before));
      case SealGaps =>
        SplitGapsConserves(before);
        SplitGapsOrder(before);
      case PushText(_, _, _) =>
        assert [] + before == before && [] + RawTokens(before) == RawTokens(before);
        SameContentRefl(before);
      case PushKind(_) =>
    }
    LedgerStep(leaving, before, before, split, calls, spots, call, at);
  }

  lemma NoTokens(call: Call)
    requires call.SealAll? || call.SealGaps? || (call.PushText? && call.bytes == [])
    ensures CallTokens(call) == [] && RawTokens([]) == []
  {
  }

  /**
    Over any run of pushes and drains, what left the side buffer followed by what is
    pending is everything that was pushed, each push at the end or, when it continues
    an open sequence of its stream, behind it.
   */
  method RunTails(calls: seq<Call>, capacity: nat)
      returns (ready: seq<Ready>, pending: seq<Entry>, ghost leaving: seq<Entry>, ghost spots: seq<nat>)
    ensures ready == MaterializeAll(leaving)
    ensures Events(leaving) + Events(pending) == PushedEvents(calls)
    ensures forall key :: KeyBytes(leaving, key) + KeyBytes(pending, key) == PushedBytes(calls, key)
    ensures |spots| == |calls| && SpotsOk(calls, spots)
    ensures RawTokens(leaving) + RawTokens(pending) == Arranged(calls, spots)
    ensures WellKept(pending)
  {
    hide Ledger, Materialize, SplitBounded, SplitGaps, CloseAll, WellKept, FoundAt, Placed;
    var tails := new Utf8Tails();
    ready, leaving, spots := [], [], [];
    NothingPushed();
    var i := 0;
    assert calls[..0] == [];
    while i < |calls|
      invariant i <= |calls| && tails.Valid() && fresh(tails)
      invariant ready == MaterializeAll(leaving)
      invariant Ledger(leaving, tails.entries, calls[..i], spots)
    {
      var more: seq<Ready>;
      ghost var before, at := tails.entries, 0;
      ghost var split := Split([], before);
      match calls[i] {
        case PushText(key, bytes, continues) =>
          ghost var n;
          more, n := tails.Push(key, bytes, continues, capacity);
          if bytes == [] {
            at := DrainLedger(leaving, before, split, calls[..i], spots, calls[i]);
          } else {
            at := TextLedger(leaving, before, n, calls[..i], spots, key, bytes, continues, capacity);
            split := SplitBounded(Placed(before, n, key, bytes, continues), capacity);
          }
        case PushKind(kind) =>
          more := tails.PushEvent(kind, capacity);
          at := EventLedger(leaving, before, calls[..i], spots, kind, capacity);
          split := SplitBounded(before + [PendingEvent(kind)], capacity);
        case SealAll =>
          more := tails.Drain();
          split := Split(CloseAll(before), []);
          at := DrainLedger(leaving, before, split, calls[..i], spots, calls[i]);
        case SealGaps =>
          more := tails.DrainReadyAfterVisibleGaps();
          split := SplitGaps(before);
          at := DrainLedger(leaving, before, split, calls[..i], spots, calls[i]);
      }
      assert calls[..i + 1] == calls[..i] + [calls[i]];
      MaterializeConcat(leaving, split.leaving);
      ready, spots := ready + more, spots + [at];
      leaving := leaving + split.leaving;
      i := i + 1;
    }
    assert calls[..i] == calls;
    pending := tails.entries;
    LedgerMeans(leaving, pending, calls, spots);
  }

  lemma NothingPushed()
    ensures Ledger([], [], [], []) && MaterializeAll([]) == []
  {
  }

  lemma LedgerMeans(leaving: seq<Entry>, pending: seq<Entry>, calls: seq<Call>, spots: seq<nat>)
    requires Ledger(leaving, pending, calls, spots)
    ensures Events(leaving) + Events(pending) == PushedEvents(calls)
    ensures forall key :: KeyBytes(leaving, key) + KeyBytes(pending, key) == PushedBytes(calls, key)
    ensures |spots| == |calls| && SpotsOk(calls, spots)
    ensures RawTokens(leaving) + RawTokens(pending) == Arranged(calls, spots)
  {
  }
}
