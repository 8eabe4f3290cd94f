/**
  The entities of the output timeline: labelled bytes, positioned events, the
  chunks a ring keeps them in, and the scans that its counters must agree with.
 */
module Timeline {
  import opened Sequences
  import opened Utf8

  type Text = seq<byte>

  datatype Origin = Worker | Server

  datatype Source = Raw | Ipc

  datatype Key = Key(isStderr: bool, origin: Origin, source: Source)

  /** One captured byte and the stream it came from. */
  datatype Cell = Cell(b: byte, key: Key)

  datatype EventKind =
    | Image(id: Text, data: Text, mimeType: Text, isNew: bool)
    | TextEvent(text: Text, isStderr: bool, origin: Origin)
    | InputEcho(echo: Text)
    | InputWait
    | RequestBoundary
    | SessionEnd
  {
    predicate IsMarker() {
      InputWait? || RequestBoundary? || SessionEnd?
    }
  }

  /** An event sits in front of the byte with its offset. */
  datatype Event = Event(offset: nat, kind: EventKind)

  /** `event_size_bytes`. */
  function EventSize(kind: EventKind): nat {
    match kind
    case Image(id, data, mimeType, _) => |data| + |mimeType| + |id| + 32
    case TextEvent(text, _, _) => |text| + 16
    case InputEcho(text) => |text| + 16
    case _ => 0
  }

  function Ascii(s: string): (t: Text)
    ensures |t| == |s|
  {
    seq(|s|, i requires 0 <= i < |s| => if s[i] < 128 as char then s[i] as int else 63)
  }

  const NOTICE_SIZE: nat := 63
  const OMISSION_SIZE: nat := 62

  function TruncationNotice(): (kind: EventKind)
    ensures kind.TextEvent? && EventSize(kind) == NOTICE_SIZE
  {
    TextEvent(Ascii("[repl] output truncated (older output dropped)\n"), false, Server)
  }

  function OmissionNotice(): (kind: EventKind)
    ensures kind.TextEvent? && kind.origin == Server && EventSize(kind) == OMISSION_SIZE
  {
    TextEvent(Ascii("[repl] output omitted (later content omitted)\n"), false, Server)
  }

  // ----- labelled bytes

  function Cells(bytes: seq<byte>, key: Key): (cells: seq<Cell>)
    ensures |cells| == |bytes|
  {
    seq(|bytes|, i requires 0 <= i < |bytes| => Cell(bytes[i], key))
  }

  function BytesOf(cells: seq<Cell>): (bytes: seq<byte>)
    ensures |bytes| == |cells|
  {
    seq(|cells|, i requires 0 <= i < |cells| => cells[i].b)
  }

  lemma CellsConcat(a: seq<byte>, b: seq<byte>, key: Key)
    ensures Cells(a + b, key) == Cells(a, key) + Cells(b, key)
  {
  }

  lemma BytesOfConcat(a: seq<Cell>, b: seq<Cell>)
    ensures BytesOf(a + b) == BytesOf(a) + BytesOf(b)
  {
  }

  lemma BytesOfCells(bytes: seq<byte>, key: Key)
    ensures BytesOf(Cells(bytes, key)) == bytes
  {
  }

  // ----- chunks

  datatype Chunk = Chunk(start: nat, bytes: seq<byte>, key: Key) {
    function End(): nat {
      start + |bytes|
    }
  }

  function Flatten(chunks: seq<Chunk>): seq<Cell> {
    if chunks == [] then [] else Cells(chunks[0].bytes, chunks[0].key) + Flatten(chunks[1..])
  }

  function SumLens(chunks: seq<Chunk>): nat {
    if chunks == [] then 0 else |chunks[0].bytes| + SumLens(chunks[1..])
  }

  /** Offsets just after each newline of a run of bytes that starts at `start`. */
  function NewlinesOf(start: nat, bytes: seq<byte>): seq<nat>
    decreases |bytes|
  {
    if bytes == [] then []
    else (if bytes[0] == NEWLINE then [start + 1] else []) + NewlinesOf(start + 1, bytes[1..])
  }

  function LineEnds(chunks: seq<Chunk>): seq<nat> {
    if chunks == [] then [] else NewlinesOf(chunks[0].start, chunks[0].bytes) + LineEnds(chunks[1..])
  }

  /** Non-empty chunks in offset order, possibly with gaps, inside [lo, hi]. */
  predicate Ascending(chunks: seq<Chunk>, lo: nat, hi: nat) {
    if chunks == [] then lo <= hi
    else lo <= chunks[0].start && chunks[0].bytes != [] && Ascending(chunks[1..], chunks[0].End(), hi)
  }

  /** Non-empty chunks that cover [lo, hi) exactly. */
  predicate Tiles(chunks: seq<Chunk>, lo: nat, hi: nat) {
    if chunks == [] then lo == hi
    else lo == chunks[0].start && chunks[0].bytes != [] && Tiles(chunks[1..], chunks[0].End(), hi)
  }

  function LastEnd(chunks: seq<Chunk>, lo: nat): nat {
    if chunks == [] then lo else chunks[|chunks| - 1].End()
  }

  lemma {:induction false} FlattenConcat(a: seq<Chunk>, b: seq<Chunk>)
    ensures Flatten(a + b) == Flatten(a) + Flatten(b)
    ensures SumLens(a + b) == SumLens(a) + SumLens(b)
    ensures LineEnds(a + b) == LineEnds(a) + LineEnds(b)
  {
    hide Cells, NewlinesOf;
    if a == [] {
      assert a + b == b;
    } else {
      var c := a[0];
      FlattenConcat(a[1..], b);
      assert (a + b)[1..] == a[1..] + b;
      Assoc3(Cells(c.bytes, c.key), Flatten(a[1..]), Flatten(b));
      Assoc3(NewlinesOf(c.start, c.bytes), LineEnds(a[1..]), LineEnds(b));
    }
  }

  lemma FlattenSnoc(chunks: seq<Chunk>, c: Chunk)
    ensures Flatten(chunks + [c]) == Flatten(chunks) + Cells(c.bytes, c.key)
  {
    hide Cells;
    assert [c][1..] == [];
    FlattenConcat(chunks, [c]);
    assert Cells(c.bytes, c.key) + [] == Cells(c.bytes, c.key);
  }

  lemma {:induction false} FlattenLength(chunks: seq<Chunk>)
    ensures |Flatten(chunks)| == SumLens(chunks)
  {
    if chunks != [] {
      FlattenLength(chunks[1..]);
    }
  }

  lemma {:induction false} AscendingConcat(a: seq<Chunk>, b: seq<Chunk>, lo: nat, hi: nat)
    ensures Ascending(a + b, lo, hi) <==> Ascending(a, lo, LastEnd(a, lo)) && Ascending(b, LastEnd(a, lo), hi)
  {
    if a == [] {
      assert a + b == b;
    } else {
      AscendingConcat(a[1..], b, a[0].End(), hi);
      assert (a + b)[1..] == a[1..] + b;
    }
  }

  lemma {:induction false} AscendingBounds(chunks: seq<Chunk>, lo: nat, hi: nat)
    requires Ascending(chunks, lo, hi)
    ensures lo <= LastEnd(chunks, lo) <= hi && lo + SumLens(chunks) <= LastEnd(chunks, lo)
    ensures Ascending(chunks, lo, LastEnd(chunks, lo))
  {
    if chunks != [] {
      AscendingBounds(chunks[1..], chunks[0].End(), hi);
    }
  }

  lemma {:induction false} TilesAscend(chunks: seq<Chunk>, lo: nat, hi: nat)
    requires Tiles(chunks, lo, hi)
    ensures Ascending(chunks, lo, hi) && lo + SumLens(chunks) == hi && LastEnd(chunks, lo) == hi
  {
    if chunks != [] {
      TilesAscend(chunks[1..], chunks[0].End(), hi);
    }
  }

  lemma {:induction false} TilesAppend(chunks: seq<Chunk>, lo: nat, hi: nat, c: Chunk)
    requires Tiles(chunks, lo, hi) && c.start == hi && c.bytes != []
    ensures Tiles(chunks + [c], lo, c.End())
  {
    if chunks == [] {
      assert chunks + [c] == [c];
      assert [c][1..] == [];
    } else {
      TilesAppend(chunks[1..], chunks[0].End(), hi, c);
      assert (chunks + [c])[1..] == chunks[1..] + [c];
    }
  }

  ghost predicate Within(ends: seq<nat>, lo: nat, hi: nat) {
    forall i :: 0 <= i < |ends| ==> lo < ends[i] <= hi
  }

  lemma {:induction false} NewlinesWithin(start: nat, bytes: seq<byte>)
    ensures Within(NewlinesOf(start, bytes), start, start + |bytes|)
    decreases |bytes|
  {
    if bytes != [] {
      NewlinesWithin(start + 1, bytes[1..]);
    }
  }

  lemma {:induction false} NewlinesConcat(start: nat, a: seq<byte>, b: seq<byte>)
    ensures NewlinesOf(start, a + b) == NewlinesOf(start, a) + NewlinesOf(start + |a|, b)
    decreases |a|
  {
    if a == [] {
      assert a + b == b;
    } else {
      NewlinesConcat(start + 1, a[1..], b);
      assert (a + b)[1..] == a[1..] + b;
      Assoc3(if a[0] == NEWLINE then [start + 1] else [], NewlinesOf(start + 1, a[1..]), NewlinesOf(start + |a|, b));
    }
  }

  lemma {:induction false} LineEndsWithin(chunks: seq<Chunk>, lo: nat, hi: nat)
    requires Ascending(chunks, lo, hi)
    ensures Within(LineEnds(chunks), lo, hi)
  {
    if chunks != [] {
      var c := chunks[0];
      NewlinesWithin(c.start, c.bytes);
      LineEndsWithin(chunks[1..], c.End(), hi);
      AscendingBounds(chunks[1..], c.End(), hi);
    }
  }

  // ----- events

  function SumSizes(events: seq<Event>): nat {
    if events == [] then 0 else EventSize(events[0].kind) + SumSizes(events[1..])
  }

  lemma {:induction false} SumSizesConcat(a: seq<Event>, b: seq<Event>)
    ensures SumSizes(a + b) == SumSizes(a) + SumSizes(b)
  {
    hide EventSize;
    if a == [] {
      assert a + b == b;
    } else {
      SumSizesConcat(a[1..], b);
      assert (a + b)[1..] == a[1..] + b;
    }
  }

  predicate Sorted(events: seq<Event>, lo: nat, hi: nat) {
    if events == [] then lo <= hi
    else lo <= events[0].offset && Sorted(events[1..], events[0].offset, hi)
  }

  lemma {:induction false} SortedAppend(events: seq<Event>, lo: nat, hi: nat, e: Event)
    requires Sorted(events, lo, hi) && hi <= e.offset
    ensures Sorted(events + [e], lo, e.offset)
  {
    if events == [] {
      assert events + [e] == [e] && [e][1..] == [];
    } else {
      SortedAppend(events[1..], events[0].offset, hi, e);
      assert (events + [e])[1..] == events[1..] + [e];
    }
  }

  lemma {:induction false} SortedWiden(events: seq<Event>, lo: nat, hi: nat, hi': nat)
    requires Sorted(events, lo, hi) && hi <= hi'
    ensures Sorted(events, lo, hi') && lo <= hi
  {
    if events != [] {
      SortedWiden(events[1..], events[0].offset, hi, hi');
    }
  }
}
