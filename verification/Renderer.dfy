/**
  The renderer of `resolved_output.rs`: the loops over spans and events, and the
  merging of neighbouring contents.  Merging decides how characters are grouped,
  never which characters appear, so the results are stated on flattened contents.
 */
module Renderer {
  import opened Sequences
  import opened Utf8
  import opened Wrappers
  import opened Timeline
  import opened RangeReading
  import opened Rendering

  datatype Content =
    | ContentText(text: Text, stream: TextStream, origin: Origin, visibility: Visibility)
    | ContentImage(data: Text, mimeType: Text, id: Text, isNew: bool)

  function Glyphs(c: Content): seq<Glyph> {
    match c
    case ContentText(text, stream, origin, visibility) => Chars(text, stream, origin, visibility)
    case ContentImage(data, mimeType, id, isNew) => [Picture(data, mimeType, id, isNew)]
  }

  /** The labelled characters and images of a reply, in order. */
  function Flat(contents: seq<Content>): seq<Glyph> {
    if contents == [] then [] else Flat(contents[..|contents| - 1]) + Glyphs(contents[|contents| - 1])
  }

  lemma FlatPush(contents: seq<Content>, c: Content)
    ensures Flat(contents + [c]) == Flat(contents) + Glyphs(c)
  {
    assert (contents + [c])[..|contents|] == contents;
  }

  /** The last content can take more text of this kind. */
  predicate Mergeable(contents: seq<Content>, stream: TextStream, origin: Origin, visibility: Visibility) {
    && contents != []
    && var last := contents[|contents| - 1];
    && last.ContentText? && last.stream == stream && last.origin == origin && last.visibility == visibility
  }

  /** `push_text_with_merge`, also the merging half of `push_generated_echo`. */
  method PushText(contents: seq<Content>, text: Text, stream: TextStream, origin: Origin, visibility: Visibility,
                  merge: bool) returns (out: seq<Content>, pushed: bool)
    ensures pushed == (text != [])
    ensures Flat(out) == Flat(contents) + Chars(text, stream, origin, visibility)
    ensures |out| == |contents| +
              (if text == [] || (merge && Mergeable(contents, stream, origin, visibility)) then 0 else 1)
  {
    hide Chars;
    out := contents;
    if text == [] {
      assert Chars(text, stream, origin, visibility) == [];
      return out, false;
    }
    if merge && Mergeable(contents, stream, origin, visibility) {
      var last := contents[|contents| - 1];
      var front := contents[..|contents| - 1];
      FlatPush(front, last.(text := last.text + text));
      CharsConcat(last.text, text, stream, origin, visibility);
      Assoc3(Flat(front), Chars(last.text, stream, origin, visibility), Chars(text, stream, origin, visibility));
      return front + [last.(text := last.text + text)], true;
    }
    FlatPush(contents, ContentText(text, stream, origin, visibility));
    return contents + [ContentText(text, stream, origin, visibility)], true;
  }

  /** What has been shown so far, and the state it left. */
  function Shown(contents: seq<Content>, st: Carried): Rendered {
    Rendered(Flat(contents), st)
  }

  // ----- text ranges

  datatype Piece = Piece(lo: nat, hi: nat, key: Key)

  const DEFAULT_KEY := Key(false, Worker, Raw)

  /** Bytes no span covers are shown as worker stdout. */
  function Gap(lo: nat, hi: nat): seq<Piece> {
    if lo < hi then [Piece(lo, hi, DEFAULT_KEY)] else []
  }

  /** The pieces of [a, b) that the spans announce, from `cursor` on. */
  function Pieces(spans: seq<Span>, cursor: nat, a: nat, b: nat): seq<Piece> {
    if spans == [] then Gap(cursor, b)
    else
      var span := spans[0];
      if span.end <= a then Pieces(spans[1..], cursor, a, b)
      else if span.start >= b then Gap(cursor, b)
      else
        var lo := if span.start < a then a else span.start;
        var hi := if span.end < b then span.end else b;
        Gap(cursor, lo) + ([Piece(lo, hi, span.key)] + Pieces(spans[1..], hi, a, b))
  }

  function RenderOnePiece(p: Piece, bytes: seq<byte>, st: Carried): Rendered {
    if p.lo < p.hi <= |bytes| then RenderPiece(bytes[p.lo..p.hi], p.key, st) else Rendered([], st)
  }

  function RenderPieces(pieces: seq<Piece>, bytes: seq<byte>, st: Carried): Rendered {
    if pieces == [] then Rendered([], st)
    else
      var first := RenderOnePiece(pieces[0], bytes, st);
      Then(first, RenderPieces(pieces[1..], bytes, first.state))
  }

  lemma NothingThen(r: Rendered, st: Carried)
    ensures Then(Rendered([], st), r) == r
  {
    assert [] + r.out == r.out;
  }

  lemma ThenNothing(r: Rendered)
    ensures Then(r, Rendered([], r.state)) == r
  {
    assert r.out + [] == r.out;
  }

  /** `push_default_stdout` and `push_span_text`. */
  method PushPiece(contents: seq<Content>, bytes: seq<byte>, p: Piece, merge: bool, st: Carried)
      returns (out: seq<Content>, state: Carried, pushed: bool)
    ensures Shown(out, state) == Then(Shown(contents, st), RenderOnePiece(p, bytes, st))
    ensures pushed == (p.lo < p.hi <= |bytes|)
  {
    if p.lo >= p.hi || p.hi > |bytes| {
      ThenNothing(Shown(contents, st));
      return contents, st, false;
    }
    hide Render, Chars;
    var rendered := RenderBytes(bytes, p.lo, p.hi);
    RenderEndsLine(bytes[p.lo..p.hi]);
    var stream := StreamOf(p.key);
    var text := if p.key.isStderr then StderrLead(st, p.key.origin) + rendered else rendered;
    out, pushed := PushText(contents, text, stream, p.key.origin, ReplyAndTranscript, merge);
    state := if pushed then Some(TextState(stream, p.key.origin, EndsLine(text))) else st;
  }

  /** `TextRangeEmitter::emit`. */
  method Emit(contents: seq<Content>, bytes: seq<byte>, spans: seq<Span>, a: nat, b: nat, merge: bool, st: Carried)
      returns (out: seq<Content>, state: Carried, emitted: bool)
    requires a < b <= |bytes|
    ensures Shown(out, state) == Then(Shown(contents, st), RenderPieces(Pieces(spans, a, a, b), bytes, st))
  {
    hide RenderOnePiece, Flat;
    out, state, emitted := contents, st, false;
    var canMerge := merge;
    var cursor: nat := a;
    var i := 0;
    assert spans[0..] == spans;
    ghost var goal := Then(Shown(contents, st), RenderPieces(Pieces(spans, a, a, b), bytes, st));
    while i < |spans|
      invariant i <= |spans|
      invariant Then(Shown(out, state), RenderPieces(Pieces(spans[i..], cursor, a, b), bytes, state)) == goal
    {
      var span := spans[i];
      assert spans[i..][0] == span && spans[i..][1..] == spans[i + 1..];
      if span.end <= a {
        i := i + 1;
        continue;
      }
      if span.start >= b {
        break;
      }
      var lo := if span.start < a then a else span.start;
      var hi := if span.end < b then span.end else b;
      ghost var rest := Pieces(spans[i + 1..], hi, a, b);
      ghost var shown := Shown(out, state);
      var pushed;
      if cursor < lo {
        GapFirst(cursor, lo, [Piece(lo, hi, span.key)] + rest, shown, bytes);
        out, state, pushed := PushPiece(out, bytes, Piece(cursor, lo, DEFAULT_KEY), canMerge, state);
        emitted, canMerge := emitted || pushed, canMerge || pushed;
      }
      NoGap(cursor, lo, [Piece(lo, hi, span.key)] + rest);
      PieceFirst(Piece(lo, hi, span.key), rest, Shown(out, state), bytes);
      out, state, pushed := PushPiece(out, bytes, Piece(lo, hi, span.key), canMerge, state);
      emitted, canMerge := emitted || pushed, canMerge || pushed;
      cursor := hi;
      i := i + 1;
    }
    assert i == |spans| ==> spans[i..] == [];
    if cursor < b {
      assert Gap(cursor, b) + [] == Gap(cursor, b);
      GapFirst(cursor, b, [], Shown(out, state), bytes);
      var pushed;
      out, state, pushed := PushPiece(out, bytes, Piece(cursor, b, DEFAULT_KEY), canMerge, state);
      emitted := emitted || pushed;
    }
    ThenNothing(Shown(out, state));
  }

  lemma PieceFirst(p: Piece, rest: seq<Piece>, shown: Rendered, bytes: seq<byte>)
    ensures var first := RenderOnePiece(p, bytes, shown.state);
            Then(shown, RenderPieces([p] + rest, bytes, shown.state))
            == Then(Then(shown, first), RenderPieces(rest, bytes, first.state))
  {
    hide RenderOnePiece;
    var first := RenderOnePiece(p, bytes, shown.state);
    assert ([p] + rest)[1..] == rest;
    ThenAssoc(shown, first, RenderPieces(rest, bytes, first.state));
  }

  lemma GapFirst(lo: nat, hi: nat, rest: seq<Piece>, shown: Rendered, bytes: seq<byte>)
    requires lo < hi
    ensures var first := RenderOnePiece(Piece(lo, hi, DEFAULT_KEY), bytes, shown.state);
            Then(shown, RenderPieces(Gap(lo, hi) + rest, bytes, shown.state))
            == Then(Then(shown, first), RenderPieces(rest, bytes, first.state))
  {
    PieceFirst(Piece(lo, hi, DEFAULT_KEY), rest, shown, bytes);
  }

  lemma NoGap(lo: nat, hi: nat, rest: seq<Piece>)
    ensures lo >= hi ==> Gap(lo, hi) + rest == rest
  {
  }

  // ----- events

  /** `output_event_to_content`. */
  function EventContent(kind: EventKind): Content
    requires kind.Image? || kind.TextEvent?
  {
    match kind
    case Image(id, data, mimeType, isNew) => ContentImage(data, mimeType, id, isNew)
    case TextEvent(text, isStderr, origin) =>
      ContentText(text, if isStderr then Stderr else Stdout, origin, ReplyAndTranscript)
  }

  /** The handling of one event in the main loop; `wasEcho` only steers merging. */
  method PushEvent(contents: seq<Content>, kind: EventKind, mode: ProjectionMode, wasEcho: bool, st: Carried)
      returns (out: seq<Content>, state: Carried, isEcho: bool)
    ensures Shown(out, state) == Then(Shown(contents, st), RenderEvent(kind, mode, st))
  {
    hide Flat;
    ThenNothing(Shown(contents, st));
    out, state, isEcho := contents, st, wasEcho;
    match kind {
      case InputEcho(text) =>
        if text != [] && EchoVisibility(mode).Some? {
          var visibility := EchoVisibility(mode).value;
          var pushed;
          out, pushed := PushText(contents, text, Stdout, Worker, visibility, wasEcho);
          if visibility == ReplyAndTranscript {
            state := Some(TextState(Stdout, Worker, EndsLine(text)));
          } else if st.Some? && st.value.stream == Stderr && !st.value.terminated {
            state := None;
          }
          isEcho := true;
        }
      case Image(_, _, _, _) =>
        FlatPush(contents, EventContent(kind));
        out, state, isEcho := contents + [EventContent(kind)], None, false;
      case TextEvent(_, _, _) =>
        FlatPush(contents, EventContent(kind));
        out, state, isEcho := contents + [EventContent(kind)], None, false;
      case InputWait =>
        isEcho := false;
      case _ =>
        assert Flat(contents) + [] == Flat(contents);
        state, isEcho := None, false;
    }
  }

  /** The text between two positions. */
  function RenderText(bytes: seq<byte>, spans: seq<Span>, a: nat, b: nat, st: Carried): Rendered {
    if a < b then RenderPieces(Pieces(spans, a, a, b), bytes, st) else Rendered([], st)
  }

  /** What the main loop shows from `cursor` on, for any events and spans. */
  function RenderFrom(bytes: seq<byte>, spans: seq<Span>, events: seq<Event>, cursor: nat, mode: ProjectionMode,
                      st: Carried): Rendered
    decreases |events|
  {
    if events == [] then RenderText(bytes, spans, cursor, |bytes|, st)
    else if events[0].offset > |bytes| then RenderFrom(bytes, spans, events[1..], cursor, mode, st)
    else
      var text := RenderText(bytes, spans, cursor, events[0].offset, st);
      var event := RenderEvent(events[0].kind, mode, text.state);
      Then(Then(text, event), RenderFrom(bytes, spans, events[1..], events[0].offset, mode, event.state))
  }

  /** `render_bytes_with_events_and_spans_with_state` with a zero base offset. */
  method RenderBytesWithEventsAndSpans(bytes: seq<byte>, spans: seq<Span>, events: seq<Event>, mode: ProjectionMode,
                                       previous: Carried) returns (contents: seq<Content>, state: Carried)
    ensures Shown(contents, state) == RenderFrom(bytes, spans, events, 0, mode, previous)
  {
    hide RenderText, RenderEvent, Flat;
    contents, state := [], previous;
    FlatNothing();
    var cursor: nat := 0;
    var wasEcho := false;
    var i: nat := 0;
    ghost var goal := RenderFrom(bytes, spans, events, 0, mode, previous);
    assert events[0..] == events;
    NothingThen(goal, previous);
    while i < |events|
      invariant i <= |events|
      invariant Then(Shown(contents, state), RenderFrom(bytes, spans, events[i..], cursor, mode, state)) == goal
    {
      var event := events[i];
      assert events[i..][0] == event && events[i..][1..] == events[i + 1..];
      if event.offset > |bytes| {
        i := i + 1;
        continue;
      }
      ghost var shown := Shown(contents, state);
      ghost var text := RenderText(bytes, spans, cursor, event.offset, state);
      ghost var after := RenderEvent(event.kind, mode, text.state);
      ThenRegroup(shown, text, after, RenderFrom(bytes, spans, events[i + 1..], event.offset, mode, after.state));
      var emitted;
      contents, state, emitted := EmitText(contents, bytes, spans, cursor, event.offset, !wasEcho, state);
      if emitted {
        wasEcho := false;
      }
      contents, state, wasEcho := PushEvent(contents, event.kind, mode, wasEcho, state);
      cursor := event.offset;
      i := i + 1;
    }
    assert events[i..] == [];
    var emitted;
    contents, state, emitted := EmitText(contents, bytes, spans, cursor, |bytes|, !wasEcho, state);
  }

  lemma FlatNothing()
    ensures Flat([]) == []
  {
  }

  lemma ThenRegroup(a: Rendered, b: Rendered, c: Rendered, d: Rendered)
    ensures Then(a, Then(Then(b, c), d)) == Then(Then(Then(a, b), c), d)
  {
    ThenAssoc(a, Then(b, c), d);
    ThenAssoc(a, b, c);
  }

  /** The calls of `emit` in the main loop, made only for text that lies ahead. */
  method EmitText(contents: seq<Content>, bytes: seq<byte>, spans: seq<Span>, a: nat, b: nat, merge: bool, st: Carried)
      returns (out: seq<Content>, state: Carried, emitted: bool)
    requires b <= |bytes|
    ensures Shown(out, state) == Then(Shown(contents, st), RenderText(bytes, spans, a, b, st))
  {
    if a < b {
      out, state, emitted := Emit(contents, bytes, spans, a, b, merge, st);
    } else {
      ThenNothing(Shown(contents, st));
      return contents, st, false;
    }
  }

  /** Events inside [base, end], moved to start at zero. */
  function Rebase(events: seq<Event>, base: nat, end: nat): seq<Event> {
    if events == [] then []
    else if base <= events[0].offset <= end then
      [Event(events[0].offset - base, events[0].kind)] + Rebase(events[1..], base, end)
    else Rebase(events[1..], base, end)
  }

  /** What a range shows. */
  function RenderRange(range: OutputRange, mode: ProjectionMode, previous: Carried): Rendered {
    if range.bytes == [] && range.events == [] then Rendered([], previous)
    else RenderFrom(range.bytes, range.spans, Rebase(range.events, range.start, range.end), 0, mode, previous)
  }

  /** `contents_from_output_range_with_state`. */
  method ContentsFromOutputRange(range: OutputRange, mode: ProjectionMode, previous: Carried)
      returns (contents: seq<Content>, state: Carried)
    ensures Shown(contents, state) == RenderRange(range, mode, previous)
  {
    if range.bytes == [] && range.events == [] {
      FlatNothing();
      return [], previous;
    }
    var events := [];
    var i := 0;
    assert range.events[0..] == range.events;
    while i < |range.events|
      invariant i <= |range.events|
      invariant events + Rebase(range.events[i..], range.start, range.end)
                == Rebase(range.events, range.start, range.end)
    {
      var event := range.events[i];
      assert range.events[i..][1..] == range.events[i + 1..];
      if range.start <= event.offset <= range.end {
        Assoc3(events, [Event(event.offset - range.start, event.kind)],
               Rebase(range.events[i + 1..], range.start, range.end));
        events := events + [Event(event.offset - range.start, event.kind)];
      }
      i := i + 1;
    }
    assert range.events[i..] == [] && events + [] == events;
    contents, state := RenderBytesWithEventsAndSpans(range.bytes, range.spans, events, mode, previous);
  }
}
