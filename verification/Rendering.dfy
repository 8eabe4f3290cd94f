/**
  What a drained stretch of the timeline looks like to the client.  The stretch
  is a token stream: labelled bytes and events in the order they were appended.
  Rendering is a fold over its maximal steps that carries a small text state.
 */
module Rendering {
  import opened Sequences
  import opened Utf8
  import opened Wrappers
  import opened Timeline

  datatype TextStream = Stdout | Stderr

  datatype Visibility = ReplyAndTranscript | TranscriptOnly

  datatype ProjectionMode = Reply | Transcript | Pager | Bundle

  /** A labelled character (its bytes, one by one) or an image. */
  datatype Glyph =
    | Char(b: byte, stream: TextStream, origin: Origin, visibility: Visibility)
    | Picture(data: Text, mimeType: Text, id: Text, isNew: bool)

  /** `RenderedTextState`: the last visible text, if a prefix decision still depends on it. */
  datatype TextState = TextState(stream: TextStream, origin: Origin, terminated: bool)

  type Carried = Option<TextState>

  datatype Rendered = Rendered(out: seq<Glyph>, state: Carried)

  datatype Token = B(cell: Cell) | E(kind: EventKind)

  function Chars(text: Text, stream: TextStream, origin: Origin, visibility: Visibility): (g: seq<Glyph>)
    ensures |g| == |text|
  {
    seq(|text|, i requires 0 <= i < |text| => Char(text[i], stream, origin, visibility))
  }

  lemma CharsConcat(a: Text, b: Text, stream: TextStream, origin: Origin, visibility: Visibility)
    ensures Chars(a + b, stream, origin, visibility)
            == Chars(a, stream, origin, visibility) + Chars(b, stream, origin, visibility)
  {
  }

  predicate EndsLine(text: Text) {
    text != [] && text[|text| - 1] == NEWLINE
  }

  // ----- text

  const STDERR_PREFIX: Text := [115, 116, 100, 101, 114, 114, 58, 32]  // "stderr: "

  /** What `render_stderr_text` puts in front of a stderr piece. */
  function StderrLead(previous: Carried, origin: Origin): Text {
    if previous.Some? && previous.value.stream == Stderr && previous.value.origin == origin
       && !previous.value.terminated
    then []
    else if previous.Some? && !previous.value.terminated then [NEWLINE] + STDERR_PREFIX
    else STDERR_PREFIX
  }

  function StreamOf(key: Key): TextStream {
    if key.isStderr then Stderr else Stdout
  }

  function PieceText(bytes: seq<byte>, key: Key, previous: Carried): Text {
    if key.isStderr then StderrLead(previous, key.origin) + Render(bytes) else Render(bytes)
  }

  /** A non-empty run of equally labelled bytes. */
  function RenderPiece(bytes: seq<byte>, key: Key, previous: Carried): Rendered {
    var text := PieceText(bytes, key, previous);
    Rendered(Chars(text, StreamOf(key), key.origin, ReplyAndTranscript),
             Some(TextState(StreamOf(key), key.origin, EndsLine(text))))
  }

  // ----- events

  function EchoVisibility(mode: ProjectionMode): Option<Visibility> {
    match mode
    case Reply => None
    case Transcript => Some(ReplyAndTranscript)
    case _ => Some(TranscriptOnly)
  }

  function RenderEcho(text: Text, mode: ProjectionMode, previous: Carried): Rendered {
    if text == [] || EchoVisibility(mode).None? then Rendered([], previous)
    else
      var visibility := EchoVisibility(mode).value;
      var out := Chars(text, Stdout, Worker, visibility);
      if visibility == ReplyAndTranscript then
        Rendered(out, Some(TextState(Stdout, Worker, EndsLine(text))))
      else if previous.Some? && previous.value.stream == Stderr && !previous.value.terminated then
        Rendered(out, None)
      else
        Rendered(out, previous)
  }

  function RenderEvent(kind: EventKind, mode: ProjectionMode, previous: Carried): Rendered {
    match kind
    case InputEcho(text) => RenderEcho(text, mode, previous)
    case Image(id, data, mimeType, isNew) => Rendered([Picture(data, mimeType, id, isNew)], None)
    case TextEvent(text, isStderr, origin) =>
      Rendered(Chars(text, if isStderr then Stderr else Stdout, origin, ReplyAndTranscript), None)
    case InputWait => Rendered([], previous)
    case _ => Rendered([], None)
  }

  // ----- streams

  /** Length of the run of equally labelled bytes in front. */
  function RunLen(ts: seq<Token>): (n: nat)
    requires ts != [] && ts[0].B?
    ensures 1 <= n <= |ts|
  {
    if |ts| > 1 && ts[1].B? && ts[1].cell.key == ts[0].cell.key then 1 + RunLen(ts[1..]) else 1
  }

  function FirstLen(ts: seq<Token>): (n: nat)
    requires ts != []
    ensures 1 <= n <= |ts|
  {
    if ts[0].E? then 1 else RunLen(ts)
  }

  function TokenBytes(ts: seq<Token>): (bytes: seq<byte>)
    ensures |bytes| == |ts|
  {
    seq(|ts|, i requires 0 <= i < |ts| => if ts[i].B? then ts[i].cell.b else 0)
  }

  /** One event, or one run of bytes. */
  function RenderStep(ts: seq<Token>, mode: ProjectionMode, previous: Carried): Rendered
    requires ts != []
  {
    if ts[0].E? then RenderEvent(ts[0].kind, mode, previous)
    else RenderPiece(TokenBytes(ts), ts[0].cell.key, previous)
  }

  function Then(a: Rendered, b: Rendered): Rendered {
    Rendered(a.out + b.out, b.state)
  }

  function RenderTokens(ts: seq<Token>, mode: ProjectionMode, previous: Carried): Rendered {
    if ts == [] then Rendered([], previous)
    else
      var n := FirstLen(ts);
      var first := RenderStep(ts[..n], mode, previous);
      Then(first, RenderTokens(ts[n..], mode, first.state))
  }

  // ----- cutting a stream

  /** No run of equally labelled bytes crosses from a to b. */
  predicate AtStepBoundary(a: seq<Token>, b: seq<Token>) {
    || a == [] || b == [] || a[|a| - 1].E? || b[0].E?
    || a[|a| - 1].cell.key != b[0].cell.key
  }

  lemma {:induction false} RunLenStops(a: seq<Token>, b: seq<Token>)
    requires a != [] && a[0].B? && AtStepBoundary(a, b)
    ensures RunLen(a + b) == RunLen(a)
  {
    var t := a + b;
    if |a| > 1 {
      assert t[1] == a[1] && t[1..] == a[1..] + b;
      if a[1].B? && a[1].cell.key == a[0].cell.key {
        RunLenStops(a[1..], b);
      }
    } else if b != [] {
      assert t[1] == b[0];
    }
  }

  lemma ThenAssoc(a: Rendered, b: Rendered, c: Rendered)
    ensures Then(a, Then(b, c)) == Then(Then(a, b), c)
  {
    Assoc3(a.out, b.out, c.out);
  }

  /** A cut between steps is invisible. */
  lemma {:induction false} CutAtBoundary(a: seq<Token>, b: seq<Token>, mode: ProjectionMode, st: Carried)
    requires AtStepBoundary(a, b)
    ensures RenderTokens(a + b, mode, st)
         == Then(RenderTokens(a, mode, st), RenderTokens(b, mode, RenderTokens(a, mode, st).state))
    decreases |a|
  {
    hide RenderStep;
    if a == [] {
      assert a + b == b;
      assert [] + RenderTokens(b, mode, st).out == RenderTokens(b, mode, st).out;
    } else {
      var t := a + b;
      var n := FirstLen(a);
      assert t[0] == a[0];
      if a[0].B? {
        RunLenStops(a, b);
      }
      assert t[..n] == a[..n] && t[n..] == a[n..] + b;
      var first := RenderStep(a[..n], mode, st);
      CutAtBoundary(a[n..], b, mode, first.state);
      ThenAssoc(first, RenderTokens(a[n..], mode, first.state),
                RenderTokens(b, mode, RenderTokens(a[n..], mode, first.state).state));
    }
  }

  // ----- cutting a run

  /** The bytes and key of one run as tokens. */
  function RunTokens(bytes: seq<byte>, key: Key): (ts: seq<Token>)
    ensures |ts| == |bytes|
  {
    seq(|bytes|, i requires 0 <= i < |bytes| => B(Cell(bytes[i], key)))
  }

  lemma {:induction false} RunLenOfRun(bytes: seq<byte>, key: Key)
    requires bytes != []
    ensures RunLen(RunTokens(bytes, key)) == |bytes|
    ensures TokenBytes(RunTokens(bytes, key)) == bytes
  {
    var ts := RunTokens(bytes, key);
    if |bytes| > 1 {
      assert ts[1..] == RunTokens(bytes[1..], key);
      RunLenOfRun(bytes[1..], key);
    }
  }

  lemma RenderRun(bytes: seq<byte>, key: Key, mode: ProjectionMode, st: Carried)
    requires bytes != []
    ensures RenderTokens(RunTokens(bytes, key), mode, st) == RenderPiece(bytes, key, st)
  {
    hide RenderPiece;
    var ts := RunTokens(bytes, key);
    RunLenOfRun(bytes, key);
    assert ts[..|bytes|] == ts && ts[|bytes|..] == [];
    var r := RenderPiece(bytes, key, st);
    assert r.out + [] == r.out;
  }

  lemma {:induction false} RenderEndsLine(s: seq<byte>)
    requires s != []
    ensures Render(s) != []
    ensures EndsLine(Render(s)) <==> s[|s| - 1] == NEWLINE
  {
    var n := |s| - 1;
    var last := s[n..];
    assert s[..n] + last == s;
    if last[0] == NEWLINE {
      RenderConcat(s[..n], last);
      RenderAscii(last);
    } else {
      RenderLastByte(s);
    }
  }

  lemma {:induction false} RenderLastByte(s: seq<byte>)
    requires s != [] && s[|s| - 1] != NEWLINE
    ensures Render(s) != [] && Render(s)[|Render(s)| - 1] != NEWLINE
  {
    hide DecodeStep, Escape;
    match DecodeStep(s)
    case Truncated =>
      EscapePrintable(s);
    case Scalar(n) =>
      if n < |s| {
        RenderLastByte(s[n..]);
      } else {
        assert s[n..] == [] && s[..n] + [] == s;
      }
    case Malformed(n) =>
      EscapePrintable(s[..n]);
      if n < |s| {
        RenderLastByte(s[n..]);
      } else {
        assert s[n..] == [] && Escape(s[..n]) + [] == Escape(s[..n]);
      }
  }

  /** A run may be cut anywhere but inside a scalar, or after a newline on stderr. */
  predicate RunCutSeamless(l: seq<byte>, r: seq<byte>, key: Key) {
    && !CutsScalar(l + r, |l|)
    && !(key.isStderr && l != [] && l[|l| - 1] == NEWLINE)
  }

  /** Whether or not the cut shows, the state behind it is the same. */
  lemma PieceCutState(l: seq<byte>, r: seq<byte>, key: Key, st: Carried)
    requires l != [] && r != []
    ensures RenderPiece(l + r, key, st).state == RenderPiece(r, key, RenderPiece(l, key, st).state).state
    ensures RenderPiece(l, key, st).state == Some(TextState(StreamOf(key), key.origin, l[|l| - 1] == NEWLINE))
  {
    RenderEndsLine(l + r);
    RenderEndsLine(l);
    RenderEndsLine(r);
    assert (l + r)[|l + r| - 1] == r[|r| - 1];
    var mid := RenderPiece(l, key, st).state;
    EndsLineAfter(StderrLead(st, key.origin), Render(l + r));
    EndsLineAfter(StderrLead(st, key.origin), Render(l));
    EndsLineAfter(StderrLead(mid, key.origin), Render(r));
  }

  lemma EndsLineAfter(lead: Text, text: Text)
    requires text != []
    ensures EndsLine(lead + text) == EndsLine(text)
  {
  }

  lemma PieceCut(l: seq<byte>, r: seq<byte>, key: Key, st: Carried)
    requires l != [] && r != []
    ensures var left := RenderPiece(l, key, st);
            var right := RenderPiece(r, key, left.state);
            if RunCutSeamless(l, r, key)
            then RenderPiece(l + r, key, st).out == left.out + right.out
            else |RenderPiece(l + r, key, st).out| < |left.out| + |right.out|
  {
    hide CutsScalar, Render, Chars, EndsLine;
    PieceCutState(l, r, key, st);
    RenderCut(l, r);
    var lead := if key.isStderr then StderrLead(st, key.origin) else [];
    NoLead(Render(l));
    NoLead(Render(r));
    NoLead(Render(l + r));
    if RunCutSeamless(l, r, key) {
      Assoc3(lead, Render(l), Render(r));
      CharsConcat(lead + Render(l), Render(r), StreamOf(key), key.origin, ReplyAndTranscript);
    }
  }

  lemma NoLead(text: Text)
    ensures [] + text == text
  {
  }

  /** Cutting a run either splits its rendering or, inside a scalar, lengthens it. */
  lemma RenderCut(l: seq<byte>, r: seq<byte>)
    ensures if CutsScalar(l + r, |l|) then |Render(l + r)| < |Render(l)| + |Render(r)|
            else Render(l + r) == Render(l) + Render(r)
  {
    var s := l + r;
    assert s[..|l|] == l && s[|l|..] == r;
    RenderSplits(s, |l|);
  }

  // ----- cutting anywhere

  predicate OfKey(t: Token, key: Key) {
    t.B? && t.cell.key == key
  }

  /** Length of the run of bytes with this key at the end of a stream. */
  function LastRun(ts: seq<Token>, key: Key): (n: nat)
    ensures n <= |ts|
  {
    if ts == [] || !OfKey(ts[|ts| - 1], key) then 0 else 1 + LastRun(ts[..|ts| - 1], key)
  }

  function FirstRun(ts: seq<Token>, key: Key): (n: nat)
    ensures n <= |ts|
  {
    if ts == [] || !OfKey(ts[0], key) then 0 else 1 + FirstRun(ts[1..], key)
  }

  lemma {:induction false} LastRunSplits(ts: seq<Token>, key: Key)
    ensures var k := |ts| - LastRun(ts, key);
            && ts[k..] == RunTokens(TokenBytes(ts[k..]), key)
            && (k == 0 || !OfKey(ts[k - 1], key))
  {
    if ts != [] && OfKey(ts[|ts| - 1], key) {
      var front := ts[..|ts| - 1];
      LastRunSplits(front, key);
      var k := |ts| - LastRun(ts, key);
      assert front[k..] == ts[k..][..|ts[k..]| - 1];
      forall i | k <= i < |ts|
        ensures OfKey(ts[i], key)
      {
        if i < |ts| - 1 {
          assert ts[i] == front[k..][i - k];
        }
      }
    }
  }

  lemma {:induction false} FirstRunSplits(ts: seq<Token>, key: Key)
    ensures var k := FirstRun(ts, key);
            && ts[..k] == RunTokens(TokenBytes(ts[..k]), key)
            && (k == |ts| || !OfKey(ts[k], key))
  {
    if ts != [] && OfKey(ts[0], key) {
      var rest := ts[1..];
      FirstRunSplits(rest, key);
      var k := FirstRun(ts, key);
      forall i | 0 <= i < k
        ensures OfKey(ts[i], key)
      {
        if i > 0 {
          assert ts[i] == rest[..k - 1][i - 1];
        }
      }
    }
  }

  /** The bytes of the run that a cut between a and b would split, on either side of it. */
  function LeftOfCut(a: seq<Token>, key: Key): seq<byte> {
    TokenBytes(a[|a| - LastRun(a, key)..])
  }

  function RightOfCut(b: seq<Token>, key: Key): seq<byte> {
    TokenBytes(b[..FirstRun(b, key)])
  }

  /**
    A cut at an event or where the label changes; or inside a run at a point
    that tears no scalar and, on stderr, does not follow a newline.
   */
  predicate SeamlessCut(a: seq<Token>, b: seq<Token>) {
    || AtStepBoundary(a, b)
    || var key := b[0].cell.key; RunCutSeamless(LeftOfCut(a, key), RightOfCut(b, key), key)
  }

  lemma RunTokensConcat(l: seq<byte>, r: seq<byte>, key: Key)
    ensures RunTokens(l + r, key) == RunTokens(l, key) + RunTokens(r, key)
  {
  }

  /** The three renderings around a cut inside a run, spelled out. */
  lemma CutInRun(a0: seq<Token>, l: seq<byte>, r: seq<byte>, b0: seq<Token>, key: Key, mode: ProjectionMode,
                 st: Carried)
    requires l != [] && r != []
    requires a0 == [] || !OfKey(a0[|a0| - 1], key)
    requires b0 == [] || !OfKey(b0[0], key)
    ensures var before := RenderTokens(a0, mode, st);
            var left := RenderPiece(l, key, before.state);
            var right := RenderPiece(r, key, left.state);
            var whole := RenderPiece(l + r, key, before.state);
            && RenderTokens(a0 + RunTokens(l, key), mode, st) == Then(before, left)
            && RenderTokens(RunTokens(r, key) + b0, mode, left.state)
               == Then(right, RenderTokens(b0, mode, right.state))
            && RenderTokens(a0 + (RunTokens(l + r, key) + b0), mode, st)
               == Then(before, Then(whole, RenderTokens(b0, mode, whole.state)))
  {
    hide RenderTokens, RenderPiece;
    var before := RenderTokens(a0, mode, st);
    CutAtBoundary(a0, RunTokens(l, key), mode, st);
    RenderRun(l, key, mode, before.state);
    var left := RenderPiece(l, key, before.state);
    CutAtBoundary(RunTokens(r, key), b0, mode, left.state);
    RenderRun(r, key, mode, left.state);
    CutAtBoundary(a0, RunTokens(l + r, key) + b0, mode, st);
    CutAtBoundary(RunTokens(l + r, key), b0, mode, before.state);
    RenderRun(l + r, key, mode, before.state);
  }

  ghost predicate CutShowsUnlessSeamless(whole: Rendered, left: Rendered, right: Rendered, seamless: bool) {
    && whole.state == right.state
    && (if seamless then whole.out == left.out + right.out else |whole.out| < |left.out| + |right.out|)
  }

  lemma ComposeCut(before: Rendered, left: Rendered, right: Rendered, whole: Rendered, rest: Rendered, seamless: bool)
    requires CutShowsUnlessSeamless(whole, left, right, seamless)
    ensures CutShowsUnlessSeamless(Then(before, Then(whole, rest)), Then(before, left), Then(right, rest), seamless)
  {
    if seamless {
      calc {
        before.out + (whole.out + rest.out);
        before.out + ((left.out + right.out) + rest.out);
        { Assoc3(left.out, right.out, rest.out); }
        before.out + (left.out + (right.out + rest.out));
        { Assoc3(before.out, left.out, right.out + rest.out); }
        (before.out + left.out) + (right.out + rest.out);
      }
    }
  }

  /**
    Draining in two parts with the text state carried over shows the same
    labelled characters and images as draining at once exactly when the cut is
    seamless, and always ends in the same state.
   */
  lemma CutVisibleIff(a: seq<Token>, b: seq<Token>, mode: ProjectionMode, st: Carried)
    ensures var left := RenderTokens(a, mode, st);
            var right := RenderTokens(b, mode, left.state);
            var whole := RenderTokens(a + b, mode, st);
            && whole.state == right.state
            && (whole.out == left.out + right.out <==> SeamlessCut(a, b))
  {
    if AtStepBoundary(a, b) {
      CutAtBoundary(a, b, mode, st);
    } else {
      hide RenderTokens, RunCutSeamless, LeftOfCut, RightOfCut, RunTokens;
      var key := b[0].cell.key;
      var a0, b0 := Decompose(a, b, key);
      var l, r := LeftOfCut(a, key), RightOfCut(b, key);
      CutVisibleInRun(a0, l, r, b0, key, mode, st);
    }
  }

  /** A drain between two lines on stderr shows: the second line gets a prefix of its own. */
  lemma StderrLinesFail(key: Key, mode: ProjectionMode, st: Carried)
    requires key.isStderr
    ensures var a, b := RunTokens([97, NEWLINE], key), RunTokens([98], key);
            var left := RenderTokens(a, mode, st);
            !SeamlessCut(a, b) && left.out + RenderTokens(b, mode, left.state).out != RenderTokens(a + b, mode, st).out
  {
    hide RenderTokens;
    var a, b := RunTokens([97, NEWLINE], key), RunTokens([98], key);
    assert |a| == 2 && |b| == 1 && OfKey(a[0], key) && OfKey(a[1], key) && OfKey(b[0], key);
    assert a[..1][..0] == [] && LastRun(a[..1], key) == 1 && LastRun(a, key) == 2;
    assert LeftOfCut(a, key)[1] == NEWLINE;
    CutVisibleIff(a, b, mode, st);
  }

  lemma CutVisibleInRun(a0: seq<Token>, l: seq<byte>, r: seq<byte>, b0: seq<Token>, key: Key, mode: ProjectionMode,
                        st: Carried)
    requires l != [] && r != []
    requires a0 == [] || !OfKey(a0[|a0| - 1], key)
    requires b0 == [] || !OfKey(b0[0], key)
    ensures var left := RenderTokens(a0 + RunTokens(l, key), mode, st);
            CutShowsUnlessSeamless(
              RenderTokens(a0 + (RunTokens(l + r, key) + b0), mode, st),
              left, RenderTokens(RunTokens(r, key) + b0, mode, left.state), RunCutSeamless(l, r, key))
  {
    hide RenderTokens, RenderPiece, RunCutSeamless, RunTokens;
    CutInRun(a0, l, r, b0, key, mode, st);
    var before := RenderTokens(a0, mode, st);
    var left := RenderPiece(l, key, before.state);
    var right := RenderPiece(r, key, left.state);
    PieceCut(l, r, key, before.state);
    PieceCutState(l, r, key, before.state);
    ComposeCut(before, left, right, RenderPiece(l + r, key, before.state),
               RenderTokens(b0, mode, right.state), RunCutSeamless(l, r, key));
  }

  lemma Decompose(a: seq<Token>, b: seq<Token>, key: Key) returns (a0: seq<Token>, b0: seq<Token>)
    requires !AtStepBoundary(a, b) && key == b[0].cell.key
    ensures LeftOfCut(a, key) != [] && RightOfCut(b, key) != []
    ensures a == a0 + RunTokens(LeftOfCut(a, key), key) && b == RunTokens(RightOfCut(b, key), key) + b0
    ensures a + b == a0 + (RunTokens(LeftOfCut(a, key) + RightOfCut(b, key), key) + b0)
    ensures a0 == [] || !OfKey(a0[|a0| - 1], key)
    ensures b0 == [] || !OfKey(b0[0], key)
  {
    hide LastRun, FirstRun, TokenBytes, RunTokens;
    var k, m := |a| - LastRun(a, key), FirstRun(b, key);
    a0, b0 := a[..k], b[m..];
    LastRunSplits(a, key);
    FirstRunSplits(b, key);
    RunsMeet(a, b, key);
    RunTokensConcat(LeftOfCut(a, key), RightOfCut(b, key), key);
    TakeThenDrop(a, k);
    TakeThenDrop(b, m);
    Rejoin(a0, a[k..], b[..m], b0);
  }

  lemma Rejoin<T>(a: seq<T>, b: seq<T>, c: seq<T>, d: seq<T>)
    ensures (a + b) + (c + d) == a + ((b + c) + d)
  {
  }

  lemma RunsMeet(a: seq<Token>, b: seq<Token>, key: Key)
    requires !AtStepBoundary(a, b) && key == b[0].cell.key
    ensures LastRun(a, key) > 0 && FirstRun(b, key) > 0
    ensures LeftOfCut(a, key) != [] && RightOfCut(b, key) != []
  {
  }

  // ----- many drains

  function Concat(parts: seq<seq<Token>>): seq<Token> {
    if parts == [] then [] else parts[0] + Concat(parts[1..])
  }

  /** Draining part after part, carrying the state. */
  function RenderParts(parts: seq<seq<Token>>, mode: ProjectionMode, st: Carried): Rendered {
    if parts == [] then Rendered([], st)
    else
      var first := RenderTokens(parts[0], mode, st);
      Then(first, RenderParts(parts[1..], mode, first.state))
  }

  predicate SeamlessParts(parts: seq<seq<Token>>) {
    parts == [] || (SeamlessCut(parts[0], Concat(parts[1..])) && SeamlessParts(parts[1..]))
  }

  /** Any number of seamless drains shows what a single drain shows. */
  lemma {:induction false} DrainsInvisible(parts: seq<seq<Token>>, mode: ProjectionMode, st: Carried)
    requires SeamlessParts(parts)
    ensures RenderParts(parts, mode, st) == RenderTokens(Concat(parts), mode, st)
  {
    hide RenderTokens, SeamlessCut;
    if parts == [] {
      RenderNothing(mode, st);
    } else {
      CutVisibleIff(parts[0], Concat(parts[1..]), mode, st);
      DrainsInvisible(parts[1..], mode, RenderTokens(parts[0], mode, st).state);
    }
  }

  lemma RenderNothing(mode: ProjectionMode, st: Carried)
    ensures RenderTokens([], mode, st) == Rendered([], st)
  {
  }
}
