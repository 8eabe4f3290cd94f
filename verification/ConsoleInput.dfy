/**
  The R worker's managed console input: how a batch becomes console lines and
  how R's read callback takes them, a buffer-full at a time.
 */
module ConsoleInput {
  import opened Sequences
  import opened Utf8
  import opened Wrappers

  // ----- batches and lines

  function Joined(lines: seq<seq<byte>>): seq<byte> {
    if lines == [] then [] else lines[0] + Joined(lines[1..])
  }

  /** Length of the first line of `s`, its newline included. */
  function LineLen(s: seq<byte>): (n: nat)
    requires s != []
    ensures 1 <= n <= |s|
  {
    if s[0] == NEWLINE || |s| == 1 then 1 else 1 + LineLen(s[1..])
  }

  /** Rust's `split_inclusive('\n')`. */
  function SplitInclusive(s: seq<byte>): seq<seq<byte>> {
    if s == [] then [] else [s[..LineLen(s)]] + SplitInclusive(s[LineLen(s)..])
  }

  /** The batch as R must see it: ended by a newline unless it is empty. */
  function Terminated(input: seq<byte>): seq<byte> {
    if input == [] || input[|input| - 1] == NEWLINE then input else input + [NEWLINE]
  }

  /** The lines `queue_input` appends for a batch. */
  function QueuedLines(input: seq<byte>): seq<seq<byte>> {
    SplitInclusive(Terminated(input))
  }

  predicate IsConsoleLine(line: seq<byte>) {
    line != [] && line[|line| - 1] == NEWLINE && NEWLINE !in line[..|line| - 1]
  }

  predicate AreConsoleLines(lines: seq<seq<byte>>) {
    lines == [] || (IsConsoleLine(lines[0]) && AreConsoleLines(lines[1..]))
  }

  lemma {:induction false} LineLenFindsNewline(s: seq<byte>)
    requires s != []
    ensures NEWLINE !in s[..LineLen(s) - 1]
    ensures s[LineLen(s) - 1] != NEWLINE ==> LineLen(s) == |s|
  {
    if s[0] != NEWLINE && |s| > 1 {
      LineLenFindsNewline(s[1..]);
      var n := LineLen(s[1..]);
      assert s[..n] == [s[0]] + s[1..][..n - 1];
    }
  }

  /** Splitting puts every byte on one line, in order; only the last line can lack its newline. */
  lemma {:induction false} SplitInclusiveSpells(s: seq<byte>)
    ensures Joined(SplitInclusive(s)) == s
    ensures s != [] ==> SplitInclusive(s) != []
    ensures s != [] && s[|s| - 1] == NEWLINE ==> AreConsoleLines(SplitInclusive(s))
    decreases |s|
  {
    if s != [] {
      var n := LineLen(s);
      FirstLineIsLine(s);
      hide LineLen, IsConsoleLine;
      SplitInclusiveSpells(s[n..]);
      assert SplitInclusive(s)[1..] == SplitInclusive(s[n..]);
      TakeThenDrop(s, n);
    }
  }

  lemma FirstLineIsLine(s: seq<byte>)
    requires s != []
    ensures LineLen(s) < |s| || s[|s| - 1] == NEWLINE ==> IsConsoleLine(s[..LineLen(s)])
  {
    LineLenFindsNewline(s);
    hide LineLen;
    assert s[..LineLen(s)][..LineLen(s) - 1] == s[..LineLen(s) - 1];
  }

  /** Pushing a newline onto the last line is splitting the text with the newline added. */
  lemma {:induction false} NewlineEndsLastLine(s: seq<byte>)
    requires s != [] && s[|s| - 1] != NEWLINE
    ensures SplitInclusive(s) != [] && FinishLast(SplitInclusive(s)) == SplitInclusive(s + [NEWLINE])
    decreases |s|
  {
    var n := LineLen(s);
    LineLenFindsNewline(s);
    SplitFront(s);
    hide SplitInclusive, LineLen, FinishLast;
    if s[n - 1] == NEWLINE {
      NewlineEndsLastLine(s[n..]);
      SplitPastLine(s);
      FinishLastPast(s[..n], SplitInclusive(s[n..]));
    } else {
      OneUnfinishedLine(s);
    }
  }

  function FinishLast(lines: seq<seq<byte>>): seq<seq<byte>>
    requires lines != []
  {
    if |lines| == 1 then [lines[0] + [NEWLINE]] else [lines[0]] + FinishLast(lines[1..])
  }

  lemma {:induction false} FinishLastPushes(lines: seq<seq<byte>>)
    requires lines != []
    ensures FinishLast(lines) == lines[..|lines| - 1] + [lines[|lines| - 1] + [NEWLINE]]
  {
    if |lines| > 1 {
      var rest := lines[1..];
      FinishLastPushes(rest);
      assert lines[..|lines| - 1] == [lines[0]] + rest[..|rest| - 1];
    }
  }

  lemma FinishLastPast(line: seq<byte>, rest: seq<seq<byte>>)
    requires rest != []
    ensures FinishLast([line] + rest) == [line] + FinishLast(rest)
  {
    assert ([line] + rest)[1..] == rest;
  }

  lemma SplitFront(s: seq<byte>)
    requires s != []
    ensures SplitInclusive(s) == [s[..LineLen(s)]] + SplitInclusive(s[LineLen(s)..])
  {
    hide LineLen;
  }

  lemma SplitPastLine(s: seq<byte>)
    requires s != [] && s[LineLen(s) - 1] == NEWLINE
    ensures SplitInclusive(s + [NEWLINE]) == [s[..LineLen(s)]] + SplitInclusive(s[LineLen(s)..] + [NEWLINE])
  {
    var n := LineLen(s);
    var t := s + [NEWLINE];
    FirstLineStands(s, [NEWLINE]);
    hide LineLen;
    assert t[..n] == s[..n] && t[n..] == s[n..] + [NEWLINE];
    SplitFront(t);
  }

  lemma OneUnfinishedLine(s: seq<byte>)
    requires s != [] && s[LineLen(s) - 1] != NEWLINE
    ensures SplitInclusive(s) == [s] && FinishLast([s]) == SplitInclusive(s + [NEWLINE])
  {
    LineLenFindsNewline(s);
    assert s == s[..|s| - 1] + [s[|s| - 1]];
    assert NEWLINE !in s;
    OneLine(s);
    NoNewlineIsOneLine(s);
    OneLine(s + [NEWLINE]);
  }

  lemma OneLine(s: seq<byte>)
    requires s != [] && LineLen(s) == |s|
    ensures SplitInclusive(s) == [s]
  {
    hide LineLen;
    assert s[..|s|] == s && SplitInclusive(s[|s|..]) == [];
  }

  lemma {:induction false} FirstLineStands(s: seq<byte>, t: seq<byte>)
    requires s != [] && s[LineLen(s) - 1] == NEWLINE
    ensures LineLen(s + t) == LineLen(s)
  {
    if s[0] != NEWLINE && |s| > 1 {
      assert (s + t)[1..] == s[1..] + t;
      FirstLineStands(s[1..], t);
    }
  }

  lemma {:induction false} NoNewlineIsOneLine(s: seq<byte>)
    requires NEWLINE !in s
    ensures LineLen(s + [NEWLINE]) == |s| + 1
  {
    if s != [] {
      assert (s + [NEWLINE])[1..] == s[1..] + [NEWLINE];
      NoNewlineIsOneLine(s[1..]);
    }
  }

  /** A batch is queued as whole console lines that spell it out, its missing last newline supplied. */
  lemma QueuedLinesSpell(input: seq<byte>)
    ensures Joined(QueuedLines(input)) == Terminated(input)
    ensures AreConsoleLines(QueuedLines(input))
    ensures QueuedLines(input) == [] <==> input == []
  {
    SplitInclusiveSpells(Terminated(input));
  }

  lemma {:induction false} LineLenOfLine(line: seq<byte>, rest: seq<byte>)
    requires IsConsoleLine(line)
    ensures LineLen(line + rest) == |line|
  {
    if |line| > 1 {
      assert line[0] == line[..|line| - 1][0];
      assert line[1..][..|line| - 2] == line[..|line| - 1][1..];
      assert (line + rest)[1..] == line[1..] + rest;
      LineLenOfLine(line[1..], rest);
    }
  }

  /** Console lines that spell the same text are the same lines. */
  lemma {:induction false} OneWayToSplit(a: seq<seq<byte>>, b: seq<seq<byte>>)
    requires AreConsoleLines(a) && AreConsoleLines(b) && Joined(a) == Joined(b)
    ensures a == b
  {
    if a != [] && b != [] {
      LineLenOfLine(a[0], Joined(a[1..]));
      LineLenOfLine(b[0], Joined(b[1..]));
      assert Joined(a)[..|a[0]|] == a[0] && Joined(b)[..|b[0]|] == b[0];
      CancelPrefix(a[0], Joined(a[1..]), Joined(b[1..]));
      OneWayToSplit(a[1..], b[1..]);
      assert a == [a[0]] + a[1..] && b == [b[0]] + b[1..];
    }
  }

  // ----- lines longer than R's buffer

  predicate IsCharBoundary(text: seq<byte>, i: nat) {
    i == 0 || i == |text| || (i < |text| && !IsContinuation(text[i]))
  }

  /** The last character boundary at or before `max`. */
  function BoundaryBefore(text: seq<byte>, max: nat): (n: nat)
    ensures n <= max && IsCharBoundary(text, n)
  {
    if IsCharBoundary(text, max) then max else BoundaryBefore(text, max - 1)
  }

  /** `split_console_line`; `None` is its assertion failing. */
  method SplitConsoleLine(line: seq<byte>, max: nat) returns (r: Option<(seq<byte>, Option<seq<byte>>)>)
    ensures |line| <= max ==> r == Some((line, None))
    ensures |line| > max ==>
              var cut := BoundaryBefore(line, max);
              r == if cut == 0 then None else Some((line[..cut], Some(line[cut..])))
  {
    if |line| <= max {
      return Some((line, None));
    }
    var split := max;
    while split > 0 && !IsCharBoundary(line, split)
      invariant 0 <= split <= max
      invariant BoundaryBefore(line, max) == BoundaryBefore(line, split)
    {
      split := split - 1;
    }
    if split == 0 {
      return None;
    }
    return Some((line[..split], Some(line[split..])));
  }

  /** The cut of a valid line is as late as possible, and both sides are valid text. */
  lemma {:induction false} CutKeepsText(text: seq<byte>, cut: nat)
    requires FromUtf8(text).Valid? && cut <= |text| && IsCharBoundary(text, cut)
    ensures FromUtf8(text[..cut]).Valid? && FromUtf8(text[cut..]).Valid?
  {
    if cut == 0 {
      assert text[0..] == text;
    } else {
      var n := DecodeStep(text).len;
      FirstScalarStands(text, cut);
      hide *;
      CutSlices(text, n, cut);
      CutKeepsText(text[n..], cut - n);
      ValidByStep(text[..cut], n);
    }
  }

  lemma CutSlices(text: seq<byte>, n: nat, cut: nat)
    requires n <= cut <= |text|
    ensures text[n..][cut - n..] == text[cut..] && text[n..][..cut - n] == text[..cut][n..]
  {
  }

  lemma ValidByStep(s: seq<byte>, n: nat)
    requires 0 < n <= |s| && DecodeStep(s) == Scalar(n) && FromUtf8(s[n..]).Valid?
    ensures FromUtf8(s).Valid?
  {
  }

  lemma FirstScalarStands(text: seq<byte>, cut: nat)
    requires FromUtf8(text).Valid? && 0 < cut <= |text| && IsCharBoundary(text, cut)
    ensures var n := DecodeStep(text).len;
            && 0 < n <= cut && DecodeStep(text) == Scalar(n) && FromUtf8(text[n..]).Valid?
            && IsCharBoundary(text[n..], cut - n)
            && DecodeStep(text[..cut]) == Scalar(n)
  {
    StepShape(text);
    StepOfPrefix(text, cut);
  }

  /** R's buffer is big enough for a longer line exactly when it holds the line's first character. */
  lemma SplitFitsIff(text: seq<byte>, max: nat)
    requires FromUtf8(text).Valid? && max < |text|
    ensures BoundaryBefore(text, max) > 0 <==> DecodeStep(text).len <= max
  {
    var n := DecodeStep(text).len;
    StepShape(text);
    if n <= max {
      FirstScalarIsBoundary(text);
      BoundaryAtLeast(text, max, n);
    } else {
      var cut := BoundaryBefore(text, max);
      assert cut < n;
    }
  }

  lemma FirstScalarIsBoundary(text: seq<byte>)
    requires FromUtf8(text).Valid? && text != []
    ensures IsCharBoundary(text, DecodeStep(text).len)
  {
    var n := DecodeStep(text).len;
    if n < |text| {
      assert FromUtf8(text[n..]).Valid?;
      StepShape(text[n..]);
    }
  }

  lemma {:induction false} BoundaryAtLeast(text: seq<byte>, max: nat, k: nat)
    requires k <= max && IsCharBoundary(text, k)
    ensures BoundaryBefore(text, max) >= k
  {
    if !IsCharBoundary(text, max) {
      BoundaryAtLeast(text, max - 1, k);
    }
  }

  // ----- one turn of the read callback

  datatype Read =
    | Line(text: seq<byte>)   // copied to R and reported as `input_line`
    | Wait                    // no input left: reported as `input_wait`
    | Panic                   // R's buffer cannot hold one character

  datatype Turn = Turn(read: Read, queue: seq<seq<byte>>, active: bool)

  function ReadTurn(queue: seq<seq<byte>>, active: bool, max: nat): Turn {
    if queue == [] then Turn(Wait, [], false)
    else if |queue[0]| <= max then Turn(Line(queue[0]), queue[1..], active)
    else
      var cut := BoundaryBefore(queue[0], max);
      if cut == 0 then Turn(Panic, queue[1..], active)
      else Turn(Line(queue[0][..cut]), [queue[0][cut..]] + queue[1..], active)
  }

  /** A turn takes its line off the front of the queued text, byte for byte. */
  lemma ReadTurnConserves(queue: seq<seq<byte>>, active: bool, max: nat)
    requires ReadTurn(queue, active, max).read.Line?
    ensures var turn := ReadTurn(queue, active, max);
            turn.read.text + Joined(turn.queue) == Joined(queue)
  {
    if |queue[0]| > max {
      var cut := BoundaryBefore(queue[0], max);
      var turn := ReadTurn(queue, active, max);
      assert turn.queue[1..] == queue[1..];
      TakeThenDrop(queue[0], cut);
      Assoc3(queue[0][..cut], queue[0][cut..], Joined(queue[1..]));
    }
  }

  /** The part of the R session's state that is behind its lock. */
  class Session {
    var inputQueue: seq<seq<byte>>
    var activeInput: bool

    constructor ()
      ensures inputQueue == [] && !activeInput
    {
      inputQueue, activeInput := [], false;
    }

    /** `begin_input`: a batch is refused while another is active, and is otherwise queued whole. */
    method BeginInput(input: seq<byte>) returns (ok: bool)
      modifies this
      ensures ok == !old(activeInput)
      ensures activeInput
      ensures inputQueue == if ok then old(inputQueue) + QueuedLines(input) else old(inputQueue)
    {
      if activeInput {
        return false;
      }
      activeInput := true;
      QueueInput(input);
      return true;
    }

    method QueueInput(input: seq<byte>)
      modifies `inputQueue
      ensures inputQueue == old(inputQueue) + QueuedLines(input)
    {
      if input == [] {
        return;
      }
      var lines := SplitInclusive(input);
      SplitInclusiveSpells(input);
      if input[|input| - 1] != NEWLINE {
        NewlineEndsLastLine(input);
        FinishLastPushes(lines);
        lines := lines[..|lines| - 1] + [lines[|lines| - 1] + [NEWLINE]];
      }
      inputQueue := inputQueue + lines;
    }

    /** One pass through the loop of `r_read_console`, up to what it emits. */
    method Read(max: nat) returns (read: Read)
      modifies this
      ensures Turn(read, inputQueue, activeInput) == ReadTurn(old(inputQueue), old(activeInput), max)
    {
      if inputQueue != [] {
        var line := inputQueue[0];
        inputQueue := inputQueue[1..];
        var parts := SplitConsoleLine(line, max);
        match parts
        case None => return Panic;
        case Some((head, tail)) =>
          if tail.Some? {
            inputQueue := [tail.value] + inputQueue;
          }
          return Line(head);
      }
      activeInput := false;
      return Wait;
    }
  }
}
