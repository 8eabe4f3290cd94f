/**
  The managed standard input of the Python worker: payloads wait in a queue, and
  line and byte reads take them as newline-terminated, CR-free bytes.
 */
module StdinQueue {
  import opened Sequences
  import opened Utf8
  import opened Wrappers
  import opened ConsoleInput

  const CR: byte := 13

  // ----- normalisation

  /** CR LF and a lone CR become one newline. */
  function Normalize(p: seq<byte>): seq<byte>
    decreases |p|
  {
    if p == [] then []
    else if p[0] == CR then [NEWLINE] + Normalize(AfterCr(p))
    else [p[0]] + Normalize(p[1..])
  }

  function AfterCr(p: seq<byte>): (r: seq<byte>)
    requires p != []
    ensures |r| < |p|
  {
    if |p| > 1 && p[1] == NEWLINE then p[2..] else p[1..]
  }

  method NormalizePtyInputPayload(payload: seq<byte>) returns (normalized: seq<byte>)
    ensures normalized == Normalize(payload)
  {
    normalized := [];
    var idx := 0;
    assert payload[0..] == payload;
    while idx < |payload|
      invariant idx <= |payload|
      invariant normalized + Normalize(payload[idx..]) == Normalize(payload)
    {
      var rest := payload[idx..];
      NormalizeStep(normalized, rest);
      if payload[idx] == CR {
        normalized := normalized + [NEWLINE];
        idx := idx + 1;
        assert rest[1..] == payload[idx..];
        if idx < |payload| && payload[idx] == NEWLINE {
          idx := idx + 1;
          assert rest[2..] == payload[idx..];
        }
      } else {
        normalized := normalized + [payload[idx]];
        idx := idx + 1;
        assert rest[1..] == payload[idx..];
      }
    }
  }

  lemma NormalizeStep(done: seq<byte>, rest: seq<byte>)
    requires rest != []
    ensures done + Normalize(rest)
            == if rest[0] == CR then done + [NEWLINE] + Normalize(AfterCr(rest))
               else done + [rest[0]] + Normalize(rest[1..])
  {
    hide AfterCr;
  }

  lemma {:induction false} NormalizeHasNoCr(p: seq<byte>)
    ensures CR !in Normalize(p)
    decreases |p|
  {
    if p != [] {
      NormalizeHasNoCr(if p[0] == CR then AfterCr(p) else p[1..]);
    }
  }

  lemma {:induction false} NormalizeKeepsCrFree(p: seq<byte>)
    requires CR !in p
    ensures Normalize(p) == p
    decreases |p|
  {
    if p != [] {
      assert p[0] in p;
      NormalizeKeepsCrFree(p[1..]);
    }
  }

  /** Normalising twice is normalising once, and nothing but CR-free text stays as it is. */
  lemma NormalizeIdempotent(p: seq<byte>)
    ensures Normalize(Normalize(p)) == Normalize(p)
    ensures Normalize(p) == p <==> CR !in p
  {
    NormalizeHasNoCr(p);
    NormalizeKeepsCrFree(Normalize(p));
    if CR !in p {
      NormalizeKeepsCrFree(p);
    }
  }

  /** A payload as the reads see it. */
  function Ready(payload: seq<byte>): seq<byte> {
    Normalize(Terminated(payload))
  }

  method PrepareWorkerStdinPayload(input: seq<byte>) returns (payload: seq<byte>)
    ensures payload == Terminated(input)
  {
    payload := input;
    if payload != [] && payload[|payload| - 1] != NEWLINE {
      payload := payload + [NEWLINE];
    }
  }

  predicate EndsClean(s: seq<byte>) {
    s == [] || s[|s| - 1] == NEWLINE
  }

  lemma {:induction false} NormalizeEndsClean(p: seq<byte>)
    requires EndsClean(p)
    ensures EndsClean(Normalize(p)) && (Normalize(p) == [] <==> p == [])
    decreases |p|
  {
    if p != [] {
      NormalizeEndsClean(if p[0] == CR then AfterCr(p) else p[1..]);
    }
  }

  /** What is read of a payload ends in a newline, and is nothing only for the empty payload. */
  lemma ReadyIsTerminated(payload: seq<byte>)
    ensures EndsClean(Ready(payload)) && (Ready(payload) == [] <==> payload == []) && CR !in Ready(payload)
  {
    NormalizeEndsClean(Terminated(payload));
    NormalizeHasNoCr(Terminated(payload));
  }

  // ----- the queue

  datatype Queue = Queue(payloads: seq<seq<byte>>, stdin: seq<byte>, active: bool)

  /** Everything the reads have still to deliver. */
  function Pending(q: Queue): seq<byte> {
    q.stdin + AllReady(q.payloads)
  }

  function AllReady(payloads: seq<seq<byte>>): seq<byte> {
    if payloads == [] then [] else Ready(payloads[0]) + AllReady(payloads[1..])
  }

  function Refilled(q: Queue): Queue {
    if q.stdin != [] || q.payloads == [] then q
    else q.(stdin := Ready(q.payloads[0]), payloads := q.payloads[1..])
  }

  datatype Read = Read(bytes: Option<seq<byte>>, queue: Queue)

  function ReadBytes(q: Queue, count: nat): Read {
    var r := Refilled(q);
    if count == 0 || r.stdin == [] then Read(None, r)
    else
      var n := if count < |r.stdin| then count else |r.stdin|;
      Read(Some(r.stdin[..n]), r.(stdin := r.stdin[n..]))
  }

  function ReadLine(q: Queue): Read {
    var r := Refilled(q);
    ReadBytes(r, if r.stdin == [] then 0 else LineLen(r.stdin))
  }

  const EMPTY := Queue([], [], false)

  /** Pushes and reads. */
  datatype Call = Push(payload: seq<byte>) | Line | Bytes(count: nat)

  /** All calls of the queue. */
  datatype Op = Do(call: Call) | TakeCell | BeginRead | EndRead | Interrupt | Discard | FinishCell

  function Next(q: Queue, op: Op): Queue {
    match op
    case Do(Push(p)) => q.(payloads := q.payloads + [p])
    case Do(Line) => ReadLine(q).queue
    case Do(Bytes(n)) => ReadBytes(q, n).queue
    case TakeCell => if q.active || q.payloads == [] then q else Queue(q.payloads[1..], [], false)
    case BeginRead => q.(active := true)
    case EndRead => q.(active := false)
    case Interrupt => EMPTY
    case Discard => Queue([], [], q.active)
    case FinishCell => if q.active then q else q.(stdin := [])
  }

  class PythonInputQueue {
    var payloads: seq<seq<byte>>
    var stdinBytes: seq<byte>
    var activeReadConsumer: bool

    function View(): Queue
      reads this
    {
      Queue(payloads, stdinBytes, activeReadConsumer)
    }

    constructor ()
      ensures View() == EMPTY
    {
      payloads, stdinBytes, activeReadConsumer := [], [], false;
    }

    method PushPayload(input: seq<byte>)
      modifies this
      ensures View() == old(View()).(payloads := old(payloads) + [input])
      ensures View() == Next(old(View()), Do(Push(input)))
    {
      payloads := payloads + [input];
    }

    /** A cell takes the next payload as it was pushed, and what is left of the last one is dropped. */
    method TakeCellPayload() returns (payload: Option<seq<byte>>)
      modifies this
      ensures payload == if old(activeReadConsumer) || old(payloads) == [] then None else Some(old(payloads)[0])
      ensures View() == if payload.None? then old(View()) else Queue(old(payloads)[1..], [], false)
      ensures View() == Next(old(View()), TakeCell)
    {
      if activeReadConsumer || payloads == [] {
        return None;
      }
      payload := Some(payloads[0]);
      payloads := payloads[1..];
      stdinBytes := [];
    }

    method BeginReadConsumer() returns (ok: bool)
      modifies this
      ensures ok == !old(activeReadConsumer) && View() == old(View()).(active := true)
      ensures View() == Next(old(View()), BeginRead)
    {
      if activeReadConsumer {
        return false;
      }
      activeReadConsumer := true;
      return true;
    }

    method EndReadConsumer()
      modifies this
      ensures View() == old(View()).(active := false)
      ensures View() == Next(old(View()), EndRead)
    {
      activeReadConsumer := false;
    }

    method ClearAfterInterrupt()
      modifies this
      ensures View() == EMPTY
      ensures View() == Next(old(View()), Interrupt)
    {
      DiscardUnconsumedInput();
      activeReadConsumer := false;
    }

    method DiscardUnconsumedInput()
      modifies this
      ensures View() == Queue([], [], old(activeReadConsumer))
      ensures View() == Next(old(View()), Discard)
    {
      payloads, stdinBytes := [], [];
    }

    method ClearAfterCellFinish()
      modifies this
      ensures View() == if old(activeReadConsumer) then old(View()) else old(View()).(stdin := [])
      ensures View() == Next(old(View()), FinishCell)
    {
      if !activeReadConsumer {
        stdinBytes := [];
      }
    }

    method ConsumeLine() returns (bytes: Option<seq<byte>>)
      modifies this
      ensures Read(bytes, View()) == ReadLine(old(View()))
    {
      RefillStdinBytes();
      var count := 0;
      while count < |stdinBytes| && stdinBytes[count] != NEWLINE
        invariant count <= |stdinBytes|
        invariant stdinBytes == Refilled(old(View())).stdin && View() == Refilled(old(View()))
        invariant forall k :: 0 <= k < count ==> stdinBytes[k] != NEWLINE
      {
        count := count + 1;
      }
      if count < |stdinBytes| {
        count := count + 1;
      }
      if stdinBytes != [] {
        LineLenIs(stdinBytes, count);
      }
      bytes := ConsumeBytes(count);
    }

    method ConsumeBytes(count: nat) returns (bytes: Option<seq<byte>>)
      modifies this
      ensures Read(bytes, View()) == ReadBytes(old(View()), count)
    {
      RefillStdinBytes();
      if count == 0 || stdinBytes == [] {
        return None;
      }
      var n := if count < |stdinBytes| then count else |stdinBytes|;
      bytes := Some(stdinBytes[..n]);
      stdinBytes := stdinBytes[n..];
    }

    method RefillStdinBytes()
      modifies this
      ensures View() == Refilled(old(View()))
    {
      if stdinBytes != [] || payloads == [] {
        return;
      }
      var payload := payloads[0];
      payloads := payloads[1..];
      var prepared := PrepareWorkerStdinPayload(payload);
      var normalized := NormalizePtyInputPayload(prepared);
      stdinBytes := stdinBytes + normalized;
    }
  }

  lemma {:induction false} LineLenIs(s: seq<byte>, n: nat)
    requires s != [] && 0 < n <= |s|
    requires forall k :: 0 <= k < n - 1 ==> s[k] != NEWLINE
    requires s[n - 1] == NEWLINE || n == |s|
    ensures LineLen(s) == n
  {
    if n > 1 {
      assert s[0] != NEWLINE;
      assert forall k :: 0 <= k < n - 2 ==> s[1..][k] == s[k + 1];
      LineLenIs(s[1..], n - 1);
    }
  }

  // ----- conservation

  lemma RefillConserves(q: Queue)
    ensures Pending(Refilled(q)) == Pending(q)
  {
    hide Ready;
  }

  /** A read delivers the front of what is pending and leaves the rest. */
  lemma ReadBytesConserves(q: Queue, count: nat)
    ensures var r := ReadBytes(q, count);
            Pending(q) == (if r.bytes.Some? then r.bytes.value else []) + Pending(r.queue)
  {
    hide AllReady, Refilled, Ready;
    RefillConserves(q);
    var r := Refilled(q);
    if count != 0 && r.stdin != [] {
      var n := if count < |r.stdin| then count else |r.stdin|;
      TakeThenDrop(r.stdin, n);
      Assoc3(r.stdin[..n], r.stdin[n..], AllReady(r.payloads));
    }
  }

  lemma ReadLineConserves(q: Queue)
    ensures var r := ReadLine(q);
            Pending(q) == (if r.bytes.Some? then r.bytes.value else []) + Pending(r.queue)
  {
    hide Refilled, Pending, ReadBytes;
    RefillConserves(q);
    var r := Refilled(q);
    ReadBytesConserves(r, if r.stdin == [] then 0 else LineLen(r.stdin));
  }

  lemma {:induction false} AllReadyMore(payloads: seq<seq<byte>>, p: seq<byte>)
    ensures AllReady(payloads + [p]) == AllReady(payloads) + Ready(p)
  {
    hide Ready;
    if payloads == [] {
      assert [p][1..] == [];
      assert payloads + [p] == [p] && Ready(p) + [] == Ready(p) && [] + Ready(p) == Ready(p);
    } else {
      assert (payloads + [p])[1..] == payloads[1..] + [p];
      AllReadyMore(payloads[1..], p);
      Assoc3(Ready(payloads[0]), AllReady(payloads[1..]), Ready(p));
    }
  }

  datatype Outcome = Outcome(delivered: seq<byte>, queue: Queue)

  /** The queue under any mix of pushes and reads between two clears. */
  function Perform(q: Queue, calls: seq<Call>): Outcome {
    if calls == [] then Outcome([], q)
    else
      var before := Perform(q, calls[..|calls| - 1]);
      match calls[|calls| - 1]
      case Push(p) => before.(queue := before.queue.(payloads := before.queue.payloads + [p]))
      case Line => Delivered(before.delivered, ReadLine(before.queue))
      case Bytes(n) => Delivered(before.delivered, ReadBytes(before.queue, n))
  }

  function Delivered(before: seq<byte>, read: Read): Outcome {
    Outcome(before + (if read.bytes.Some? then read.bytes.value else []), read.queue)
  }

  /** What the pushes of a run add, as the reads will see it. */
  function PushedText(calls: seq<Call>): seq<byte> {
    if calls == [] then []
    else
      PushedText(calls[..|calls| - 1])
      + (match calls[|calls| - 1] case Push(p) => Ready(p) case _ => [])
  }

  /**
    Whatever the mix of calls, what was delivered followed by what is pending is
    what was pending at first followed by the prepared payloads in push order.
   */
  lemma {:induction false} ReadsDeliverAPrefix(q: Queue, calls: seq<Call>)
    ensures var o := Perform(q, calls);
            o.delivered + Pending(o.queue) == Pending(q) + PushedText(calls)
  {
    hide Pending, ReadLine, ReadBytes, Ready;
    if calls == [] {
      assert [] + Pending(q) == Pending(q) && Pending(q) + [] == Pending(q);
    } else {
      var before := Perform(q, calls[..|calls| - 1]);
      ReadsDeliverAPrefix(q, calls[..|calls| - 1]);
      match calls[|calls| - 1]
      case Push(p) =>
        PushAdds(before.queue, p);
        Assoc3(before.delivered, Pending(before.queue), Ready(p));
        Assoc3(Pending(q), PushedText(calls[..|calls| - 1]), Ready(p));
      case Line =>
        ReadLineConserves(before.queue);
        NothingPushed(calls);
        Regain(before.delivered, ReadLine(before.queue));
      case Bytes(n) =>
        ReadBytesConserves(before.queue, n);
        NothingPushed(calls);
        Regain(before.delivered, ReadBytes(before.queue, n));
    }
  }

  lemma PushAdds(q: Queue, p: seq<byte>)
    ensures Pending(q.(payloads := q.payloads + [p])) == Pending(q) + Ready(p)
  {
    hide Ready;
    AllReadyMore(q.payloads, p);
    Assoc3(q.stdin, AllReady(q.payloads), Ready(p));
  }

  lemma NothingPushed(calls: seq<Call>)
    requires calls != [] && !calls[|calls| - 1].Push?
    ensures PushedText(calls) == PushedText(calls[..|calls| - 1])
  {
    var before := PushedText(calls[..|calls| - 1]);
    assert before + [] == before;
  }

  lemma Regain(before: seq<byte>, read: Read)
    ensures before + ((if read.bytes.Some? then read.bytes.value else []) + Pending(read.queue))
            == Delivered(before, read).delivered + Pending(Delivered(before, read).queue)
  {
    Assoc3(before, if read.bytes.Some? then read.bytes.value else [], Pending(read.queue));
  }

  // ----- lines

  /** A read leaves the current payload's bytes ended by a newline, as it found them. */
  lemma StaysClean(q: Queue, count: nat)
    requires EndsClean(q.stdin)
    ensures EndsClean(Refilled(q).stdin) && EndsClean(ReadBytes(q, count).queue.stdin)
  {
    if q.payloads != [] {
      ReadyIsTerminated(q.payloads[0]);
    }
    var s := Refilled(q).stdin;
    assert EndsClean(s) by {
      hide Ready;
    }
    var n := if count < |s| then count else |s|;
    EndsCleanBehind(s, n);
    hide Ready, EndsClean, Refilled;
  }

  lemma EndsCleanBehind(s: seq<byte>, n: nat)
    requires EndsClean(s) && n <= |s|
    ensures EndsClean(s[n..])
  {
  }

  /**
    A line read delivers one whole line, with one newline, at its end; and it
    delivers nothing exactly when no payload is under way and the next one is
    missing or empty.
   */
  lemma LineReadsAreLines(q: Queue)
    requires EndsClean(q.stdin)
    ensures var r := ReadLine(q);
            && (r.bytes.Some? ==> IsConsoleLine(r.bytes.value))
            && (r.bytes.None? <==> q.stdin == [] && (q.payloads == [] || q.payloads[0] == []))
  {
    StaysClean(q, 0);
    if q.payloads != [] {
      ReadyIsTerminated(q.payloads[0]);
    }
    hide Ready, EndsClean;
    var r := Refilled(q);
    if r.stdin != [] {
      FirstLine(r.stdin);
    }
  }

  /** The queue after any run of calls. */
  function After(q: Queue, ops: seq<Op>): Queue {
    if ops == [] then q else Next(After(q, ops[..|ops| - 1]), ops[|ops| - 1])
  }

  lemma {:induction false} CleanThroughout(q: Queue, ops: seq<Op>)
    requires EndsClean(q.stdin)
    ensures EndsClean(After(q, ops).stdin)
  {
    if ops != [] {
      var before := After(q, ops[..|ops| - 1]);
      CleanThroughout(q, ops[..|ops| - 1]);
      assert EndsClean([]);
      hide ReadBytes, EndsClean;
      match ops[|ops| - 1]
      case Do(Line) =>
        var r := Refilled(before);
        StaysClean(before, 0);
        StaysClean(r, if r.stdin == [] then 0 else LineLen(r.stdin));
      case Do(Bytes(n)) => StaysClean(before, n);
      case _ =>
    }
  }

  /**
    In any run of calls on a new queue, every line read delivers one whole line, or
    the rest of one, with one newline at its end; or nothing exactly when no payload
    is under way and the next one is missing or empty.
   */
  lemma EveryLineReadIsALine(ops: seq<Op>, i: nat)
    requires i < |ops| && ops[i] == Do(Call.Line)
    ensures var q := After(EMPTY, ops[..i]);
            var r := ReadLine(q);
            && After(EMPTY, ops[..i + 1]) == r.queue
            && (r.bytes.Some? ==> IsConsoleLine(r.bytes.value))
            && (r.bytes.None? <==> q.stdin == [] && (q.payloads == [] || q.payloads[0] == []))
  {
    assert EndsClean(EMPTY.stdin);
    assert ops[..i + 1][..i] == ops[..i];
    hide ReadLine, EndsClean, IsConsoleLine;
    CleanThroughout(EMPTY, ops[..i]);
    LineReadsAreLines(After(EMPTY, ops[..i]));
  }

  lemma FirstLine(s: seq<byte>)
    requires s != [] && EndsClean(s)
    ensures IsConsoleLine(s[..LineLen(s)])
  {
    FirstLineIsLine(s);
  }

  predicate NoEmptyPayload(payloads: seq<seq<byte>>) {
    forall i :: 0 <= i < |payloads| ==> payloads[i] != []
  }

  /** Reading lines until none is left. */
  function ReadAll(q: Queue): seq<seq<byte>>
    decreases |Pending(q)|
  {
    ReadLineConserves(q);
    var r := ReadLine(q);
    if r.bytes.None? || r.bytes.value == [] then [] else [r.bytes.value] + ReadAll(r.queue)
  }

  /** Without empty payloads, reading lines to the end delivers everything, as its lines. */
  lemma {:induction false} LinesDeliverEverything(q: Queue)
    requires EndsClean(q.stdin) && NoEmptyPayload(q.payloads)
    ensures AreConsoleLines(ReadAll(q)) && Joined(ReadAll(q)) == Pending(q)
    decreases |Pending(q)|
  {
    hide Pending, ReadLine, IsConsoleLine, EndsClean, NoEmptyPayload;
    LineReadsAreLines(q);
    ReadLineConserves(q);
    ReadLineKeeps(q);
    var r := ReadLine(q);
    if r.bytes.None? {
      NothingPending(q);
    } else {
      NotEmpty(r.bytes.value);
      LinesDeliverEverything(r.queue);
      assert ReadAll(q)[1..] == ReadAll(r.queue);
    }
  }

  lemma NotEmpty(line: seq<byte>)
    requires IsConsoleLine(line)
    ensures line != []
  {
  }

  lemma NothingPending(q: Queue)
    requires NoEmptyPayload(q.payloads) && q.stdin == [] && (q.payloads == [] || q.payloads[0] == [])
    ensures Pending(q) == []
  {
  }

  lemma ReadLineKeeps(q: Queue)
    requires EndsClean(q.stdin) && NoEmptyPayload(q.payloads)
    ensures EndsClean(ReadLine(q).queue.stdin) && NoEmptyPayload(ReadLine(q).queue.payloads)
  {
    hide EndsClean, Ready;
    var r := Refilled(q);
    StaysClean(q, 0);
    StaysClean(r, if r.stdin == [] then 0 else LineLen(r.stdin));
  }
}
