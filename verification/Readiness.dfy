/**
  The readiness handshake between the server and the R worker, without
  interrupts: server `InputState`, two first-in first-out pipes, the worker's IPC
  thread and the R thread, interleaved one lock section or message at a time.
 */
module Readiness {
  import opened Utf8
  import opened Wrappers
  import opened ConsoleInput

  datatype Msg = InputLine(text: seq<byte>) | InputWait

  /** `InputState` on the server; `completed` says that a completion time is recorded. */
  datatype Server = Server(active: bool, ready: bool, fromWait: bool, completed: bool)

  datatype Pc =
    | Running                         // R evaluates, and may call the read callback
    | Reading                         // at the head of the callback's loop
    | EmittingLine(text: seq<byte>)
    | EmittingWait
    | Waiting                         // Unix: about to look at the queue; Windows: blocked on the input event
    | Sleeping                        // Unix: blocked on the condition variable

  /** `notifying`: the IPC thread has queued a batch and has still to wake the R thread. */
  datatype Worker = Worker(queue: seq<seq<byte>>, active: bool, pc: Pc, notifying: bool, event: bool)

  datatype Event = Sent(batch: seq<byte>) | Got(msg: Msg)

  /** `refused`: the worker saw a batch while active; `rejected`: the server saw a line while inactive. */
  datatype State = State(
    windows: bool, server: Server, down: seq<seq<byte>>, up: seq<Msg>, worker: Worker,
    refused: bool, rejected: bool, trace: seq<Event>)

  function Start(windows: bool): State {
    State(windows, Server(false, false, false, false), [], [], Worker([], false, Running, false, false),
          false, false, [])
  }

  /** The server's input bookkeeping, behind the lock of its inbox. */
  class InputState {
    var active: bool
    var readyForInput: bool
    var readyFromInputWait: bool
    var completed: bool

    function View(): Server
      reads this
    {
      Server(active, readyForInput, readyFromInputWait, completed)
    }

    constructor ()
      ensures View() == Server(false, false, false, false)
    {
      active, readyForInput, readyFromInputWait, completed := false, false, false, false;
    }

    method BeginInput() returns (ok: bool)
      modifies this
      ensures ok == old(readyForInput)
      ensures View() == if ok then Began(old(View())) else old(View())
    {
      if !readyForInput {
        return false;
      }
      active := true;
      readyForInput := false;
      readyFromInputWait := false;
      completed := false;
      return true;
    }

    method ClearRequestProgress()
      modifies this
      ensures View() == Cleared(old(View()))
    {
      active := false;
      completed := false;
    }

    method RecordReadyAt(fromInputWait: bool)
      modifies this
      ensures View() == Recorded(old(View()), fromInputWait)
    {
      readyForInput := true;
      readyFromInputWait := fromInputWait;
      if active {
        completed := true;
      }
    }

    method ValidateActiveInput() returns (ok: bool)
      ensures ok == Accepts(View())
    {
      if !active {
        return false;
      }
      return !completed;
    }
  }

  function Began(s: Server): Server {
    Server(true, false, false, false)
  }

  function Cleared(s: Server): Server {
    s.(active := false, completed := false)
  }

  function Recorded(s: Server, fromWait: bool): Server {
    Server(s.active, true, fromWait, s.completed || s.active)
  }

  predicate Accepts(s: Server) {
    s.active && !s.completed
  }

  datatype Action =
    | ServerReset                    // forget the progress of the last request
    | ServerBegin(batch: seq<byte>)  // spend the readiness and send a batch
    | ServerReceive
    | WorkerReceive                  // `begin_input` of the worker, up to its notification
    | WorkerNotify
    | CallRead | Turn(max: nat) | EmitLine | EmitWait
    | LookAtQueue | SpuriousWake | TakeEvent

  function Step(s: State, a: Action): Option<State> {
    if s.refused || s.rejected then None
    else
      match a
      case ServerReset => Some(s.(server := Cleared(s.server)))
      case ServerBegin(batch) =>
        if !s.server.ready then None
        else Some(s.(server := Began(s.server), down := s.down + [batch], trace := s.trace + [Sent(batch)]))
      case ServerReceive =>
        if s.up == [] then None
        else if s.up[0].InputLine? && !Accepts(s.server) then Some(s.(rejected := true))
        else Some(s.(server := if s.up[0].InputWait? then Recorded(s.server, true) else s.server,
                     up := s.up[1..], trace := s.trace + [Got(s.up[0])]))
      case WorkerReceive =>
        if s.down == [] || s.worker.notifying then None
        else if s.worker.active then Some(s.(refused := true))
        else Some(s.(down := s.down[1..], worker := s.worker.(
               queue := s.worker.queue + QueuedLines(s.down[0]), active := true, notifying := true)))
      case EmitLine =>
        if !s.worker.pc.EmittingLine? then None
        else Some(s.(worker := s.worker.(pc := Running), up := s.up + [InputLine(s.worker.pc.text)]))
      case EmitWait =>
        if s.worker.pc != EmittingWait then None
        else Some(s.(worker := s.worker.(pc := Waiting), up := s.up + [InputWait]))
      case _ =>
        match WorkerMove(s.worker, s.windows, a)
        case None => None
        case Some(w) => Some(s.(worker := w))
  }

  /** The moves of the worker that no other party sees. */
  function WorkerMove(w: Worker, windows: bool, a: Action): Option<Worker> {
    match a
    case WorkerNotify =>
      if !w.notifying then None
      else if windows then Some(w.(notifying := false, event := true))
      else Some(w.(notifying := false, pc := if w.pc == Sleeping then Waiting else w.pc))
    case CallRead => if w.pc == Running then Some(w.(pc := Reading)) else None
    case Turn(max) => if w.pc == Reading then AfterTurn(w, ReadTurn(w.queue, w.active, max)) else None
    case LookAtQueue =>
      if windows || w.pc != Waiting then None else Some(w.(pc := if w.queue == [] then Sleeping else Reading))
    case SpuriousWake => if w.pc == Sleeping then Some(w.(pc := Waiting)) else None
    case TakeEvent =>
      if windows && w.pc == Waiting && w.event then Some(w.(pc := Reading, event := false)) else None
    case _ => None
  }

  function AfterTurn(w: Worker, turn: ConsoleInput.Turn): Option<Worker> {
    match turn.read
    case Panic => None
    case Line(text) => Some(w.(queue := turn.queue, active := turn.active, pc := EmittingLine(text)))
    case Wait => Some(w.(queue := turn.queue, active := turn.active, pc := EmittingWait))
  }

  function Run(windows: bool, actions: seq<Action>): Option<State> {
    if actions == [] then Some(Start(windows))
    else
      match Run(windows, actions[..|actions| - 1])
      case None => None
      case Some(s) => Step(s, actions[|actions| - 1])
  }

  // ----- the conversation the server is promised

  datatype Phase = Starting | Ready | Answering(left: seq<byte>)

  /** What a message may do to the conversation; `None` is a breach. */
  function Heard(p: Phase, m: Msg): Option<Phase> {
    match m
    case InputWait => if p == Starting || p == Answering([]) then Some(Ready) else None
    case InputLine(text) =>
      if p.Answering? && text != [] && text <= p.left then Some(Answering(p.left[|text|..])) else None
  }

  function Advance(p: Phase, e: Event): Option<Phase> {
    match e
    case Sent(batch) => if p == Ready then Some(Answering(Terminated(batch))) else None
    case Got(m) => Heard(p, m)
  }

  /** Where a conversation stands, when it has kept to its rules so far. */
  function PhaseOf(trace: seq<Event>): Option<Phase> {
    if trace == [] then Some(Starting)
    else
      match PhaseOf(trace[..|trace| - 1])
      case None => None
      case Some(p) => Advance(p, trace[|trace| - 1])
  }

  function HeardAll(p: Phase, up: seq<Msg>): Option<Phase>
    decreases |up|
  {
    if up == [] then Some(p)
    else
      match Heard(p, up[0])
      case None => None
      case Some(q) => HeardAll(q, up[1..])
  }

  lemma PhaseAfter(trace: seq<Event>, e: Event)
    requires PhaseOf(trace).Some?
    ensures PhaseOf(trace + [e]) == Advance(PhaseOf(trace).value, e)
  {
    hide Advance;
    assert (trace + [e])[..|trace|] == trace;
  }

  lemma {:induction false} HeardAllMore(p: Phase, up: seq<Msg>, m: Msg)
    requires HeardAll(p, up).Some?
    ensures HeardAll(p, up + [m]) == Heard(HeardAll(p, up).value, m)
    decreases |up|
  {
    hide Heard;
    if up != [] {
      HeardAllMore(Heard(p, up[0]).value, up[1..], m);
      assert (up + [m])[0] == up[0] && (up + [m])[1..] == up[1..] + [m];
    } else {
      assert up + [m] == [m] && [m][1..] == [];
    }
  }

  // ----- invariant

  /** The text the worker holds of the batch under way. */
  function Held(w: Worker): seq<byte> {
    (if w.pc.EmittingLine? then w.pc.text else []) + Joined(w.queue)
  }

  predicate Resting(w: Worker) {
    w.pc == Waiting || w.pc == Sleeping
  }

  /** `q`: where the conversation will stand when everything under way to the server has arrived. */
  ghost predicate WorkerInv(q: Phase, down: seq<seq<byte>>, w: Worker) {
    && (forall line :: line in w.queue ==> line != [])
    && (w.pc.EmittingLine? ==> w.active && w.pc.text != [])
    && (w.active ==> down == [] && w.pc != EmittingWait && q == Answering(Held(w)))
    && (!w.active ==> w.queue == [])
    && (!w.active && !Resting(w) ==> down == [] && (q == Starting || (w.pc == EmittingWait && q == Answering([]))))
    && (!w.active && Resting(w) && down == [] ==> q == Ready)
    && (!w.active && Resting(w) && down != [] ==> |down| == 1 && q == Answering(Terminated(down[0])))
  }

  /** No wake-up is lost, and on Windows none is left over. */
  predicate WakeInv(w: Worker, windows: bool) {
    && (w.pc == Sleeping ==> !windows && (w.queue != [] ==> w.notifying))
    && (windows && w.pc == Waiting && w.active ==> w.event != w.notifying)
    && (windows && (w.event || w.notifying) ==> w.pc == Waiting && w.active)
  }

  ghost predicate Inv(s: State) {
    && !s.refused
    && WakeInv(s.worker, s.windows)
    && PhaseOf(s.trace).Some?
    && s.server.ready == (PhaseOf(s.trace).value == Ready)
    && (PhaseOf(s.trace).value.Answering? ==> !s.server.completed)
    && HeardAll(PhaseOf(s.trace).value, s.up).Some?
    && WorkerInv(HeardAll(PhaseOf(s.trace).value, s.up).value, s.down, s.worker)
  }

  lemma StartInv(windows: bool)
    ensures Inv(Start(windows))
  {
  }

  lemma NothingJoined(queue: seq<seq<byte>>)
    ensures queue == [] ==> Joined(queue) == []
  {
  }

  lemma ReadTurnShape(queue: seq<seq<byte>>, active: bool, max: nat)
    requires forall line :: line in queue ==> line != []
    ensures var turn := ReadTurn(queue, active, max);
            && (turn.read == Wait <==> queue == [])
            && (queue == [] ==> turn.queue == [] && !turn.active)
            && (queue != [] ==> turn.active == active)
            && (turn.read.Line? ==> turn.read.text != [])
  {
    if queue != [] {
      assert queue[0] in queue;
    }
  }

  lemma ReadTurnLeavesLines(queue: seq<seq<byte>>, active: bool, max: nat)
    requires forall line :: line in queue ==> line != []
    ensures forall line :: line in ReadTurn(queue, active, max).queue ==> line != []
  {
    if queue != [] {
      assert queue[0] in queue;
      assert forall line :: line in queue[1..] ==> line in queue;
      var tail := queue[0][if |queue[0]| > max then BoundaryBefore(queue[0], max) else 0..];
      assert |tail| > 0;
      assert forall line :: line in [tail] + queue[1..] ==> line != [];
    }
  }

  lemma TurnKeeps(q: Phase, down: seq<seq<byte>>, w: Worker, windows: bool, max: nat, w': Worker)
    requires WorkerInv(q, down, w) && WakeInv(w, windows) && w.pc == Reading
    requires AfterTurn(w, ReadTurn(w.queue, w.active, max)) == Some(w')
    ensures WorkerInv(q, down, w') && WakeInv(w', windows)
  {
    hide ReadTurn, Joined;
    assert Held(w) == Joined(w.queue);
    NothingJoined(w.queue);
    ReadTurnShape(w.queue, w.active, max);
    ReadTurnLeavesLines(w.queue, w.active, max);
    match ReadTurn(w.queue, w.active, max).read
    case Line(text) =>
      ReadTurnConserves(w.queue, w.active, max);
      assert Held(w') == Held(w);
      assert WorkerInv(q, down, w');
    case Wait =>
      assert WorkerInv(q, down, w');
  }

  lemma MoveKeeps(q: Phase, down: seq<seq<byte>>, w: Worker, windows: bool, a: Action, w': Worker)
    requires WorkerInv(q, down, w) && WakeInv(w, windows) && WorkerMove(w, windows, a) == Some(w')
    ensures WorkerInv(q, down, w') && WakeInv(w', windows)
  {
    hide ReadTurn, AfterTurn;
    if a.Turn? {
      TurnKeeps(q, down, w, windows, a.max, w');
    }
  }

  lemma ReceiveKeeps(q: Phase, down: seq<seq<byte>>, w: Worker, windows: bool)
    requires WorkerInv(q, down, w) && WakeInv(w, windows) && down != [] && !w.notifying
    ensures !w.active
    ensures var w' := w.(queue := w.queue + QueuedLines(down[0]), active := true, notifying := true);
            WorkerInv(q, down[1..], w') && WakeInv(w', windows)
  {
    hide QueuedLines, Terminated;
    QueuedLinesSpell(down[0]);
    NoEmptyLine(QueuedLines(down[0]));
    assert w.queue + QueuedLines(down[0]) == QueuedLines(down[0]);
  }

  lemma {:induction false} NoEmptyLine(lines: seq<seq<byte>>)
    requires AreConsoleLines(lines)
    ensures forall line :: line in lines ==> line != []
  {
    if lines != [] {
      NoEmptyLine(lines[1..]);
      assert lines == [lines[0]] + lines[1..];
    }
  }

  lemma EmitKeeps(q: Phase, down: seq<seq<byte>>, w: Worker, windows: bool)
    requires WorkerInv(q, down, w) && WakeInv(w, windows) && (w.pc.EmittingLine? || w.pc == EmittingWait)
    ensures var m := if w.pc == EmittingWait then InputWait else InputLine(w.pc.text);
            && Heard(q, m).Some?
            && var w' := w.(pc := if w.pc == EmittingWait then Waiting else Running);
               WorkerInv(Heard(q, m).value, down, w') && WakeInv(w', windows)
  {
    if w.pc.EmittingLine? {
      assert Held(w)[|w.pc.text|..] == Joined(w.queue);
    }
  }

  lemma BeginKeeps(s: State, batch: seq<byte>)
    requires Inv(s) && s.server.ready
    ensures Inv(s.(server := Began(s.server), down := s.down + [batch], trace := s.trace + [Sent(batch)]))
  {
    hide WakeInv;
    assert s.up == [];
    PhaseAfter(s.trace, Sent(batch));
  }

  lemma HearKeeps(s: State)
    requires Inv(s) && s.up != [] && (s.up[0].InputLine? ==> Accepts(s.server))
    ensures Inv(s.(server := if s.up[0].InputWait? then Recorded(s.server, true) else s.server,
                   up := s.up[1..], trace := s.trace + [Got(s.up[0])]))
  {
    hide WakeInv, WorkerInv;
    PhaseAfter(s.trace, Got(s.up[0]));
  }

  lemma StepKeeps(s: State, a: Action)
    requires Inv(s) && Step(s, a).Some?
    ensures Inv(Step(s, a).value)
  {
    hide WakeInv, WorkerInv, HeardAll, Heard, WorkerMove, PhaseOf;
    var p := PhaseOf(s.trace).value;
    var q := HeardAll(p, s.up).value;
    match a
    case ServerReset =>
    case ServerBegin(batch) => BeginKeeps(s, batch);
    case ServerReceive =>
      if s.up[0].InputWait? || Accepts(s.server) {
        HearKeeps(s);
      }
    case WorkerReceive => ReceiveKeeps(q, s.down, s.worker, s.windows);
    case EmitLine =>
      EmitKeeps(q, s.down, s.worker, s.windows);
      HeardAllMore(p, s.up, InputLine(s.worker.pc.text));
    case EmitWait =>
      EmitKeeps(q, s.down, s.worker, s.windows);
      HeardAllMore(p, s.up, InputWait);
    case _ => MoveKeeps(q, s.down, s.worker, s.windows, a, WorkerMove(s.worker, s.windows, a).value);
  }

  lemma {:induction false} RunKeeps(windows: bool, actions: seq<Action>)
    requires Run(windows, actions).Some?
    ensures Inv(Run(windows, actions).value)
  {
    hide Inv, Step;
    if actions == [] {
      StartInv(windows);
    } else {
      RunKeeps(windows, actions[..|actions| - 1]);
      StepKeeps(Run(windows, actions[..|actions| - 1]).value, actions[|actions| - 1]);
    }
  }

  // ----- what every interrupt-free run guarantees

  /** No batch reaches a worker that is still active, and the conversation keeps to its rules. */
  lemma ConversationKeepsToItsRules(windows: bool, actions: seq<Action>)
    requires Run(windows, actions).Some?
    ensures var s := Run(windows, actions).value; !s.refused && PhaseOf(s.trace).Some?
  {
    hide Run, WakeInv, WorkerInv, HeardAll;
    RunKeeps(windows, actions);
  }

  /** The text of the lines in a stretch of conversation. */
  function LineTexts(trace: seq<Event>): seq<byte> {
    if trace == [] then []
    else
      LineTexts(trace[..|trace| - 1])
      + (match trace[|trace| - 1] case Got(InputLine(text)) => text case _ => [])
  }

  predicate IsLine(e: Event) {
    e.Got? && e.msg.InputLine?
  }

  lemma {:induction false} PrefixKeepsRules(trace: seq<Event>, n: nat)
    requires PhaseOf(trace).Some? && n <= |trace|
    ensures PhaseOf(trace[..n]).Some?
    decreases |trace|
  {
    hide Advance;
    if n < |trace| {
      PrefixKeepsRules(trace[..|trace| - 1], n);
      assert trace[..|trace| - 1][..n] == trace[..n];
    } else {
      assert trace[..n] == trace;
    }
  }

  /** Where the conversation stood before its event `j`. */
  function PhaseAt(trace: seq<Event>, j: nat): Option<Phase>
    requires j <= |trace|
  {
    PhaseOf(trace[..j])
  }

  lemma NextPhase(trace: seq<Event>, j: nat)
    requires PhaseOf(trace).Some? && j < |trace|
    ensures PhaseAt(trace, j).Some? && PhaseAt(trace, j + 1).Some?
    ensures PhaseAt(trace, j + 1) == Advance(PhaseAt(trace, j).value, trace[j])
  {
    hide Advance;
    PrefixKeepsRules(trace, j);
    PrefixKeepsRules(trace, j + 1);
    assert trace[..j + 1][..j] == trace[..j];
  }

  /** The text of the lines strictly between events `i` and `j`. */
  function TextBetween(trace: seq<Event>, i: nat, j: nat): seq<byte>
    requires i < j <= |trace|
  {
    LineTexts(trace[i + 1..j])
  }

  lemma TextBetweenMore(trace: seq<Event>, i: nat, j: nat)
    requires i < j < |trace| && IsLine(trace[j])
    ensures TextBetween(trace, i, j + 1) == TextBetween(trace, i, j) + trace[j].msg.text
  {
    var lines := trace[i + 1..j + 1];
    assert lines[..|lines| - 1] == trace[i + 1..j] && lines[|lines| - 1] == trace[j];
  }

  lemma LinePhase(p: Phase, e: Event)
    requires IsLine(e) && Advance(p, e).Some?
    ensures p.Answering? && Advance(p, e).value.Answering? && p.left == e.msg.text + Advance(p, e).value.left
  {
  }

  lemma SentPhase(p: Phase, e: Event)
    requires e.Sent? && Advance(p, e).Some?
    ensures p == Ready && Advance(p, e) == Some(Answering(Terminated(e.batch)))
  {
  }

  /** After a batch, the lines so far and what is left to come make up its text. */
  lemma {:induction false} LinesSpellBatch(trace: seq<Event>, i: nat, j: nat)
    requires PhaseOf(trace).Some? && i < j <= |trace| && trace[i].Sent?
    requires forall k :: i < k < j ==> IsLine(trace[k])
    ensures PhaseAt(trace, j).Some? && PhaseAt(trace, j).value.Answering?
    ensures TextBetween(trace, i, j) + PhaseAt(trace, j).value.left == Terminated(trace[i].batch)
    decreases j
  {
    hide *;
    NextPhase(trace, j - 1);
    var p := PhaseAt(trace, j - 1).value;
    if j - 1 == i {
      SentPhase(p, trace[i]);
      NoTextBetween(trace, i);
    } else {
      LinesSpellBatch(trace, i, j - 1);
      assert IsLine(trace[j - 1]);
      LinePhase(p, trace[j - 1]);
      TextBetweenMore(trace, i, j - 1);
      LineAdds(TextBetween(trace, i, j - 1), trace[j - 1], PhaseAt(trace, j).value.left);
    }
  }

  lemma LineAdds(text: seq<byte>, e: Event, left: seq<byte>)
    requires IsLine(e)
    ensures text + (e.msg.text + left) == text + e.msg.text + left
  {
  }

  lemma NoTextBetween(trace: seq<Event>, i: nat)
    requires i < |trace|
    ensures TextBetween(trace, i, i + 1) == []
  {
  }

  /**
    Every batch follows a readiness report, and the first thing after it that is
    not one of its lines is the one readiness report that answers it, by which
    time its lines have spelled the whole batch.
   */
  lemma EachBatchIsAnsweredOnce(windows: bool, actions: seq<Action>, i: nat, j: nat)
    requires Run(windows, actions).Some?
    requires var trace := Run(windows, actions).value.trace;
             i < j < |trace| && trace[i].Sent? && (forall k :: i < k < j ==> IsLine(trace[k])) && !IsLine(trace[j])
    ensures var trace := Run(windows, actions).value.trace;
            && i > 0 && trace[i - 1] == Got(InputWait)
            && trace[j] == Got(InputWait)
            && LineTexts(trace[i + 1..j]) == Terminated(trace[i].batch)
  {
    hide Run, PhaseOf, LineTexts, Terminated;
    ConversationKeepsToItsRules(windows, actions);
    var trace := Run(windows, actions).value.trace;
    LinesSpellBatch(trace, i, j);
    NextPhase(trace, j);
    assert TextBetween(trace, i, j) + [] == TextBetween(trace, i, j);
    NextPhase(trace, i);
    SentPhase(PhaseAt(trace, i).value, trace[i]);
    AtTheStart(trace);
    NextPhase(trace, i - 1);
  }

  lemma AtTheStart(trace: seq<Event>)
    ensures PhaseAt(trace, 0) == Some(Starting)
  {
  }

  /** How many readiness tokens are about: at the server, under way to it, or with the worker. */
  function Tokens(s: State): nat {
    (if s.server.ready then 1 else 0) + Waits(s.up) + |s.down|
    + (if s.worker.active || !Resting(s.worker) then 1 else 0)
  }

  function Waits(up: seq<Msg>): nat {
    if up == [] then 0 else (if up[0].InputWait? then 1 else 0) + Waits(up[1..])
  }

  lemma {:induction false} WaitsMakeReady(p: Phase, up: seq<Msg>)
    requires HeardAll(p, up).Some?
    ensures Waits(up) + (if p == Ready then 1 else 0) == if HeardAll(p, up).value == Ready then 1 else 0
    decreases |up|
  {
    if up != [] {
      WaitsMakeReady(Heard(p, up[0]).value, up[1..]);
    }
  }

  /** Exactly one readiness token circulates, at all times. */
  lemma OneToken(windows: bool, actions: seq<Action>)
    requires Run(windows, actions).Some?
    ensures Tokens(Run(windows, actions).value) == 1
  {
    hide Run, HeardAll;
    RunKeeps(windows, actions);
    var s := Run(windows, actions).value;
    WaitsMakeReady(PhaseOf(s.trace).value, s.up);
  }

  /** A worker at rest with a batch queued has a wake-up coming. */
  lemma NoLostWakeUp(windows: bool, actions: seq<Action>)
    requires Run(windows, actions).Some?
    ensures var w := Run(windows, actions).value.worker;
            && (w.pc == Sleeping && w.queue != [] ==> w.notifying)
            && (windows && w.pc == Waiting && w.active ==> w.event || w.notifying)
            && (windows && w.event ==> w.pc == Waiting && w.active)
  {
    hide Run, HeardAll, PhaseOf;
    RunKeeps(windows, actions);
    RunKeepsPlatform(windows, actions);
  }

  lemma {:induction false} RunKeepsPlatform(windows: bool, actions: seq<Action>)
    requires Run(windows, actions).Some?
    ensures Run(windows, actions).value.windows == windows
  {
    if actions != [] {
      RunKeepsPlatform(windows, actions[..|actions| - 1]);
      StepKeepsPlatform(Run(windows, actions[..|actions| - 1]).value, actions[|actions| - 1]);
    }
  }

  lemma StepKeepsPlatform(s: State, a: Action)
    requires Step(s, a).Some?
    ensures Step(s, a).value.windows == s.windows
  {
    hide WorkerMove;
  }

  // ----- when the server's own check passes

  /** Whether the server forgot the progress of its last batch after sending it. */
  predicate Forgotten(actions: seq<Action>) {
    actions != [] &&
    var last := actions[|actions| - 1];
    last.ServerReset? || (!last.ServerBegin? && Forgotten(actions[..|actions| - 1]))
  }

  lemma {:induction false} ActiveUnlessForgotten(windows: bool, actions: seq<Action>)
    requires Run(windows, actions).Some?
    ensures var s := Run(windows, actions).value;
            PhaseOf(s.trace).Some? && (PhaseOf(s.trace).value.Answering? ==> s.server.active == !Forgotten(actions))
  {
    hide Step, Inv;
    ConversationKeepsToItsRules(windows, actions);
    if actions != [] {
      var before, last := actions[..|actions| - 1], actions[|actions| - 1];
      ActiveUnlessForgotten(windows, before);
      ActiveStep(Run(windows, before).value, last);
    }
  }

  lemma ActiveStep(s: State, a: Action)
    requires Step(s, a).Some? && PhaseOf(s.trace).Some?
    requires PhaseOf(Step(s, a).value.trace).Some?
    ensures var s' := Step(s, a).value;
            && (a.ServerBegin? ==> s'.server.active)
            && (a.ServerReset? ==> !s'.server.active)
            && (!a.ServerBegin? && PhaseOf(s'.trace).value.Answering? ==>
                  PhaseOf(s.trace).value.Answering? && (!a.ServerReset? ==> s'.server.active == s.server.active))
  {
    hide WorkerMove, PhaseOf;
    if a.ServerReceive? && Step(s, a).value.trace != s.trace {
      PhaseAfter(s.trace, Got(s.up[0]));
    }
  }

  /**
    An `input_line` fails the server's check exactly when the server forgot the
    batch it belongs to before it was answered; lateness is never the reason.
   */
  lemma LineRejectedIff(windows: bool, actions: seq<Action>)
    requires Run(windows, actions).Some?
    requires var s := Run(windows, actions).value; !s.rejected && s.up != [] && s.up[0].InputLine?
    ensures var next := Step(Run(windows, actions).value, ServerReceive);
            next.Some? && (next.value.rejected <==> Forgotten(actions))
  {
    hide Run, WakeInv, WorkerInv, PhaseOf, Forgotten;
    RunKeeps(windows, actions);
    ActiveUnlessForgotten(windows, actions);
  }

  // ----- which batches are answered

  /** The batch sent last. */
  function LastBatch(trace: seq<Event>): seq<byte> {
    if trace == [] then []
    else if trace[|trace| - 1].Sent? then trace[|trace| - 1].batch
    else LastBatch(trace[..|trace| - 1])
  }

  lemma LastBatchAfter(trace: seq<Event>, e: Event)
    ensures LastBatch(trace + [e]) == if e.Sent? then e.batch else LastBatch(trace)
  {
    assert (trace + [e])[..|trace|] == trace;
  }

  /** A batch is under way as it was sent until the R thread starts on it. */
  predicate LoadInv(batch: seq<byte>, down: seq<seq<byte>>, w: Worker) {
    && (down != [] ==> down == [batch])
    && (w.active && Resting(w) ==> w.queue == QueuedLines(batch))
  }

  lemma MoveKeepsLoad(q: Phase, batch: seq<byte>, down: seq<seq<byte>>, w: Worker, windows: bool, a: Action, w': Worker)
    requires WorkerInv(q, down, w) && LoadInv(batch, down, w) && WorkerMove(w, windows, a) == Some(w')
    ensures LoadInv(batch, down, w')
  {
    hide QueuedLines, ReadTurn;
  }

  lemma BeginKeepsLoad(s: State, batch: seq<byte>)
    requires Inv(s) && s.server.ready
    ensures LoadInv(batch, s.down + [batch], s.worker)
  {
    hide QueuedLines, WakeInv;
    assert s.up == [];
  }

  lemma StepKeepsLoad(s: State, a: Action)
    requires Inv(s) && LoadInv(LastBatch(s.trace), s.down, s.worker) && Step(s, a).Some?
    ensures var t := Step(s, a).value; LoadInv(LastBatch(t.trace), t.down, t.worker)
  {
    hide QueuedLines, WakeInv, HeardAll, PhaseOf, WorkerMove, LastBatch;
    var q := HeardAll(PhaseOf(s.trace).value, s.up).value;
    match a
    case ServerReset =>
    case ServerBegin(batch) =>
      BeginKeepsLoad(s, batch);
      LastBatchAfter(s.trace, Sent(batch));
    case ServerReceive => LastBatchAfter(s.trace, Got(s.up[0]));
    case WorkerReceive => assert [] + QueuedLines(s.down[0]) == QueuedLines(s.down[0]);
    case EmitLine =>
    case EmitWait =>
    case _ =>
      MoveKeepsLoad(q, LastBatch(s.trace), s.down, s.worker, s.windows, a, WorkerMove(s.worker, s.windows, a).value);
  }

  lemma {:induction false} RunKeepsLoad(windows: bool, actions: seq<Action>)
    requires Run(windows, actions).Some?
    ensures var s := Run(windows, actions).value; LoadInv(LastBatch(s.trace), s.down, s.worker)
  {
    hide Inv, Step, LoadInv;
    if actions == [] {
      StartLoad(windows);
    } else {
      var before := actions[..|actions| - 1];
      RunKeeps(windows, before);
      RunKeepsLoad(windows, before);
      StepKeepsLoad(Run(windows, before).value, actions[|actions| - 1]);
    }
  }

  lemma StartLoad(windows: bool)
    ensures LoadInv(LastBatch([]), [], Start(windows).worker)
  {
  }

  /** The next move towards the answer. */
  function NextMove(s: State): Action {
    if s.up != [] then ServerReceive
    else if s.worker.notifying then WorkerNotify
    else if s.down != [] then WorkerReceive
    else
      match s.worker.pc
      case Running => CallRead
      case Reading => Action.Turn(if s.worker.queue == [] then 0 else |s.worker.queue[0]|)
      case EmittingLine(_) => EmitLine
      case EmittingWait => EmitWait
      case Waiting => if s.windows then TakeEvent else LookAtQueue
      case Sleeping => SpuriousWake
  }

  /** How many moves it takes at most until the next message reaches the server. */
  function Distance(s: State): nat {
    if s.up != [] then 0
    else
      20 * |s.down| + (if s.worker.notifying then 10 else 0)
      + (match s.worker.pc
         case Running => 3
         case Reading => 2
         case EmittingLine(_) => 1
         case EmittingWait => 1
         case Waiting => 4
         case Sleeping => 5)
  }

  /** A batch is outstanding that the worker can answer and the server will hear out. */
  ghost predicate Answerable(s: State) {
    && !s.rejected && Inv(s) && LoadInv(LastBatch(s.trace), s.down, s.worker)
    && PhaseOf(s.trace).value.Answering?
    && (s.windows || LastBatch(s.trace) != [])
    && (PhaseOf(s.trace).value.left == [] || s.server.active)
  }

  /** The next move is possible, and when nothing has reached the server it comes closer. */
  lemma NextMoveComesCloser(s: State)
    requires Answerable(s) && s.up == []
    ensures var next := Step(s, NextMove(s));
            && next.Some? && Answerable(next.value) && next.value.trace == s.trace
            && Distance(next.value) < Distance(s)
  {
    StepKeepsWhen(s, NextMove(s));
    UnfoldInv(s);
    QueuedLinesSpell(LastBatch(s.trace));
    hide Inv, LoadInv, PhaseOf, LastBatch, QueuedLines, WorkerInv, WakeInv;
    NextMoveIsPossible(s, PhaseOf(s.trace).value, LastBatch(s.trace));
  }

  lemma NextMoveIsPossible(s: State, p: Phase, batch: seq<byte>)
    requires !s.rejected && !s.refused && s.up == [] && p.Answering?
    requires WorkerInv(p, s.down, s.worker) && WakeInv(s.worker, s.windows) && LoadInv(batch, s.down, s.worker)
    requires s.windows || QueuedLines(batch) != []
    ensures var next := Step(s, NextMove(s));
            && next.Some? && next.value.trace == s.trace && next.value.windows == s.windows
            && next.value.server == s.server && !next.value.rejected && Distance(next.value) < Distance(s)
  {
    hide QueuedLines, ReadTurn, Joined;
    if s.worker.notifying {
    } else if s.down != [] {
      hide WakeInv;
    } else if s.worker.pc == Reading {
      hide WakeInv, WorkerInv;
      FullTurn(s.worker.queue, s.worker.active);
    } else if s.worker.pc.EmittingLine? || s.worker.pc == EmittingWait || s.worker.pc == Running {
      hide WakeInv, WorkerInv;
    } else {
      assert s.worker.active;
    }
  }

  lemma StepKeepsWhen(s: State, a: Action)
    requires Inv(s) && LoadInv(LastBatch(s.trace), s.down, s.worker)
    ensures Step(s, a).Some? ==>
              var t := Step(s, a).value; Inv(t) && LoadInv(LastBatch(t.trace), t.down, t.worker)
  {
    if Step(s, a).Some? {
      StepKeeps(s, a);
      StepKeepsLoad(s, a);
    }
  }

  lemma UnfoldInv(s: State)
    requires Inv(s) && s.up == []
    ensures !s.refused && WakeInv(s.worker, s.windows) && PhaseOf(s.trace).Some?
    ensures WorkerInv(PhaseOf(s.trace).value, s.down, s.worker)
  {
  }

  lemma FullTurn(queue: seq<seq<byte>>, active: bool)
    ensures var turn := ReadTurn(queue, active, if queue == [] then 0 else |queue[0]|);
            turn.read == if queue == [] then Wait else Line(queue[0])
  {
  }

  /** A message that has reached the server is heard: the answer, or a line that leaves less to come. */
  lemma HeardComesCloser(s: State)
    requires Answerable(s) && s.up != []
    ensures var next := Step(s, ServerReceive);
            && next.Some? && next.value.trace == s.trace + [Got(s.up[0])]
            && (s.up[0].InputLine? ==>
                  Answerable(next.value) && |PhaseOf(next.value.trace).value.left| < |PhaseOf(s.trace).value.left|)
  {
    StepKeepsWhen(s, ServerReceive);
    hide LoadInv, PhaseOf, LastBatch, WorkerInv, WakeInv;
    PhaseAfter(s.trace, Got(s.up[0]));
    LastBatchAfter(s.trace, Got(s.up[0]));
  }

  predicate EndsInAnswer(before: seq<Event>, after: seq<Event>) {
    |after| > |before| && after[|after| - 1] == Got(InputWait)
  }

  lemma {:induction false} AnswerComes(windows: bool, actions: seq<Action>) returns (more: seq<Action>)
    requires Run(windows, actions).Some? && Answerable(Run(windows, actions).value)
    ensures Run(windows, actions + more).Some?
    ensures EndsInAnswer(Run(windows, actions).value.trace, Run(windows, actions + more).value.trace)
    decreases |PhaseOf(Run(windows, actions).value.trace).value.left|, Distance(Run(windows, actions).value)
  {
    hide *;
    var s := Run(windows, actions).value;
    var a := NextMove(s);
    RunThen(windows, actions, a);
    if s.up == [] {
      NextMoveComesCloser(s);
    } else {
      ReceiveIsNext(s);
      HeardComesCloser(s);
      if s.up[0].InputWait? {
        AnswerEnds(s.trace);
        return [a];
      }
    }
    more := AnswerComes(windows, actions + [a]);
    assert actions + ([a] + more) == actions + [a] + more;
    StillEnds(s.trace, Run(windows, actions + [a]).value.trace, Run(windows, actions + [a] + more).value.trace);
    more := [a] + more;
  }

  lemma RunThen(windows: bool, actions: seq<Action>, a: Action)
    requires Run(windows, actions).Some?
    ensures Run(windows, actions + [a]) == Step(Run(windows, actions).value, a)
  {
    hide Step;
    assert (actions + [a])[..|actions + [a]| - 1] == actions;
  }

  lemma ReceiveIsNext(s: State)
    ensures s.up != [] ==> NextMove(s) == ServerReceive
  {
  }

  lemma AnswerEnds(trace: seq<Event>)
    ensures EndsInAnswer(trace, trace + [Got(InputWait)])
  {
  }

  lemma StillEnds(a: seq<Event>, b: seq<Event>, c: seq<Event>)
    requires |a| <= |b| && EndsInAnswer(b, c)
    ensures EndsInAnswer(a, c)
  {
  }

  // ----- and which are not

  /** An empty batch has been sent on Unix, and nothing else is under way. */
  predicate Stuck(s: State) {
    && !s.windows && !s.server.ready && s.up == [] && s.worker.queue == [] && Resting(s.worker)
    && s.down == if s.worker.active then [] else [[]]
  }

  lemma StuckStays(s: State, a: Action)
    requires Stuck(s) && Step(s, a).Some?
    ensures Stuck(Step(s, a).value) && Step(s, a).value.trace == s.trace
  {
    assert QueuedLines([]) == [];
  }

  /** From any state ready for input, sending an empty batch on Unix leads there. */
  lemma EmptyBatchSticks(s: State)
    requires Inv(s) && !s.windows && s.server.ready && !s.rejected
    ensures var sent := Step(s, ServerBegin([])); sent.Some? && Stuck(sent.value)
  {
    hide WakeInv;
    assert s.up == [];
  }

  lemma OnlyABatchBegins(s: State, a: Action)
    requires Step(s, a).Some? && !a.ServerBegin? && PhaseOf(s.trace).Some?
    requires var p := PhaseOf(Step(s, a).value.trace); p.Some? && p.value.Answering?
    ensures PhaseOf(s.trace).value.Answering? && LastBatch(Step(s, a).value.trace) == LastBatch(s.trace)
  {
    hide WorkerMove, PhaseOf, LastBatch;
    if a.ServerReceive? && Step(s, a).value.trace != s.trace {
      PhaseAfter(s.trace, Got(s.up[0]));
      LastBatchAfter(s.trace, Got(s.up[0]));
    }
  }

  /** On Unix an outstanding empty batch is always stuck. */
  lemma {:induction false} EmptyBatchIsStuck(actions: seq<Action>)
    requires Run(false, actions).Some?
    requires var s := Run(false, actions).value;
             PhaseOf(s.trace).Some? && PhaseOf(s.trace).value.Answering? && LastBatch(s.trace) == []
    ensures Stuck(Run(false, actions).value)
  {
    if actions != [] {
      var before, a := actions[..|actions| - 1], actions[|actions| - 1];
      var s := Run(false, before).value;
      RunKeeps(false, before);
      RunKeepsPlatform(false, before);
      hide Run, Stuck, PhaseOf, LastBatch, WorkerInv, WakeInv, HeardAll;
      if a.ServerBegin? {
        LastBatchAfter(s.trace, Sent(a.batch));
        EmptyBatchSticks(s);
      } else {
        OnlyABatchBegins(s, a);
        EmptyBatchIsStuck(before);
        StuckStays(s, a);
      }
    }
  }

  /** The server has forgotten a batch whose lines are still to come. */
  ghost predicate Mute(s: State) {
    && Inv(s) && !s.server.active
    && PhaseOf(s.trace).value.Answering? && PhaseOf(s.trace).value.left != []
  }

  lemma MuteStays(s: State, a: Action)
    requires Mute(s) && Step(s, a).Some?
    ensures Mute(Step(s, a).value) && Step(s, a).value.trace == s.trace
  {
    StepKeeps(s, a);
    hide PhaseOf, WorkerMove, WorkerInv, WakeInv, QueuedLines;
    if a.ServerReceive? {
      NoWaitYet(s);
    } else {
      hide HeardAll, Heard;
    }
  }

  lemma NoWaitYet(s: State)
    requires Mute(s) && s.up != []
    ensures s.up[0].InputLine? && !Accepts(s.server)
  {
    hide PhaseOf, WorkerInv, WakeInv;
  }

  ghost predicate Silent(s: State) {
    s.rejected || Stuck(s) || Mute(s)
  }

  /** Nothing more is heard in a silent state. */
  lemma {:induction false} SilentForEver(windows: bool, before: seq<Action>, after: seq<Action>)
    requires Run(windows, before).Some? && Silent(Run(windows, before).value)
    ensures Run(windows, before + after).Some? ==>
              && Run(windows, before + after).value.trace == Run(windows, before).value.trace
              && Silent(Run(windows, before + after).value)
    decreases |after|
  {
    hide Stuck, Mute, Step;
    if after == [] {
      assert before + after == before;
    } else {
      var earlier := before + after[..|after| - 1];
      assert (before + after)[..|before + after| - 1] == earlier;
      SilentForEver(windows, before, after[..|after| - 1]);
      if Run(windows, before + after).Some? {
        SilentStays(Run(windows, earlier).value, after[|after| - 1]);
      }
    }
  }

  /** After an empty batch the Unix worker never speaks again. */
  lemma EmptyBatchIsNeverAnswered(before: seq<Action>, after: seq<Action>)
    requires Run(false, before).Some? && Run(false, before + after).Some?
    requires Stuck(Run(false, before).value)
    ensures Run(false, before + after).value.trace == Run(false, before).value.trace
  {
    hide Run, Stuck, Mute;
    SilentForEver(false, before, after);
  }

  lemma SilentStays(s: State, a: Action)
    requires Silent(s) && Step(s, a).Some?
    ensures Silent(Step(s, a).value) && Step(s, a).value.trace == s.trace
  {
    if Stuck(s) {
      StuckStays(s, a);
    } else if Mute(s) {
      MuteStays(s, a);
    }
  }

  /** A continuation of the run in which the next readiness report arrives. */
  ghost predicate Answered(windows: bool, actions: seq<Action>, more: seq<Action>)
    requires Run(windows, actions).Some?
  {
    && Run(windows, actions + more).Some?
    && EndsInAnswer(Run(windows, actions).value.trace, Run(windows, actions + more).value.trace)
  }

  /**
    An outstanding batch can still be answered exactly when the server has not
    rejected a line, the batch is not an empty one on Unix, and the server has not
    forgotten it while lines of it are to come.
   */
  lemma BatchIsAnsweredIff(windows: bool, actions: seq<Action>)
    requires Run(windows, actions).Some?
    requires PhaseOf(Run(windows, actions).value.trace).Some?
    requires PhaseOf(Run(windows, actions).value.trace).value.Answering?
    ensures var s := Run(windows, actions).value;
            (exists more :: Answered(windows, actions, more))
            <==> !s.rejected && (windows || LastBatch(s.trace) != [])
                 && (PhaseOf(s.trace).value.left == [] || !Forgotten(actions))
  {
    var s := Run(windows, actions).value;
    RunKeeps(windows, actions);
    RunKeepsLoad(windows, actions);
    RunKeepsPlatform(windows, actions);
    ActiveUnlessForgotten(windows, actions);
    if !windows && LastBatch(s.trace) == [] {
      EmptyBatchIsStuck(actions);
    }
    hide Run, Inv, LoadInv, PhaseOf, LastBatch, Forgotten, Stuck;
    if Answerable(s) {
      var more := AnswerComes(windows, actions);
      assert Answered(windows, actions, more);
    } else {
      assert Silent(s);
      forall more ensures !Answered(windows, actions, more) {
        SilentForEver(windows, actions, more);
      }
    }
  }

  // ----- two runs that fail

  lemma Take(windows: bool, actions: seq<Action>, s: State, a: Action) returns (next: State)
    requires Run(windows, actions) == Some(s) && Step(s, a).Some?
    ensures next == Step(s, a).value && Run(windows, actions + [a]) == Some(next)
  {
    hide Step;
    next := Step(s, a).value;
    RunThen(windows, actions, a);
  }

  /** R starts, and reports that it is ready. */
  lemma BecomeReady(windows: bool) returns (actions: seq<Action>, s: State)
    ensures Run(windows, actions) == Some(s)
    ensures s == Start(windows).(server := Server(false, true, true, false),
                                 worker := Worker([], false, Waiting, false, false), trace := [Got(InputWait)])
  {
    hide Run;
    actions := [];
    var s0 := Start(windows);
    AtTheOutset(windows);
    var s1 := Take(windows, actions, s0, CallRead);
    actions := actions + [CallRead];
    var s2 := Take(windows, actions, s1, Action.Turn(10));
    actions := actions + [Action.Turn(10)];
    var s3 := Take(windows, actions, s2, EmitWait);
    actions := actions + [EmitWait];
    var s4 := Take(windows, actions, s3, ServerReceive);
    actions := actions + [ServerReceive];
    s := s4;
  }

  lemma AtTheOutset(windows: bool)
    ensures Run(windows, []) == Some(Start(windows))
  {
  }

  /** On Unix the worker can be brought to a batch that it will never answer. */
  lemma EmptyBatchFails() returns (actions: seq<Action>)
    ensures Run(false, actions).Some? && Stuck(Run(false, actions).value)
    ensures Run(false, actions).value.trace == [Got(InputWait), Sent([])]
    ensures !exists more :: Answered(false, actions, more)
  {
    hide Run, QueuedLines, PhaseOf;
    var windows := false;
    var s4;
    actions, s4 := BecomeReady(windows);
    assert s4.down + [[]] == [[]];
    var s5 := Take(windows, actions, s4, ServerBegin([]));
    actions := actions + [ServerBegin([])];
    forall more ensures !Answered(false, actions, more) {
      SilentForEver(windows, actions, more);
    }
  }

  /** A reset between a batch and its lines makes the server reject a line. */
  lemma ForgottenLineFails() returns (actions: seq<Action>)
    ensures Run(true, actions).Some? && Run(true, actions).value.rejected
    ensures |actions| > 1 && actions[|actions| - 2] == ServerReset
  {
    hide Run, QueuedLines;
    var windows := true;
    var s6;
    actions, s6 := SendLine();
    var s9 := Take(windows, actions, s6, TakeEvent);
    actions := actions + [TakeEvent];
    var s10 := Take(windows, actions, s9, Action.Turn(10));
    actions := actions + [Action.Turn(10)];
    var s11 := Take(windows, actions, s10, EmitLine);
    actions := actions + [EmitLine];
    var s12 := Take(windows, actions, s11, ServerReset);
    actions := actions + [ServerReset];
    var s13 := Take(windows, actions, s12, ServerReceive);
    actions := actions + [ServerReceive];
  }

  lemma SendLine() returns (actions: seq<Action>, s: State)
    ensures Run(true, actions) == Some(s)
    ensures s.up == [] && !s.refused && !s.rejected && s.windows
    ensures s.worker == Worker([[97, NEWLINE]], true, Waiting, false, true)
  {
    hide Run;
    var windows := true;
    var s4;
    actions, s4 := BecomeReady(windows);
    OneQueuedLine();
    hide QueuedLines;
    assert s4.down + [[97]] == [[97]];
    var s5 := Take(windows, actions, s4, ServerBegin([97]));
    actions := actions + [ServerBegin([97])];
    var s6 := Take(windows, actions, s5, WorkerReceive);
    actions := actions + [WorkerReceive];
    var s7 := Take(windows, actions, s6, WorkerNotify);
    actions := actions + [WorkerNotify];
    s := s7;
  }

  lemma OneQueuedLine()
    ensures [] + QueuedLines([97]) == [[97, NEWLINE]]
  {
    var lines := QueuedLines([97]);
    QueuedLinesSpell([97]);
    assert Terminated([97]) == [97, NEWLINE];
    assert AreConsoleLines([[97, NEWLINE]]);
    assert Joined([[97, NEWLINE]]) == [97, NEWLINE];
    OneWayToSplit(lines, [[97, NEWLINE]]);
  }
}
