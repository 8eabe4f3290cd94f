/**
  The Ctrl-C completion observer as a transition system: one step per atomic or
  event operation of a handler thread, the watcher, the runtime consumer, a
  cleanup notifier or the holder of the rearm guard.  Any Win32 call may fail,
  threads interleave freely, and waits prefer the first signalled handle.
 */
module InterruptObserver {
  import opened Wrappers

  type Tid = n: nat | n > 0 witness 1

  datatype FailureKind =
    | HandlerOverlap | DuplicateHandlerThread | PublishHandlerThread | SignalHandoff
    | WaitForHandoff | MissingHandlerThread | WaitForHandlerThread | CloseHandlerThread | SignalCompletion
    | RearmObserver | RemoveObserver | WaitForActivity
    | CompletionWithoutInterrupt | CompletionWithoutCleanup
    | CleanupOverlap | SignalCleanup | WaitForCleanup

  /** A handler thread: between callbacks, or inside `observe_ctrl_c_completion`. */
  datatype Handler =
    | Outside        // may enter another callback, or exit
    | Entered        // about to claim the in-flight flag
    | Refused        // the flag was taken; about to compare thread ids
    | Claimed        // about to store its thread id
    | IdStored       // about to duplicate its handle
    | Duplicated     // about to publish the handle
    | Published      // about to signal the handoff
    | Failing(kind: FailureKind)
    | Alarming       // failure recorded; about to signal the failure event

  datatype Watcher =
    | Waiting
    | Notified                 // consumed a handoff; about to take the handle
    | Joining(thread: Tid)     // waiting for the handler thread to end
    | Closing(thread: Tid)
    | Signalling(thread: Tid)  // about to signal the completion
    | WatcherFailing(kind: FailureKind)
    | WatcherAlarming
    | Stopped

  datatype Consumer =
    | Away
    | Checking(blocking: bool, joining: bool)  // about to check for a failure
    | Blocked(blocking: bool, joining: bool)   // waiting for failure, completion or input
    | SawInput                                 // about to look at the in-flight flag
    | Cleaning                                 // took a completion; waiting for the cleanup
    | ClearingId                               // took the cleanup
    | ClearingFlight
    | ClearingCleanup(claim: nat)
    | ConsumerFailing(kind: FailureKind)
    | ConsumerAlarming

  datatype Notifier =
    | Noting                   // about to claim the cleanup flag
    | NotingDone               // about to signal the cleanup event
    | NotifierFailing(kind: FailureKind)
    | NotifierAlarming

  /** The holder of the rearm guard, if any. */
  datatype Rearm =
    | Free
    | Guarded | Probing | Choosing
    | Adding(fromA: bool) | Flipping(fromA: bool) | Removing(fromA: bool)
    | Rechecking | Reprobing
    | RearmFailing(kind: FailureKind)
    | RearmAlarming

  /** Where the current claim of the in-flight flag has got to. */
  datatype Token = NoToken | AtHandler | AtHandoff | AtWatcher | AtCompletion | AtConsumer | Lost

  /**
    The in-flight claim: the flag, the published handle and thread id, the two
    events that pass the claim on, and the history of who claimed it.
   */
  datatype Flight = Flight(
    taken: bool, thread: Option<Tid>, id: nat, handoff: bool, completion: bool,
    token: Token, claims: seq<Tid>)

  datatype Threads = Threads(live: map<Tid, Handler>, exited: set<Tid>)

  /** The cleanup flag and event, and how many cleanups were signalled in all. */
  datatype Cleanup = Cleanup(pending: bool, signalled: bool, notified: nat)

  datatype Alarm = Alarm(failure: Option<FailureKind>, sounded: bool)

  datatype Registration = Registration(a: bool, b: bool, activeA: bool, holder: Rearm)

  /** `returned` lists the claims whose completion was returned to the runtime. */
  datatype State = State(
    flight: Flight, threads: Threads, watcher: Watcher, consumer: Consumer, returned: seq<nat>,
    cleanup: Cleanup, notifiers: map<nat, Notifier>, input: bool, alarm: Alarm, registration: Registration)

  const START := State(
    Flight(false, None, 0, false, false, NoToken, []), Threads(map[], {}), Waiting, Away, [],
    Cleanup(false, false, 0), map[], false, Alarm(None, false), Registration(true, false, true, Free))

  /** The first failure wins and stays. */
  function Recorded(a: Alarm, kind: FailureKind): Alarm {
    if a.failure == None then a.(failure := Some(kind)) else a
  }

  function Sounded(a: Alarm, ok: bool): Alarm {
    a.(sounded := a.sounded || ok)
  }

  // ----- handler threads

  datatype HandlerMove = Enter | Claim | CompareId | StoreId | Duplicate(ok: bool) | Publish | Handoff(ok: bool)
                       | Record | RaiseAlarm(ok: bool)

  /** Where the thread's next move leads, if it can make it. */
  function HandlerNext(f: Flight, t: Tid, pc: Handler, move: HandlerMove): Option<Handler> {
    match move
    case Enter => if pc == Outside then Some(Entered) else None
    case Claim => if pc == Entered then Some(if f.taken then Refused else Claimed) else None
    case CompareId => if pc == Refused then Some(if f.id == t then Outside else Failing(HandlerOverlap)) else None
    case StoreId => if pc == Claimed then Some(IdStored) else None
    case Duplicate(ok) =>
      if pc == IdStored then Some(if ok then Duplicated else Failing(DuplicateHandlerThread)) else None
    case Publish =>
      if pc == Duplicated then Some(if f.thread == None then Published else Failing(PublishHandlerThread)) else None
    case Handoff(ok) => if pc == Published then Some(if ok then Outside else Failing(SignalHandoff)) else None
    case Record => if pc.Failing? then Some(Alarming) else None
    case RaiseAlarm(ok) => if pc == Alarming then Some(Outside) else None
  }

  function FlightAfterHandler(f: Flight, t: Tid, move: HandlerMove): Flight {
    match move
    case Claim => if f.taken then f else f.(taken := true, token := AtHandler, claims := f.claims + [t])
    case StoreId => f.(id := t)
    case Duplicate(ok) => if ok then f else f.(token := Lost)
    case Publish => if f.thread == None then f.(thread := Some(t)) else f.(token := Lost)
    case Handoff(ok) => if ok then f.(handoff := true, token := AtHandoff) else f.(token := Lost)
    case _ => f
  }

  function AlarmAfterHandler(a: Alarm, pc: Handler, move: HandlerMove): Alarm {
    match move
    case Record => if pc.Failing? then Recorded(a, pc.kind) else a
    case RaiseAlarm(ok) => Sounded(a, ok)
    case _ => a
  }

  // ----- the watcher

  datatype WatcherMove = TakeHandoff | SeeFailure | WaitFails | TakeHandle | Join(ok: bool) | Close(ok: bool)
                       | SignalDone(ok: bool) | WatcherRecord | WatcherAlarm(ok: bool)

  function WatcherNext(f: Flight, exited: set<Tid>, a: Alarm, w: Watcher, move: WatcherMove): Option<Watcher> {
    match move
    case SeeFailure => if w == Waiting && a.sounded then Some(Stopped) else None
    case TakeHandoff => if w == Waiting && !a.sounded && f.handoff then Some(Notified) else None
    case WaitFails => if w == Waiting then Some(WatcherFailing(WaitForHandoff)) else None
    case TakeHandle =>
      if w != Notified then None
      else Some(if f.thread.Some? then Joining(f.thread.value) else WatcherFailing(MissingHandlerThread))
    case Join(ok) =>
      // a successful wait means that the thread has ended
      if !w.Joining? || (ok && w.thread !in exited) then None
      else Some(if ok then Closing(w.thread) else WatcherFailing(WaitForHandlerThread))
    case Close(ok) =>
      if w.Closing? then Some(if ok then Signalling(w.thread) else WatcherFailing(CloseHandlerThread)) else None
    case SignalDone(ok) =>
      if w.Signalling? then Some(if ok then Waiting else WatcherFailing(SignalCompletion)) else None
    case WatcherRecord => if w.WatcherFailing? then Some(WatcherAlarming) else None
    case WatcherAlarm(ok) => if w.WatcherAlarming? then Some(Stopped) else None
  }

  function FlightAfterWatcher(f: Flight, move: WatcherMove): Flight {
    match move
    case TakeHandoff => f.(handoff := false, token := AtWatcher)
    case TakeHandle => f.(thread := None, token := if f.thread.Some? then f.token else Lost)
    case Join(ok) => if ok then f else f.(token := Lost)
    case Close(ok) => if ok then f else f.(token := Lost)
    case SignalDone(ok) => if ok then f.(completion := true, token := AtCompletion) else f.(token := Lost)
    case _ => f
  }

  function AlarmAfterWatcher(a: Alarm, w: Watcher, move: WatcherMove): Alarm {
    match move
    case WatcherRecord => if w.WatcherFailing? then Recorded(a, w.kind) else a
    case WatcherAlarm(ok) => Sounded(a, ok)
    case _ => a
  }

  // ----- the runtime consumer

  datatype ConsumerMove =
    | CallWait                   // `wait_for_activity`
    | CallTake                   // `take_completed_interrupt`
    | CallFinish                 // `finish_in_flight_interrupt`
    | Check | SeeAlarm | TakeCompletion | TakeInput | TimeOut | ActivityFails
    | Inspect | TakeCleanup | CleanupFails
    | ClearId | ClearFlight | ClearCleanup
    | ConsumerRecord | ConsumerAlarm(ok: bool)

  function ConsumerNext(f: Flight, u: Cleanup, input: bool, a: Alarm, c: Consumer, move: ConsumerMove)
    : Option<Consumer>
  {
    match move
    case CallWait => if c == Away then Some(Checking(true, false)) else None
    case CallTake => if c == Away then Some(Checking(false, false)) else None
    case CallFinish =>
      // its first check has passed, and the flag has been read
      if c == Away && a.failure == None then Some(Checking(f.taken, true)) else None
    case Check =>
      if !c.Checking? then None
      else Some(if a.failure != None then Away else Blocked(c.blocking, c.joining))
    case SeeAlarm => if (c.Blocked? || c == Cleaning) && a.sounded then Some(Away) else None
    case TakeCompletion => if c.Blocked? && !a.sounded && f.completion then Some(Cleaning) else None
    case TakeInput =>
      if c.Blocked? && c.blocking && !a.sounded && !f.completion && input
      then Some(if c.joining then Checking(true, true) else SawInput) else None
    case TimeOut => if c.Blocked? && !c.blocking && !a.sounded && !f.completion then Some(Away) else None
    case ActivityFails => if c.Blocked? then Some(ConsumerFailing(WaitForActivity)) else None
    case Inspect => if c == SawInput then Some(if f.taken then Checking(true, false) else Away) else None
    case TakeCleanup => if c == Cleaning && !a.sounded && u.signalled then Some(ClearingId) else None
    case CleanupFails => if c == Cleaning then Some(ConsumerFailing(WaitForCleanup)) else None
    case ClearId => if c == ClearingId then Some(ClearingFlight) else None
    case ClearFlight =>
      if c != ClearingFlight then None
      else Some(if f.taken then ClearingCleanup(LastClaim(f.claims)) else ConsumerFailing(CompletionWithoutInterrupt))
    case ClearCleanup =>
      if c.ClearingCleanup? then Some(if u.pending then Away else ConsumerFailing(CompletionWithoutCleanup)) else None
    case ConsumerRecord => if c.ConsumerFailing? then Some(ConsumerAlarming) else None
    case ConsumerAlarm(ok) => if c.ConsumerAlarming? then Some(Away) else None
  }

  function LastClaim(claims: seq<Tid>): nat {
    if claims == [] then 0 else |claims| - 1
  }

  function FlightAfterConsumer(f: Flight, c: Consumer, move: ConsumerMove): Flight {
    match move
    case SeeAlarm => if c == Cleaning then f.(token := Lost) else f
    case TakeCompletion => f.(completion := false, token := AtConsumer)
    case CleanupFails => f.(token := Lost)
    case ClearId => f.(id := 0)
    case ClearFlight => f.(taken := false, token := NoToken)
    case _ => f
  }

  function CleanupAfterConsumer(u: Cleanup, move: ConsumerMove): Cleanup {
    match move
    case TakeCleanup => u.(signalled := false)
    case ClearCleanup => u.(pending := false)
    case _ => u
  }

  /** A completion is returned once the cleanup flag was found set. */
  function ReturnedAfterConsumer(returned: seq<nat>, u: Cleanup, c: Consumer, move: ConsumerMove): seq<nat> {
    if move.ClearCleanup? && c.ClearingCleanup? && u.pending then returned + [c.claim] else returned
  }

  function AlarmAfterConsumer(a: Alarm, c: Consumer, move: ConsumerMove): Alarm {
    match move
    case ConsumerRecord => if c.ConsumerFailing? then Recorded(a, c.kind) else a
    case ConsumerAlarm(ok) => Sounded(a, ok)
    case _ => a
  }

  // ----- cleanup notifiers

  datatype NotifierMove = ClaimCleanup | SignalCleanupDone(ok: bool) | NotifierRecord | NotifierAlarm(ok: bool)

  datatype NotifierTurn = Stay(pc: Notifier) | Leave

  function NotifierNext(u: Cleanup, pc: Notifier, move: NotifierMove): Option<NotifierTurn> {
    match move
    case ClaimCleanup =>
      if pc == Noting then Some(Stay(if u.pending then NotifierFailing(CleanupOverlap) else NotingDone)) else None
    case SignalCleanupDone(ok) =>
      if pc == NotingDone then Some(if ok then Leave else Stay(NotifierFailing(SignalCleanup))) else None
    case NotifierRecord => if pc.NotifierFailing? then Some(Stay(NotifierAlarming)) else None
    case NotifierAlarm(ok) => if pc.NotifierAlarming? then Some(Leave) else None
  }

  function CleanupAfterNotifier(u: Cleanup, move: NotifierMove): Cleanup {
    match move
    case ClaimCleanup => u.(pending := true)
    case SignalCleanupDone(ok) => if ok then u.(signalled := true, notified := u.notified + 1) else u
    case _ => u
  }

  function AlarmAfterNotifier(a: Alarm, pc: Notifier, move: NotifierMove): Alarm {
    match move
    case NotifierRecord => if pc.NotifierFailing? then Recorded(a, pc.kind) else a
    case NotifierAlarm(ok) => Sounded(a, ok)
    case _ => a
  }

  // ----- rearming, under its guard

  datatype RearmMove = Lock | RearmCheck | Probe | Choose | Add(ok: bool) | Flip | Remove(ok: bool)
                     | RearmRecheck | Reprobe | RearmRecord | RearmAlarm(ok: bool)

  function RearmNext(r: Registration, taken: bool, failed: bool, move: RearmMove): Option<Registration> {
    match move
    case Lock => if r.holder == Free then Some(r.(holder := Guarded)) else None
    case RearmCheck => if r.holder == Guarded then Some(r.(holder := if failed then Free else Probing)) else None
    case Probe => if r.holder == Probing then Some(r.(holder := if taken then Free else Choosing)) else None
    case Choose => if r.holder == Choosing then Some(r.(holder := Adding(r.activeA))) else None
    case Add(ok) =>
      if !r.holder.Adding? then None
      else if !ok then Some(r.(holder := RearmFailing(RearmObserver)))
      else if r.holder.fromA then Some(r.(b := true, holder := Flipping(true)))
      else Some(r.(a := true, holder := Flipping(false)))
    case Flip =>
      if r.holder.Flipping? then Some(r.(activeA := !r.holder.fromA, holder := Removing(r.holder.fromA))) else None
    case Remove(ok) =>
      if !r.holder.Removing? then None
      else if !ok then Some(r.(holder := RearmFailing(RemoveObserver)))
      else if r.holder.fromA then Some(r.(a := false, holder := Rechecking))
      else Some(r.(b := false, holder := Rechecking))
    case RearmRecheck => if r.holder == Rechecking then Some(r.(holder := if failed then Free else Reprobing)) else None
    case Reprobe => if r.holder == Reprobing then Some(r.(holder := Free)) else None
    case RearmRecord => if r.holder.RearmFailing? then Some(r.(holder := RearmAlarming)) else None
    case RearmAlarm(ok) => if r.holder.RearmAlarming? then Some(r.(holder := Free)) else None
  }

  function AlarmAfterRearm(a: Alarm, holder: Rearm, move: RearmMove): Alarm {
    match move
    case RearmRecord => if holder.RearmFailing? then Recorded(a, holder.kind) else a
    case RearmAlarm(ok) => Sounded(a, ok)
    case _ => a
  }

  // ----- the whole system

  datatype Action =
    | Spawn(t: Tid)                       // Windows starts a handler thread
    | Exit(t: Tid)
    | ByHandler(t: Tid, h: HandlerMove)
    | ByWatcher(w: WatcherMove)
    | ByConsumer(c: ConsumerMove)
    | Notify(n: nat)                      // `notify_interrupt_cleanup_complete` has passed its check
    | ByNotifier(n: nat, m: NotifierMove)
    | ByRearm(r: RearmMove)
    | InputArrives

  /** The state after `action`, when it can happen in `s`. */
  function Step(s: State, action: Action): Option<State> {
    match action
    case Spawn(t) =>
      if t in s.threads.live || t in s.threads.exited then None
      else Some(s.(threads := s.threads.(live := s.threads.live[t := Outside])))
    case Exit(t) =>
      if t !in s.threads.live || s.threads.live[t] != Outside then None
      else Some(s.(threads := Threads(s.threads.live - {t}, s.threads.exited + {t})))
    case ByHandler(t, h) => HandlerStep(s, t, h)
    case ByWatcher(w) => WatcherStep(s, w)
    case ByConsumer(c) => ConsumerStep(s, c)
    case Notify(n) =>
      if n in s.notifiers || s.alarm.failure != None then None else Some(s.(notifiers := s.notifiers[n := Noting]))
    case ByNotifier(n, m) => NotifierStep(s, n, m)
    case ByRearm(r) => RearmStep(s, r)
    case InputArrives => Some(s.(input := true))
  }

  function HandlerStep(s: State, t: Tid, move: HandlerMove): Option<State> {
    if t !in s.threads.live then None
    else
      match HandlerNext(s.flight, t, s.threads.live[t], move)
      case None => None
      case Some(pc) => Some(s.(
        flight := FlightAfterHandler(s.flight, t, move),
        threads := s.threads.(live := s.threads.live[t := pc]),
        alarm := AlarmAfterHandler(s.alarm, s.threads.live[t], move)))
  }

  function WatcherStep(s: State, move: WatcherMove): Option<State> {
    match WatcherNext(s.flight, s.threads.exited, s.alarm, s.watcher, move)
    case None => None
    case Some(w) => Some(s.(
      flight := FlightAfterWatcher(s.flight, move), watcher := w, alarm := AlarmAfterWatcher(s.alarm, s.watcher, move)))
  }

  function ConsumerStep(s: State, move: ConsumerMove): Option<State> {
    match ConsumerNext(s.flight, s.cleanup, s.input, s.alarm, s.consumer, move)
    case None => None
    case Some(c) => Some(s.(
      flight := FlightAfterConsumer(s.flight, s.consumer, move),
      consumer := c,
      returned := ReturnedAfterConsumer(s.returned, s.cleanup, s.consumer, move),
      cleanup := CleanupAfterConsumer(s.cleanup, move),
      input := s.input && !move.TakeInput?,
      alarm := AlarmAfterConsumer(s.alarm, s.consumer, move)))
  }

  function NotifierStep(s: State, n: nat, move: NotifierMove): Option<State> {
    if n !in s.notifiers then None
    else
      match NotifierNext(s.cleanup, s.notifiers[n], move)
      case None => None
      case Some(turn) => Some(s.(
        notifiers := NotifiersAfter(s.notifiers, n, turn),
        cleanup := CleanupAfterNotifier(s.cleanup, move),
        alarm := AlarmAfterNotifier(s.alarm, s.notifiers[n], move)))
  }

  function NotifiersAfter(notifiers: map<nat, Notifier>, n: nat, turn: NotifierTurn): map<nat, Notifier> {
    if turn.Stay? then notifiers[n := turn.pc] else notifiers - {n}
  }

  function RearmStep(s: State, move: RearmMove): Option<State> {
    match RearmNext(s.registration, s.flight.taken, s.alarm.failure != None, move)
    case None => None
    case Some(r) => Some(s.(registration := r, alarm := AlarmAfterRearm(s.alarm, s.registration.holder, move)))
  }

  /** The state after a whole run, if every action could happen in its turn. */
  function Run(actions: seq<Action>): Option<State> {
    if actions == [] then Some(START)
    else
      match Run(actions[..|actions| - 1])
      case None => None
      case Some(s) => Step(s, actions[|actions| - 1])
  }

  // ----- the claim travels along one path

  predicate HoldsClaim(pc: Handler) {
    pc == Claimed || pc == IdStored || pc == Duplicated || pc == Published
  }

  function Owner(f: Flight): Tid {
    if f.claims == [] then 1 else f.claims[|f.claims| - 1]
  }

  predicate Handling(w: Watcher) {
    w == Notified || w.Joining? || w.Closing? || w.Signalling?
  }

  predicate HandlingThread(w: Watcher) {
    w.Joining? || w.Closing? || w.Signalling?
  }

  predicate Consuming(c: Consumer) {
    c == Cleaning || c == ClearingId || c == ClearingFlight
  }

  /** Who can hold the claim, and what must then be true. */
  ghost predicate ClaimInv(f: Flight, live: map<Tid, Handler>, w: Watcher, c: Consumer) {
    && f.taken == (f.token != NoToken)
    && (f.token != NoToken ==> f.claims != [])
    && (forall t :: t in live && HoldsClaim(live[t]) ==> f.token == AtHandler && t == Owner(f))
    && (f.token == AtHandler ==> Owner(f) in live && HoldsClaim(live[Owner(f)]))
    && (f.handoff ==> f.token == AtHandoff)
    && (Handling(w) ==> f.token == AtWatcher)
    && (f.completion ==> f.token == AtCompletion)
    && (Consuming(c) ==> f.token == AtConsumer)
  }

  /** The published handle exists exactly while the watcher has still to take it. */
  ghost predicate HandleInv(f: Flight, live: map<Tid, Handler>, w: Watcher) {
    && (f.thread != None ==> f.thread == Some(Owner(f)))
    && (f.token == NoToken || f.token == AtCompletion || f.token == AtConsumer ==> f.thread == None)
    && (f.token == AtHandler ==> Owner(f) in live && (live[Owner(f)] == Published <==> f.thread != None))
    && (f.token == AtHandoff || w == Notified ==> f.thread != None)
    && (HandlingThread(w) ==> f.thread == None && w.thread == Owner(f))
  }

  /** Past the join, the thread that claimed is gone. */
  ghost predicate ExitInv(f: Flight, threads: Threads, w: Watcher, c: Consumer, returned: seq<nat>) {
    && (forall t :: t in threads.live ==> t !in threads.exited)
    && (forall i :: 0 <= i < |f.claims| ==> f.claims[i] in threads.live || f.claims[i] in threads.exited)
    && (w.Closing? || w.Signalling? ==> Owner(f) in threads.exited)
    && (f.token == AtCompletion || f.token == AtConsumer ==> Owner(f) in threads.exited)
    && (c.ClearingCleanup? ==> c.claim < |f.claims| && f.claims[c.claim] in threads.exited)
    && (forall i :: 0 <= i < |returned| ==> returned[i] < |f.claims| && f.claims[returned[i]] in threads.exited)
  }

  /** A living thread that claimed did so last, its claim is open, and its id is on display. */
  ghost predicate IdInv(f: Flight, live: map<Tid, Handler>) {
    && (forall i :: 0 <= i < |f.claims| && f.claims[i] in live ==> i == |f.claims| - 1 && f.token != NoToken)
    && (f.token != NoToken && Owner(f) in live && live[Owner(f)] != Claimed ==> f.id == Owner(f))
  }

  predicate Clearing(c: Consumer) {
    c == ClearingId || c == ClearingFlight || c.ClearingCleanup?
  }

  /** One notified cleanup at a time: being signalled, signalled, or being consumed. */
  ghost predicate CleanupInv(u: Cleanup, notifiers: map<nat, Notifier>, c: Consumer, completions: nat) {
    && (forall n :: n in notifiers && notifiers[n] == NotingDone ==> u.pending && !u.signalled && !Clearing(c))
    && (forall n, m :: n in notifiers && m in notifiers && n != m && notifiers[n] == NotingDone ==>
          notifiers[m] != NotingDone)
    && (u.signalled ==> u.pending && !Clearing(c))
    && (Clearing(c) ==> u.pending)
    && completions + (if u.signalled || Clearing(c) then 1 else 0) <= u.notified
  }

  /** Completions are handed out in claim order, each claim at most once. */
  ghost predicate OrderInv(token: Token, claims: nat, c: Consumer, returned: seq<nat>) {
    && (forall i, j :: 0 <= i < j < |returned| ==> returned[i] < returned[j])
    && (forall i :: 0 <= i < |returned| ==> returned[i] + (if token != NoToken then 1 else 0) < claims)
    && (c.ClearingCleanup? ==> c.claim + (if token != NoToken then 1 else 0) < claims)
    && (c.ClearingCleanup? ==> forall i :: 0 <= i < |returned| ==> returned[i] < c.claim)
  }

  predicate Impossible(kind: FailureKind) {
    kind == MissingHandlerThread || kind == PublishHandlerThread
    || kind == CompletionWithoutInterrupt || kind == CompletionWithoutCleanup
  }

  predicate Sane(a: Alarm) {
    a.failure.Some? ==> !Impossible(a.failure.value)
  }

  /** Nobody is about to record an impossible failure, and only a thread that never claimed sees an overlap. */
  ghost predicate HandlersSane(live: map<Tid, Handler>, claims: seq<Tid>) {
    forall t :: t in live && live[t].Failing? ==>
      !Impossible(live[t].kind) && (live[t].kind == HandlerOverlap ==> t !in claims)
  }

  ghost predicate NotifiersSane(notifiers: map<nat, Notifier>) {
    forall n :: n in notifiers && notifiers[n].NotifierFailing? ==> !Impossible(notifiers[n].kind)
  }

  ghost predicate FailureInv(s: State) {
    && Sane(s.alarm)
    && HandlersSane(s.threads.live, s.flight.claims)
    && NotifiersSane(s.notifiers)
    && (s.watcher.WatcherFailing? ==> !Impossible(s.watcher.kind))
    && (s.consumer.ConsumerFailing? ==> !Impossible(s.consumer.kind))
    && (s.registration.holder.RearmFailing? ==> !Impossible(s.registration.holder.kind))
  }

  predicate ExactlyActive(r: Registration) {
    r.a == r.activeA && r.b == !r.activeA
  }

  ghost predicate RearmInv(r: Registration, failed: bool) {
    && (r.a || r.b)
    && match r.holder
       case Free => !failed ==> ExactlyActive(r)
       case Guarded => !failed ==> ExactlyActive(r)
       case Adding(fromA) => ExactlyActive(r) && fromA == r.activeA
       case Flipping(fromA) => r.a && r.b && fromA == r.activeA
       case Removing(fromA) => r.a && r.b && fromA == !r.activeA
       case RearmFailing(kind) => kind == RearmObserver ==> ExactlyActive(r)
       case RearmAlarming => failed
       case _ => ExactlyActive(r)
  }

  ghost predicate Inv(s: State) {
    && ClaimInv(s.flight, s.threads.live, s.watcher, s.consumer)
    && HandleInv(s.flight, s.threads.live, s.watcher)
    && ExitInv(s.flight, s.threads, s.watcher, s.consumer, s.returned)
    && IdInv(s.flight, s.threads.live)
    && CleanupInv(s.cleanup, s.notifiers, s.consumer, |s.returned|)
    && OrderInv(s.flight.token, |s.flight.claims|, s.consumer, s.returned)
    && FailureInv(s)
    && RearmInv(s.registration, s.alarm.failure != None)
  }

  // ----- every step keeps the invariant: handler threads

  lemma HandlerKeepsClaim(f: Flight, live: map<Tid, Handler>, t: Tid, move: HandlerMove, pc: Handler,
                          w: Watcher, c: Consumer)
    requires ClaimInv(f, live, w, c) && HandleInv(f, live, w)
    requires t in live && HandlerNext(f, t, live[t], move) == Some(pc)
    ensures ClaimInv(FlightAfterHandler(f, t, move), live[t := pc], w, c)
  {
  }

  lemma HandlerKeepsHandle(f: Flight, live: map<Tid, Handler>, t: Tid, move: HandlerMove, pc: Handler,
                           w: Watcher, c: Consumer)
    requires ClaimInv(f, live, w, c) && HandleInv(f, live, w)
    requires t in live && HandlerNext(f, t, live[t], move) == Some(pc)
    ensures HandleInv(FlightAfterHandler(f, t, move), live[t := pc], w)
  {
  }

  lemma HandlerKeepsExit(f: Flight, threads: Threads, t: Tid, move: HandlerMove, pc: Handler,
                         w: Watcher, c: Consumer, returned: seq<nat>)
    requires ClaimInv(f, threads.live, w, c) && ExitInv(f, threads, w, c, returned)
    requires t in threads.live && HandlerNext(f, t, threads.live[t], move) == Some(pc)
    ensures ExitInv(FlightAfterHandler(f, t, move), threads.(live := threads.live[t := pc]), w, c, returned)
  {
  }

  lemma HandlerKeepsId(f: Flight, threads: Threads, t: Tid, move: HandlerMove, pc: Handler,
                       w: Watcher, c: Consumer, returned: seq<nat>)
    requires ClaimInv(f, threads.live, w, c) && ExitInv(f, threads, w, c, returned) && IdInv(f, threads.live)
    requires t in threads.live && HandlerNext(f, t, threads.live[t], move) == Some(pc)
    ensures IdInv(FlightAfterHandler(f, t, move), threads.live[t := pc])
  {
  }

  lemma HandlerKeepsOrder(f: Flight, live: map<Tid, Handler>, t: Tid, move: HandlerMove, pc: Handler,
                          w: Watcher, c: Consumer, returned: seq<nat>)
    requires ClaimInv(f, live, w, c) && OrderInv(f.token, |f.claims|, c, returned)
    requires t in live && HandlerNext(f, t, live[t], move) == Some(pc)
    ensures var f' := FlightAfterHandler(f, t, move); OrderInv(f'.token, |f'.claims|, c, returned)
  {
  }

  lemma HandlerStaysSane(f: Flight, live: map<Tid, Handler>, t: Tid, move: HandlerMove, pc: Handler,
                         w: Watcher, c: Consumer)
    requires ClaimInv(f, live, w, c) && HandleInv(f, live, w) && IdInv(f, live) && HandlersSane(live, f.claims)
    requires t in live && HandlerNext(f, t, live[t], move) == Some(pc)
    ensures HandlersSane(live[t := pc], FlightAfterHandler(f, t, move).claims)
  {
  }

  lemma HandlerAlarmStaysSane(a: Alarm, live: map<Tid, Handler>, t: Tid, move: HandlerMove, claims: seq<Tid>)
    requires Sane(a) && t in live && HandlersSane(live, claims)
    ensures Sane(AlarmAfterHandler(a, live[t], move))
    ensures a.failure != None ==> AlarmAfterHandler(a, live[t], move).failure == a.failure
  {
  }

  // ----- the watcher

  lemma WatcherKeepsClaim(f: Flight, live: map<Tid, Handler>, exited: set<Tid>, a: Alarm, w: Watcher, move: WatcherMove,
                          w': Watcher, c: Consumer)
    requires ClaimInv(f, live, w, c) && HandleInv(f, live, w)
    requires WatcherNext(f, exited, a, w, move) == Some(w')
    ensures ClaimInv(FlightAfterWatcher(f, move), live, w', c)
  {
  }

  lemma WatcherKeepsHandle(f: Flight, live: map<Tid, Handler>, exited: set<Tid>, a: Alarm, w: Watcher,
                           move: WatcherMove,
                           w': Watcher, c: Consumer)
    requires ClaimInv(f, live, w, c) && HandleInv(f, live, w)
    requires WatcherNext(f, exited, a, w, move) == Some(w')
    ensures HandleInv(FlightAfterWatcher(f, move), live, w')
  {
  }

  lemma WatcherKeepsExit(f: Flight, threads: Threads, a: Alarm, w: Watcher, move: WatcherMove, w': Watcher, c: Consumer,
                         returned: seq<nat>)
    requires ClaimInv(f, threads.live, w, c) && HandleInv(f, threads.live, w) && ExitInv(f, threads, w, c, returned)
    requires WatcherNext(f, threads.exited, a, w, move) == Some(w')
    ensures ExitInv(FlightAfterWatcher(f, move), threads, w', c, returned)
  {
  }

  lemma WatcherKeepsRest(f: Flight, live: map<Tid, Handler>, exited: set<Tid>, a: Alarm, w: Watcher, move: WatcherMove,
                         w': Watcher, c: Consumer)
    requires ClaimInv(f, live, w, c) && HandleInv(f, live, w) && IdInv(f, live)
    requires WatcherNext(f, exited, a, w, move) == Some(w')
    ensures IdInv(FlightAfterWatcher(f, move), live)
    ensures FlightAfterWatcher(f, move).claims == f.claims
    ensures (FlightAfterWatcher(f, move).token == NoToken) == (f.token == NoToken)
    ensures w'.WatcherFailing? ==> !Impossible(w'.kind)
  {
  }

  lemma WatcherAlarmStaysSane(a: Alarm, w: Watcher, move: WatcherMove)
    requires Sane(a) && (w.WatcherFailing? ==> !Impossible(w.kind))
    ensures Sane(AlarmAfterWatcher(a, w, move))
    ensures a.failure != None ==> AlarmAfterWatcher(a, w, move).failure == a.failure
  {
  }

  // ----- the consumer

  lemma ConsumerKeepsClaim(f: Flight, live: map<Tid, Handler>, w: Watcher, u: Cleanup, input: bool, a: Alarm,
                           c: Consumer, move: ConsumerMove, c': Consumer)
    requires ClaimInv(f, live, w, c) && ConsumerNext(f, u, input, a, c, move) == Some(c')
    ensures ClaimInv(FlightAfterConsumer(f, c, move), live, w, c')
  {
  }

  lemma ConsumerKeepsHandle(f: Flight, live: map<Tid, Handler>, w: Watcher, u: Cleanup, input: bool, a: Alarm,
                            c: Consumer, move: ConsumerMove, c': Consumer)
    requires ClaimInv(f, live, w, c) && HandleInv(f, live, w)
    requires ConsumerNext(f, u, input, a, c, move) == Some(c')
    ensures HandleInv(FlightAfterConsumer(f, c, move), live, w)
  {
  }

  lemma ConsumerKeepsExit(f: Flight, threads: Threads, w: Watcher, u: Cleanup, input: bool, a: Alarm,
                          c: Consumer, move: ConsumerMove, c': Consumer, returned: seq<nat>)
    requires ClaimInv(f, threads.live, w, c) && ExitInv(f, threads, w, c, returned)
    requires ConsumerNext(f, u, input, a, c, move) == Some(c')
    ensures ExitInv(FlightAfterConsumer(f, c, move), threads, w, c', ReturnedAfterConsumer(returned, u, c, move))
  {
  }

  lemma ConsumerKeepsId(f: Flight, threads: Threads, w: Watcher, u: Cleanup, input: bool, a: Alarm,
                        c: Consumer, move: ConsumerMove, c': Consumer, returned: seq<nat>)
    requires ClaimInv(f, threads.live, w, c) && ExitInv(f, threads, w, c, returned) && IdInv(f, threads.live)
    requires ConsumerNext(f, u, input, a, c, move) == Some(c')
    ensures IdInv(FlightAfterConsumer(f, c, move), threads.live)
  {
  }

  lemma ConsumerKeepsCleanup(f: Flight, u: Cleanup, notifiers: map<nat, Notifier>, input: bool, a: Alarm,
                             c: Consumer, move: ConsumerMove, c': Consumer, returned: seq<nat>)
    requires CleanupInv(u, notifiers, c, |returned|) && ConsumerNext(f, u, input, a, c, move) == Some(c')
    ensures CleanupInv(CleanupAfterConsumer(u, move), notifiers, c', |ReturnedAfterConsumer(returned, u, c, move)|)
  {
  }

  lemma ConsumerKeepsOrder(f: Flight, live: map<Tid, Handler>, w: Watcher, u: Cleanup, input: bool, a: Alarm,
                           c: Consumer, move: ConsumerMove, c': Consumer, returned: seq<nat>)
    requires ClaimInv(f, live, w, c) && OrderInv(f.token, |f.claims|, c, returned)
    requires ConsumerNext(f, u, input, a, c, move) == Some(c')
    ensures var f' := FlightAfterConsumer(f, c, move);
            OrderInv(f'.token, |f'.claims|, c', ReturnedAfterConsumer(returned, u, c, move))
  {
  }

  lemma ConsumerStaysSane(f: Flight, live: map<Tid, Handler>, w: Watcher, u: Cleanup, notifiers: map<nat, Notifier>,
                          input: bool, a: Alarm, c: Consumer, move: ConsumerMove, c': Consumer, completions: nat)
    requires ClaimInv(f, live, w, c) && CleanupInv(u, notifiers, c, completions)
    requires Sane(a) && (c.ConsumerFailing? ==> !Impossible(c.kind))
    requires ConsumerNext(f, u, input, a, c, move) == Some(c')
    ensures c'.ConsumerFailing? ==> !Impossible(c'.kind)
    ensures Sane(AlarmAfterConsumer(a, c, move))
    ensures a.failure != None ==> AlarmAfterConsumer(a, c, move).failure == a.failure
  {
  }

  // ----- notifiers

  lemma NotifierKeepsCleanup(u: Cleanup, notifiers: map<nat, Notifier>, n: nat, move: NotifierMove, turn: NotifierTurn,
                             c: Consumer, completions: nat)
    requires CleanupInv(u, notifiers, c, completions)
    requires n in notifiers && NotifierNext(u, notifiers[n], move) == Some(turn)
    ensures CleanupInv(CleanupAfterNotifier(u, move), NotifiersAfter(notifiers, n, turn), c, completions)
  {
  }

  lemma NotifierStaysSane(u: Cleanup, notifiers: map<nat, Notifier>, n: nat, move: NotifierMove, turn: NotifierTurn,
                          a: Alarm)
    requires Sane(a) && NotifiersSane(notifiers)
    requires n in notifiers && NotifierNext(u, notifiers[n], move) == Some(turn)
    ensures NotifiersSane(NotifiersAfter(notifiers, n, turn))
    ensures Sane(AlarmAfterNotifier(a, notifiers[n], move))
    ensures a.failure != None ==> AlarmAfterNotifier(a, notifiers[n], move).failure == a.failure
  {
  }

  // ----- rearming

  lemma RearmKeepsRearm(r: Registration, taken: bool, a: Alarm, move: RearmMove, r': Registration)
    requires RearmInv(r, a.failure != None) && RearmNext(r, taken, a.failure != None, move) == Some(r')
    ensures RearmInv(r', AlarmAfterRearm(a, r.holder, move).failure != None)
    ensures a.failure != None ==> AlarmAfterRearm(a, r.holder, move).failure == a.failure
  {
  }

  lemma RearmStaysSane(r: Registration, taken: bool, a: Alarm, move: RearmMove, r': Registration)
    requires Sane(a) && (r.holder.RearmFailing? ==> !Impossible(r.holder.kind))
    requires RearmNext(r, taken, a.failure != None, move) == Some(r')
    ensures r'.holder.RearmFailing? ==> !Impossible(r'.holder.kind)
    ensures Sane(AlarmAfterRearm(a, r.holder, move))
  {
  }

  // ----- the invariant over whole steps

  lemma SpawnKeeps(s: State, t: Tid)
    requires Inv(s) && t !in s.threads.live && t !in s.threads.exited
    ensures Inv(s.(threads := s.threads.(live := s.threads.live[t := Outside])))
  {
    hide RearmInv, CleanupInv, OrderInv, NotifiersSane;
  }

  lemma ExitKeeps(s: State, t: Tid)
    requires Inv(s) && t in s.threads.live && s.threads.live[t] == Outside
    ensures Inv(s.(threads := Threads(s.threads.live - {t}, s.threads.exited + {t})))
  {
    hide RearmInv, CleanupInv, OrderInv, NotifiersSane;
  }

  lemma NotifyKeeps(s: State, n: nat)
    requires Inv(s) && n !in s.notifiers
    ensures Inv(s.(notifiers := s.notifiers[n := Noting]))
  {
    hide RearmInv, ClaimInv, HandleInv, ExitInv, IdInv, OrderInv, HandlersSane;
  }

  lemma HandlerKeeps(s: State, t: Tid, move: HandlerMove)
    requires Inv(s) && HandlerStep(s, t, move).Some?
    ensures Inv(HandlerStep(s, t, move).value)
    ensures s.alarm.failure != None ==> HandlerStep(s, t, move).value.alarm.failure == s.alarm.failure
  {
    hide HandlerNext, FlightAfterHandler, AlarmAfterHandler, Sane, HandlersSane, NotifiersSane;
    hide ClaimInv, HandleInv, ExitInv, IdInv, CleanupInv, OrderInv;
    var live, w, c := s.threads.live, s.watcher, s.consumer;
    var pc := HandlerNext(s.flight, t, live[t], move).value;
    HandlerKeepsClaim(s.flight, live, t, move, pc, w, c);
    HandlerKeepsHandle(s.flight, live, t, move, pc, w, c);
    HandlerKeepsExit(s.flight, s.threads, t, move, pc, w, c, s.returned);
    HandlerKeepsId(s.flight, s.threads, t, move, pc, w, c, s.returned);
    HandlerKeepsOrder(s.flight, live, t, move, pc, w, c, s.returned);
    HandlerStaysSane(s.flight, live, t, move, pc, w, c);
    HandlerAlarmStaysSane(s.alarm, live, t, move, s.flight.claims);
    FailingKeepsRearm(s.registration, s.alarm, AlarmAfterHandler(s.alarm, live[t], move));
  }

  /** A newly recorded failure never breaks what holds of the registrations. */
  lemma FailingKeepsRearm(r: Registration, a: Alarm, a': Alarm)
    requires RearmInv(r, a.failure != None) && (a.failure != None ==> a'.failure == a.failure)
    ensures RearmInv(r, a'.failure != None)
  {
  }

  lemma WatcherKeeps(s: State, move: WatcherMove)
    requires Inv(s) && WatcherStep(s, move).Some?
    ensures Inv(WatcherStep(s, move).value)
    ensures s.alarm.failure != None ==> WatcherStep(s, move).value.alarm.failure == s.alarm.failure
  {
    hide WatcherNext, FlightAfterWatcher, AlarmAfterWatcher, Sane, HandlersSane, NotifiersSane;
    hide ClaimInv, HandleInv, ExitInv, IdInv, CleanupInv, RearmInv;
    var live, w, c, exited := s.threads.live, s.watcher, s.consumer, s.threads.exited;
    var w' := WatcherNext(s.flight, exited, s.alarm, w, move).value;
    WatcherKeepsClaim(s.flight, live, exited, s.alarm, w, move, w', c);
    WatcherKeepsHandle(s.flight, live, exited, s.alarm, w, move, w', c);
    WatcherKeepsExit(s.flight, s.threads, s.alarm, w, move, w', c, s.returned);
    WatcherKeepsRest(s.flight, live, exited, s.alarm, w, move, w', c);
    WatcherAlarmStaysSane(s.alarm, w, move);
    FailingKeepsRearm(s.registration, s.alarm, AlarmAfterWatcher(s.alarm, w, move));
  }

  lemma ConsumerKeeps(s: State, move: ConsumerMove)
    requires Inv(s) && ConsumerStep(s, move).Some?
    ensures Inv(ConsumerStep(s, move).value)
    ensures s.alarm.failure != None ==> ConsumerStep(s, move).value.alarm.failure == s.alarm.failure
  {
    hide ConsumerNext, FlightAfterConsumer, CleanupAfterConsumer, ReturnedAfterConsumer, AlarmAfterConsumer;
    hide Sane, NotifiersSane;
    hide ClaimInv, HandleInv, ExitInv, IdInv, CleanupInv, OrderInv, RearmInv;
    var f, live, w, c, u, a := s.flight, s.threads.live, s.watcher, s.consumer, s.cleanup, s.alarm;
    var c' := ConsumerNext(f, u, s.input, a, c, move).value;
    ConsumerKeepsClaim(f, live, w, u, s.input, a, c, move, c');
    ConsumerKeepsHandle(f, live, w, u, s.input, a, c, move, c');
    ConsumerKeepsExit(f, s.threads, w, u, s.input, a, c, move, c', s.returned);
    ConsumerKeepsId(f, s.threads, w, u, s.input, a, c, move, c', s.returned);
    ConsumerKeepsCleanup(f, u, s.notifiers, s.input, a, c, move, c', s.returned);
    ConsumerKeepsOrder(f, live, w, u, s.input, a, c, move, c', s.returned);
    ConsumerStaysSane(f, live, w, u, s.notifiers, s.input, a, c, move, c', |s.returned|);
    ConsumerKeepsClaims(f, c, move);
    FailingKeepsRearm(s.registration, a, AlarmAfterConsumer(a, c, move));
  }

  lemma ConsumerKeepsClaims(f: Flight, c: Consumer, move: ConsumerMove)
    ensures FlightAfterConsumer(f, c, move).claims == f.claims
  {
  }

  lemma NotifierKeeps(s: State, n: nat, move: NotifierMove)
    requires Inv(s) && NotifierStep(s, n, move).Some?
    ensures Inv(NotifierStep(s, n, move).value)
    ensures s.alarm.failure != None ==> NotifierStep(s, n, move).value.alarm.failure == s.alarm.failure
  {
    hide NotifierNext, CleanupAfterNotifier, AlarmAfterNotifier, NotifiersAfter, Sane, HandlersSane, NotifiersSane;
    hide ClaimInv, HandleInv, ExitInv, IdInv, CleanupInv, OrderInv, RearmInv;
    var turn := NotifierNext(s.cleanup, s.notifiers[n], move).value;
    NotifierKeepsCleanup(s.cleanup, s.notifiers, n, move, turn, s.consumer, |s.returned|);
    NotifierStaysSane(s.cleanup, s.notifiers, n, move, turn, s.alarm);
    FailingKeepsRearm(s.registration, s.alarm, AlarmAfterNotifier(s.alarm, s.notifiers[n], move));
  }

  lemma RearmKeeps(s: State, move: RearmMove)
    requires Inv(s) && RearmStep(s, move).Some?
    ensures Inv(RearmStep(s, move).value)
    ensures s.alarm.failure != None ==> RearmStep(s, move).value.alarm.failure == s.alarm.failure
  {
    hide RearmNext, AlarmAfterRearm, Sane, HandlersSane, NotifiersSane;
    hide ClaimInv, HandleInv, ExitInv, IdInv, CleanupInv, OrderInv, RearmInv;
    var r' := RearmNext(s.registration, s.flight.taken, s.alarm.failure != None, move).value;
    RearmKeepsRearm(s.registration, s.flight.taken, s.alarm, move, r');
    RearmStaysSane(s.registration, s.flight.taken, s.alarm, move, r');
  }

  /** One step of anybody keeps the whole invariant, and no step changes a recorded failure. */
  lemma StepKeeps(s: State, action: Action)
    requires Inv(s) && Step(s, action).Some?
    ensures Inv(Step(s, action).value)
    ensures s.alarm.failure != None ==> Step(s, action).value.alarm.failure == s.alarm.failure
  {
    hide Inv, HandlerStep, WatcherStep, ConsumerStep, NotifierStep, RearmStep;
    match action
    case Spawn(t) => SpawnKeeps(s, t);
    case Exit(t) => ExitKeeps(s, t);
    case ByHandler(t, h) => HandlerKeeps(s, t, h);
    case ByWatcher(w) => WatcherKeeps(s, w);
    case ByConsumer(c) => ConsumerKeeps(s, c);
    case Notify(n) => NotifyKeeps(s, n);
    case ByNotifier(n, m) => NotifierKeeps(s, n, m);
    case ByRearm(r) => RearmKeeps(s, r);
    case InputArrives => InputKeeps(s);
  }

  lemma InputKeeps(s: State)
    requires Inv(s)
    ensures Inv(s.(input := true))
  {
    hide ClaimInv, HandleInv, ExitInv, IdInv, CleanupInv, OrderInv, RearmInv, Sane, HandlersSane, NotifiersSane;
  }

  lemma StartInv()
    ensures Inv(START)
  {
  }

  lemma {:induction false} RunKeeps(actions: seq<Action>)
    requires Run(actions).Some?
    ensures Inv(Run(actions).value)
  {
    hide Inv, Step;
    if actions == [] {
      StartInv();
    } else {
      RunKeeps(actions[..|actions| - 1]);
      StepKeeps(Run(actions[..|actions| - 1]).value, actions[|actions| - 1]);
    }
  }

  // ----- what every run guarantees, whichever Win32 calls fail

  /**
    The i-th completion handed to the runtime belongs to a claim whose handler
    thread has ended, a cleanup was notified for each, and no claim is handed
    out twice or out of order.
   */
  lemma CompletionsAreEarned(actions: seq<Action>)
    requires Run(actions).Some?
    ensures var s := Run(actions).value;
            && (forall i :: 0 <= i < |s.returned| ==>
                  s.returned[i] < |s.flight.claims| && s.flight.claims[s.returned[i]] in s.threads.exited)
            && (forall i, j :: 0 <= i < j < |s.returned| ==> s.returned[i] < s.returned[j])
            && |s.returned| <= s.cleanup.notified
  {
    hide Run, ClaimInv, HandleInv, IdInv, FailureInv, RearmInv;
    RunKeeps(actions);
  }

  /** The four internal inconsistencies the code checks for cannot arise. */
  lemma NoImpossibleFailure(actions: seq<Action>)
    requires Run(actions).Some?
    ensures var failure := Run(actions).value.alarm.failure;
            failure != Some(MissingHandlerThread) && failure != Some(PublishHandlerThread)
            && failure != Some(CompletionWithoutInterrupt) && failure != Some(CompletionWithoutCleanup)
  {
    hide Run, ClaimInv, HandleInv, IdInv, ExitInv, CleanupInv, OrderInv, RearmInv;
    RunKeeps(actions);
  }

  /**
    A second callback on a thread that has claimed an interrupt is refused and
    then returns without touching anything shared: it reports no overlap.
   */
  lemma SecondCallbackDoesNothing(actions: seq<Action>, t: Tid)
    requires Run(actions).Some?
    requires var s := Run(actions).value; t in s.threads.live && t in s.flight.claims
    ensures var s := Run(actions).value;
            && (s.threads.live[t] == Entered ==>
                  Step(s, ByHandler(t, Claim)) == Some(s.(threads := s.threads.(live := s.threads.live[t := Refused]))))
            && (s.threads.live[t] == Refused ==>
                  Step(s, ByHandler(t, CompareId)) ==
                  Some(s.(threads := s.threads.(live := s.threads.live[t := Outside]))))
            && s.threads.live[t] != Failing(HandlerOverlap)
  {
    hide Run, HandleInv, ExitInv, CleanupInv, OrderInv, RearmInv;
    RunKeeps(actions);
    var s := Run(actions).value;
    var i :| 0 <= i < |s.flight.claims| && s.flight.claims[i] == t;
    assert i == |s.flight.claims| - 1 && s.flight.token != NoToken;
  }

  /** Rearming never leaves the process unobserved, and leaves exactly the active observer. */
  lemma AlwaysObserved(actions: seq<Action>)
    requires Run(actions).Some?
    ensures var s := Run(actions).value; var r := s.registration;
            && (r.a || r.b)
            && (r.holder == Free && s.alarm.failure == None ==> r.a == r.activeA && r.b == !r.activeA)
  {
    hide Run, ClaimInv, HandleInv, ExitInv, IdInv, CleanupInv, OrderInv, FailureInv;
    RunKeeps(actions);
  }

  /** Once a failure is recorded, the rest of the run reports that failure. */
  lemma {:induction false} FirstFailureStays(actions: seq<Action>, more: seq<Action>)
    requires Run(actions + more).Some?
    ensures Run(actions).Some?
    ensures Run(actions).value.alarm.failure != None ==>
              Run(actions + more).value.alarm.failure == Run(actions).value.alarm.failure
    decreases |more|
  {
    hide Inv, Step;
    if more == [] {
      assert actions + more == actions;
    } else {
      var earlier := actions + more[..|more| - 1];
      assert (actions + more)[..|actions + more| - 1] == earlier;
      assert (actions + more)[|actions + more| - 1] == more[|more| - 1];
      FirstFailureStays(actions, more[..|more| - 1]);
      RunKeeps(earlier);
      StepKeeps(Run(earlier).value, more[|more| - 1]);
    }
  }

  // ----- a completed interrupt

  lemma Take(actions: seq<Action>, s: State, action: Action) returns (next: State)
    requires Run(actions) == Some(s) && Step(s, action).Some?
    ensures next == Step(s, action).value && Run(actions + [action]) == Some(next)
  {
    hide Step;
    next := Step(s, action).value;
    assert (actions + [action])[..|actions + [action]| - 1] == actions;
  }

  lemma ClaimFlag() returns (actions: seq<Action>, s: State)
    ensures Run(actions) == Some(s)
    ensures s.flight == Flight(true, None, 1, false, false, AtHandler, [1])
    ensures 1 in s.threads.live && s.threads.live[1] == IdStored && s.threads.exited == {}
    ensures s == START.(flight := s.flight, threads := s.threads)
  {
    actions := [];
    var s0 := START;
    var s1 := Take(actions, s0, Spawn(1));
    actions := actions + [Spawn(1)];
    var s2 := Take(actions, s1, ByHandler(1, Enter));
    actions := actions + [ByHandler(1, Enter)];
    var s3 := Take(actions, s2, ByHandler(1, Claim));
    actions := actions + [ByHandler(1, Claim)];
    var s4 := Take(actions, s3, ByHandler(1, StoreId));
    actions := actions + [ByHandler(1, StoreId)];
    s := s4;
  }

  lemma Dispatch() returns (actions: seq<Action>, s: State)
    ensures Run(actions) == Some(s)
    ensures s.flight == Flight(true, Some(1), 1, true, false, AtHandoff, [1]) && s.threads.exited == {1}
    ensures s == START.(flight := s.flight, threads := s.threads)
  {
    hide Run;
    var s0;
    actions, s0 := ClaimFlag();
    var s1 := Take(actions, s0, ByHandler(1, Duplicate(true)));
    actions := actions + [ByHandler(1, Duplicate(true))];
    var s2 := Take(actions, s1, ByHandler(1, Publish));
    actions := actions + [ByHandler(1, Publish)];
    var s3 := Take(actions, s2, ByHandler(1, Handoff(true)));
    actions := actions + [ByHandler(1, Handoff(true))];
    var s4 := Take(actions, s3, Exit(1));
    actions := actions + [Exit(1)];
    s := s4;
  }

  lemma JoinThread() returns (actions: seq<Action>, s: State)
    ensures Run(actions) == Some(s)
    ensures s.flight == Flight(true, None, 1, false, true, AtCompletion, [1])
    ensures s == START.(flight := s.flight, threads := s.threads)
  {
    hide Run;
    var s0;
    actions, s0 := Dispatch();
    var s1 := Take(actions, s0, ByWatcher(TakeHandoff));
    actions := actions + [ByWatcher(TakeHandoff)];
    var s2 := Take(actions, s1, ByWatcher(TakeHandle));
    actions := actions + [ByWatcher(TakeHandle)];
    var s3 := Take(actions, s2, ByWatcher(WatcherMove.Join(true)));
    actions := actions + [ByWatcher(WatcherMove.Join(true))];
    var s4 := Take(actions, s3, ByWatcher(Close(true)));
    actions := actions + [ByWatcher(Close(true))];
    var s5 := Take(actions, s4, ByWatcher(SignalDone(true)));
    actions := actions + [ByWatcher(SignalDone(true))];
    s := s5;
  }

  lemma Clean() returns (actions: seq<Action>, s: State)
    ensures Run(actions) == Some(s)
    ensures s.flight == Flight(true, None, 1, false, true, AtCompletion, [1]) && s.cleanup == Cleanup(true, true, 1)
    ensures s == START.(flight := s.flight, threads := s.threads, cleanup := s.cleanup, notifiers := s.notifiers)
  {
    hide Run;
    var s0;
    actions, s0 := JoinThread();
    var s1 := Take(actions, s0, Notify(0));
    actions := actions + [Notify(0)];
    var s2 := Take(actions, s1, ByNotifier(0, ClaimCleanup));
    actions := actions + [ByNotifier(0, ClaimCleanup)];
    var s3 := Take(actions, s2, ByNotifier(0, SignalCleanupDone(true)));
    actions := actions + [ByNotifier(0, SignalCleanupDone(true))];
    s := s3;
  }

  lemma Consume() returns (actions: seq<Action>, s: State)
    ensures Run(actions) == Some(s)
    ensures s.flight == Flight(true, None, 1, false, false, AtConsumer, [1]) && s.cleanup == Cleanup(true, false, 1)
    ensures s.consumer == ClearingId && s.returned == [] && s.alarm == START.alarm
  {
    hide Run;
    var s0;
    actions, s0 := Clean();
    var s1 := Take(actions, s0, ByConsumer(CallWait));
    actions := actions + [ByConsumer(CallWait)];
    var s2 := Take(actions, s1, ByConsumer(Check));
    actions := actions + [ByConsumer(Check)];
    var s3 := Take(actions, s2, ByConsumer(TakeCompletion));
    actions := actions + [ByConsumer(TakeCompletion)];
    var s4 := Take(actions, s3, ByConsumer(TakeCleanup));
    actions := actions + [ByConsumer(TakeCleanup)];
    s := s4;
  }

  /** The guarantees are not empty: a claimed, joined and cleaned-up interrupt is returned, and all is free again. */
  lemma InterruptCompletes() returns (actions: seq<Action>)
    ensures Run(actions).Some?
    ensures var s := Run(actions).value;
            s.returned == [0] && s.alarm.failure == None
            && s.flight == Flight(false, None, 0, false, false, NoToken, [1])
  {
    hide Run;
    var s0;
    actions, s0 := Consume();
    var s1 := Take(actions, s0, ByConsumer(ClearId));
    actions := actions + [ByConsumer(ClearId)];
    var s2 := Take(actions, s1, ByConsumer(ClearFlight));
    actions := actions + [ByConsumer(ClearFlight)];
    var s3 := Take(actions, s2, ByConsumer(ClearCleanup));
    actions := actions + [ByConsumer(ClearCleanup)];
  }
}
