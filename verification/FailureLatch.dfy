/**
  The failure latch of the Ctrl-C observer: any number of recorders and readers
  over two atomic words, one step per atomic operation.  A recorder claims the
  kind word, stores its code and then publishes its kind; a reader loads the
  kind, spins while it is being recorded, and then loads the code.
 */
module FailureLatch {
  import opened Wrappers

  type Word = w: nat | w <= 0xFFFF_FFFF

  /** Raw values of the kind word that are not failure kinds. */
  const NONE: Word := 0
  const RECORDING: Word := 0xFFFF_FFFF

  type Kind = k: nat | 0 < k < 0xFFFF_FFFF witness 1

  datatype Failure = Failure(kind: Kind, code: Word)

  /** A recorder that won the claim: which stores are still ahead of it. */
  datatype Recorder = StoringCode(failure: Failure) | StoringKind(failure: Failure)

  datatype Reader = LoadingKind | LoadingCode(kind: Kind)

  /**
    The two words, the threads under way, and the history: the failure whose
    recorder won, that recorder, and every result returned so far.
   */
  datatype State = State(
    kind: Word, code: Word, recorders: map<nat, Recorder>, readers: map<nat, Reader>,
    winner: Option<Failure>, owner: nat, results: seq<Option<Failure>>)

  const START := State(NONE, 0, map[], map[], None, 0, [])

  datatype Action =
    | Compare(id: nat, failure: Failure)   // compare-and-exchange from NONE to RECORDING
    | StoreCode(id: nat)
    | StoreKind(id: nat)
    | BeginRead(id: nat)
    | LoadKind(id: nat)
    | LoadCode(id: nat)

  function Step(s: State, a: Action): Option<State> {
    match a
    case Compare(id, failure) => CompareStep(s, id, failure)
    case StoreCode(id) =>
      if id in s.recorders && s.recorders[id].StoringCode? then
        Some(s.(code := s.recorders[id].failure.code,
                recorders := s.recorders[id := StoringKind(s.recorders[id].failure)]))
      else None
    case StoreKind(id) =>
      if id in s.recorders && s.recorders[id].StoringKind? then
        Some(s.(kind := s.recorders[id].failure.kind, recorders := s.recorders - {id}))
      else None
    case BeginRead(id) => if id in s.readers then None else Some(s.(readers := s.readers[id := LoadingKind]))
    case LoadKind(id) => if id in s.readers && s.readers[id] == LoadingKind then Some(AfterKind(s, id)) else None
    case LoadCode(id) =>
      if id in s.readers && s.readers[id].LoadingCode? then
        Some(s.(readers := s.readers - {id}, results := s.results + [Some(Failure(s.readers[id].kind, s.code))]))
      else None
  }

  function CompareStep(s: State, id: nat, failure: Failure): Option<State> {
    if id in s.recorders then None
    else if s.kind != NONE then Some(s)
    else Some(s.(kind := RECORDING, recorders := s.recorders[id := StoringCode(failure)],
                 winner := Some(failure), owner := id))
  }

  /** A reader returns at once when nothing is recorded, and spins while a recorder is at work. */
  function AfterKind(s: State, id: nat): State {
    if s.kind == NONE then s.(readers := s.readers - {id}, results := s.results + [None])
    else if s.kind == RECORDING then s
    else s.(readers := s.readers[id := LoadingCode(s.kind)])
  }

  function Run(actions: seq<Action>): Option<State> {
    if actions == [] then Some(START)
    else
      match Run(actions[..|actions| - 1])
      case None => None
      case Some(s) => Step(s, actions[|actions| - 1])
  }

  /** What the very first compare of a run tried to record. */
  function FirstCompared(actions: seq<Action>): Option<Failure> {
    if actions == [] then None
    else
      match FirstCompared(actions[..|actions| - 1])
      case Some(failure) => Some(failure)
      case None =>
        match actions[|actions| - 1]
        case Compare(_, failure) => Some(failure)
        case _ => None
  }

  // ----- invariant

  ghost predicate WordsInv(s: State) {
    && (s.kind == NONE <==> s.winner == None)
    && (s.winner == None ==> s.recorders == map[])
    && (s.winner.Some? ==> s.kind == RECORDING || (s.kind == s.winner.value.kind && s.code == s.winner.value.code))
    && (s.kind == RECORDING <==> s.owner in s.recorders)
    && (forall id :: id in s.recorders ==> id == s.owner && s.winner == Some(s.recorders[id].failure))
    && (forall id :: id in s.recorders && s.recorders[id].StoringKind? ==> s.code == s.recorders[id].failure.code)
  }

  ghost predicate ReadersInv(s: State) {
    && (forall id :: id in s.readers && s.readers[id].LoadingCode? ==>
          s.winner.Some? && s.readers[id].kind == s.winner.value.kind == s.kind)
    && (forall i :: 0 <= i < |s.results| && s.results[i].Some? ==>
          s.results[i] == s.winner && s.kind == s.winner.value.kind)
    && (forall i, j :: 0 <= i < j < |s.results| && s.results[i].Some? ==> s.results[j] == s.results[i])
  }

  lemma StepKeepsWords(s: State, a: Action)
    requires WordsInv(s) && Step(s, a).Some?
    ensures WordsInv(Step(s, a).value)
    ensures s.winner.Some? ==> Step(s, a).value.winner == s.winner
  {
  }

  lemma StepKeepsReaders(s: State, a: Action)
    requires WordsInv(s) && ReadersInv(s) && Step(s, a).Some?
    ensures ReadersInv(Step(s, a).value)
  {
  }

  lemma StartKeeps()
    ensures WordsInv(START) && ReadersInv(START)
  {
  }

  lemma {:induction false} RunKeeps(actions: seq<Action>)
    requires Run(actions).Some?
    ensures WordsInv(Run(actions).value) && ReadersInv(Run(actions).value)
  {
    hide Step, WordsInv, ReadersInv;
    if actions == [] {
      StartKeeps();
    } else {
      RunKeeps(actions[..|actions| - 1]);
      var s := Run(actions[..|actions| - 1]).value;
      StepKeepsWords(s, actions[|actions| - 1]);
      StepKeepsReaders(s, actions[|actions| - 1]);
    }
  }

  lemma {:induction false} WinnerIsFirst(actions: seq<Action>)
    requires Run(actions).Some?
    ensures Run(actions).value.winner == FirstCompared(actions)
  {
    hide WordsInv, ReadersInv, Step;
    if actions != [] {
      var before, last := actions[..|actions| - 1], actions[|actions| - 1];
      WinnerIsFirst(before);
      RunKeeps(before);
      StepKeepsWords(Run(before).value, last);
      if FirstCompared(before) == None {
        OnlyCompareWins(Run(before).value, last);
      }
    }
  }

  lemma OnlyCompareWins(s: State, a: Action)
    requires WordsInv(s) && s.winner == None && Step(s, a).Some?
    ensures Step(s, a).value.winner == if a.Compare? then Some(a.failure) else None
  {
  }

  // ----- what every interleaving guarantees

  /**
    Whatever a reader returns is nothing yet, or exactly the kind and code of
    the first recorder to reach the latch; and once one reader has returned a
    failure, every later result is that same failure.
   */
  lemma EveryReadIsTheFirstFailure(actions: seq<Action>)
    requires Run(actions).Some?
    ensures var results := Run(actions).value.results;
            && (forall i :: 0 <= i < |results| && results[i].Some? ==> results[i] == FirstCompared(actions))
            && (forall i, j :: 0 <= i < j < |results| && results[i].Some? ==> results[j] == results[i])
  {
    hide Run, FirstCompared, WordsInv;
    RunKeeps(actions);
    WinnerIsFirst(actions);
  }

  /** Once the winner has stored its kind, every check made from then on fails with the first failure. */
  lemma LaterChecksFail(actions: seq<Action>, id: nat)
    requires Run(actions).Some?
    requires var s := Run(actions).value; s.kind != NONE && s.kind != RECORDING && id !in s.readers
    ensures var s := Run(actions + [BeginRead(id), LoadKind(id), LoadCode(id)]);
            && s.Some? && FirstCompared(actions).Some?
            && s.value.results == Run(actions).value.results + [FirstCompared(actions)]
  {
    hide WordsInv, ReadersInv, Step, Run;
    RunKeeps(actions);
    WinnerIsFirst(actions);
    var s := Run(actions).value;
    PublishedIsRead(s, id);
    RunThen(actions, BeginRead(id));
    RunThen(actions + [BeginRead(id)], LoadKind(id));
    RunThen(actions + [BeginRead(id)] + [LoadKind(id)], LoadCode(id));
    assert actions + [BeginRead(id)] + [LoadKind(id)] + [LoadCode(id)]
           == actions + [BeginRead(id), LoadKind(id), LoadCode(id)];
  }

  lemma RunThen(actions: seq<Action>, action: Action)
    requires Run(actions).Some?
    ensures Run(actions + [action]) == Step(Run(actions).value, action)
  {
    hide Step;
    assert (actions + [action])[..|actions + [action]| - 1] == actions;
  }

  lemma PublishedIsRead(s: State, id: nat)
    requires WordsInv(s) && s.kind != NONE && s.kind != RECORDING && id !in s.readers
    ensures s.winner.Some?
    ensures var begun := Step(s, BeginRead(id));
            begun.Some? &&
            var loaded := Step(begun.value, LoadKind(id));
            loaded.Some? &&
            var done := Step(loaded.value, LoadCode(id));
            done.Some? && done.value.results == s.results + [s.winner]
  {
  }

  /** A reader never spins for ever: the winner is at most two steps from publishing its kind. */
  lemma RecordingEnds(actions: seq<Action>)
    requires Run(actions).Some? && Run(actions).value.kind == RECORDING
    ensures var s := Run(actions).value;
            s.owner in s.recorders && FirstCompared(actions).Some? &&
            var next := if s.recorders[s.owner].StoringCode? then Step(s, StoreCode(s.owner)) else Some(s);
            next.Some? &&
            var done := Step(next.value, StoreKind(s.owner));
            done.Some? && done.value.kind == FirstCompared(actions).value.kind
            && done.value.code == FirstCompared(actions).value.code
  {
    hide Run, FirstCompared, ReadersInv;
    RunKeeps(actions);
    WinnerIsFirst(actions);
  }
}
