/**
  Resolution of the ordered sandbox operations of the command line, which are
  checked as a whole and then applied from the last explicit mode on.
 */
module SandboxPlan {
  import opened Wrappers

  datatype Result<T> = Ok(value: T) | Err(error: Error)

  /** The settings that only workspace-write mode has, each with its own message. */
  datatype Setting = AddRoot | NetworkAccess | WritableRoots | ExcludeTmpdirEnvVar | ExcludeSlashTmp

  datatype Error =
    | MissingInheritedState
    | RequiresWorkspaceWrite(setting: Setting)
    | EmptyDomain
    | BadDomain

  datatype Mode = Inherit | ReadOnlyMode | WorkspaceWriteMode | DangerFullAccessMode

  datatype ConfigOperation =
    | ConfigMode(mode: Mode)
    | SetNetworkAccess(value: bool)
    | SetWritableRoots(roots: seq<string>)
    | SetExcludeTmpdirEnvVar(value: bool)
    | SetExcludeSlashTmp(value: bool)
    | SetAllowedDomains(domains: seq<string>)
    | SetDeniedDomains(domains: seq<string>)
    | SetAllowLocalBinding(value: bool)
    | SetUseLinuxSandboxBwrap(value: bool)

  datatype Operation =
    | SetMode(mode: Mode)
    | AddWritableRoot(path: string)
    | AddAllowedDomain(domain: string)
    | Config(op: ConfigOperation)

  datatype Policy =
    | DangerFullAccess
    | ReadOnly(network: bool)
    | ExternalSandbox(network: bool)
    | WorkspaceWrite(roots: seq<string>, networkAccess: bool, excludeTmpdirEnvVar: bool, excludeSlashTmp: bool)
    | Managed(fullDiskWrite: bool, network: bool)

  datatype NetworkPolicy = NetworkPolicy(allowed: seq<string>, denied: seq<string>, localBinding: bool)

  datatype Sandbox = Sandbox(policy: Policy, cwd: string, bwrap: bool, network: NetworkPolicy, tempDir: string)

  /** String trimming and the host-pattern check belong to other files. */
  datatype Domains = Domains(trim: string -> string, valid: string -> bool)

  // ----- modes

  function ModeOf(op: Operation): Option<Mode> {
    match op
    case SetMode(mode) => Some(mode)
    case Config(ConfigMode(mode)) => Some(mode)
    case _ => None
  }

  /** The last operation that sets the mode. */
  function LastMode(ops: seq<Operation>): (r: Option<(nat, Mode)>)
    ensures r.Some? ==> r.value.0 < |ops| && ModeOf(ops[r.value.0]) == Some(r.value.1)
    ensures r.Some? ==> forall i :: r.value.0 < i < |ops| ==> ModeOf(ops[i]) == None
    ensures r.None? ==> forall i :: 0 <= i < |ops| ==> ModeOf(ops[i]) == None
  {
    if ops == [] then None
    else
      var last := |ops| - 1;
      match ModeOf(ops[last])
      case Some(mode) => Some((last, mode))
      case None => LastMode(ops[..last])
  }

  predicate RequestsInherited(ops: seq<Operation>) {
    var last := LastMode(ops);
    last.Some? && last.value.1 == Inherit
  }

  // ----- applying

  function ApplyMode(mode: Mode, inherited: Option<Sandbox>, defaults: Sandbox): Result<Sandbox> {
    match mode
    case Inherit => (match inherited case Some(state) => Ok(state) case None => Err(MissingInheritedState))
    case ReadOnlyMode => Ok(defaults.(policy := ReadOnly(false)))
    case WorkspaceWriteMode => Ok(defaults.(policy := WorkspaceWrite([], false, false, false)))
    case DangerFullAccessMode => Ok(defaults.(policy := DangerFullAccess))
  }

  function ApplyConfig(s: Sandbox, op: ConfigOperation, inherited: Option<Sandbox>, defaults: Sandbox)
    : Result<Sandbox>
  {
    match op
    case ConfigMode(mode) => ApplyMode(mode, inherited, defaults)
    case SetNetworkAccess(value) =>
      if s.policy.WorkspaceWrite? then Ok(s.(policy := s.policy.(networkAccess := value)))
      else Err(RequiresWorkspaceWrite(NetworkAccess))
    case SetWritableRoots(roots) =>
      if s.policy.WorkspaceWrite? then Ok(s.(policy := s.policy.(roots := roots)))
      else Err(RequiresWorkspaceWrite(WritableRoots))
    case SetExcludeTmpdirEnvVar(value) =>
      if s.policy.WorkspaceWrite? then Ok(s.(policy := s.policy.(excludeTmpdirEnvVar := value)))
      else Err(RequiresWorkspaceWrite(ExcludeTmpdirEnvVar))
    case SetExcludeSlashTmp(value) =>
      if s.policy.WorkspaceWrite? then Ok(s.(policy := s.policy.(excludeSlashTmp := value)))
      else Err(RequiresWorkspaceWrite(ExcludeSlashTmp))
    case SetAllowedDomains(domains) => Ok(s.(network := s.network.(allowed := domains)))
    case SetDeniedDomains(domains) => Ok(s.(network := s.network.(denied := domains)))
    case SetAllowLocalBinding(value) => Ok(s.(network := s.network.(localBinding := value)))
    case SetUseLinuxSandboxBwrap(value) => Ok(s.(bwrap := value))
  }

  function Apply(s: Sandbox, op: Operation, inherited: Option<Sandbox>, defaults: Sandbox, d: Domains)
    : Result<Sandbox>
  {
    match op
    case SetMode(mode) => ApplyMode(mode, inherited, defaults)
    case AddWritableRoot(path) =>
      if !s.policy.WorkspaceWrite? then Err(RequiresWorkspaceWrite(AddRoot))
      else if path in s.policy.roots then Ok(s)
      else Ok(s.(policy := s.policy.(roots := s.policy.roots + [path])))
    case AddAllowedDomain(domain) =>
      if d.trim(domain) == "" then Err(EmptyDomain)
      else if d.trim(domain) in s.network.allowed then Ok(s)
      else Ok(s.(network := s.network.(allowed := s.network.allowed + [d.trim(domain)])))
    case Config(op) => ApplyConfig(s, op, inherited, defaults)
  }

  /** Every operation in order, from a given state. */
  function ApplyAll(s: Sandbox, ops: seq<Operation>, inherited: Option<Sandbox>, defaults: Sandbox, d: Domains)
    : Result<Sandbox>
    decreases |ops|
  {
    if ops == [] then Ok(s)
    else
      match Apply(s, ops[0], inherited, defaults, d)
      case Err(e) => Err(e)
      case Ok(next) => ApplyAll(next, ops[1..], inherited, defaults, d)
  }

  // ----- checking

  datatype CheckMode = ReadOnlyChecked | WorkspaceWriteChecked | FullAccessChecked | DeferredInherit | UnresolvedInherit

  function FromPolicy(p: Policy): CheckMode {
    match p
    case ReadOnly(_) => ReadOnlyChecked
    case WorkspaceWrite(_, _, _, _) => WorkspaceWriteChecked
    case Managed(full, _) => if full then FullAccessChecked else ReadOnlyChecked
    case DangerFullAccess => FullAccessChecked
    case ExternalSandbox(_) => FullAccessChecked
  }

  function CheckModeFor(mode: Mode, inherited: Option<Sandbox>, deferred: bool): CheckMode {
    match mode
    case Inherit =>
      if inherited.Some? then FromPolicy(inherited.value.policy)
      else if deferred then DeferredInherit else UnresolvedInherit
    case ReadOnlyMode => ReadOnlyChecked
    case WorkspaceWriteMode => WorkspaceWriteChecked
    case DangerFullAccessMode => FullAccessChecked
  }

  function RequireWorkspaceWrite(m: CheckMode, setting: Setting): Result<CheckMode> {
    if m == WorkspaceWriteChecked || m == DeferredInherit then Ok(m) else Err(RequiresWorkspaceWrite(setting))
  }

  function Check(m: CheckMode, op: Operation, inherited: Option<Sandbox>, deferred: bool, d: Domains)
    : Result<CheckMode>
  {
    match op
    case SetMode(mode) => Ok(CheckModeFor(mode, inherited, deferred))
    case AddWritableRoot(_) => RequireWorkspaceWrite(m, AddRoot)
    case AddAllowedDomain(domain) =>
      if d.trim(domain) == "" then Err(EmptyDomain) else if !d.valid(domain) then Err(BadDomain) else Ok(m)
    case Config(ConfigMode(mode)) => Ok(CheckModeFor(mode, inherited, deferred))
    case Config(SetNetworkAccess(_)) => RequireWorkspaceWrite(m, NetworkAccess)
    case Config(SetWritableRoots(_)) => RequireWorkspaceWrite(m, WritableRoots)
    case Config(SetExcludeTmpdirEnvVar(_)) => RequireWorkspaceWrite(m, ExcludeTmpdirEnvVar)
    case Config(SetExcludeSlashTmp(_)) => RequireWorkspaceWrite(m, ExcludeSlashTmp)
    case Config(_) => Ok(m)
  }

  function CheckAll(m: CheckMode, ops: seq<Operation>, inherited: Option<Sandbox>, deferred: bool, d: Domains)
    : Result<CheckMode>
    decreases |ops|
  {
    if ops == [] then Ok(m)
    else
      match Check(m, ops[0], inherited, deferred, d)
      case Err(e) => Err(e)
      case Ok(next) => CheckAll(next, ops[1..], inherited, deferred, d)
  }

  /** The verdict of `validate_sandbox_plan_operations`. */
  function Verdict(ops: seq<Operation>, inherited: Option<Sandbox>, defaults: Sandbox, d: Domains): Result<CheckMode> {
    CheckAll(FromPolicy(defaults.policy), ops, inherited, inherited.None? && RequestsInherited(ops), d)
  }

  method ValidateOperations(ops: seq<Operation>, inherited: Option<Sandbox>, defaults: Sandbox, d: Domains)
    returns (error: Option<Error>)
    ensures var v := Verdict(ops, inherited, defaults, d); error == if v.Ok? then None else Some(v.error)
  {
    hide LastMode, Check;
    var deferred := inherited.None? && RequestsInherited(ops);
    var mode := FromPolicy(defaults.policy);
    assert ops[0..] == ops;
    for i := 0 to |ops|
      invariant Verdict(ops, inherited, defaults, d) == CheckAll(mode, ops[i..], inherited, deferred, d)
    {
      assert ops[i..][1..] == ops[i + 1..];
      match Check(mode, ops[i], inherited, deferred, d)
      case Err(e) => return Some(e);
      case Ok(next) => mode := next;
    }
    return None;
  }

  /** Where applying starts: at the last mode when it is explicit, else at the beginning. */
  function StartIndex(ops: seq<Operation>): (n: nat)
    ensures n <= |ops|
  {
    var last := LastMode(ops);
    if last.Some? && last.value.1 != Inherit then last.value.0 else 0
  }

  function Resolved(ops: seq<Operation>, inherited: Option<Sandbox>, defaults: Sandbox, d: Domains): Result<Sandbox> {
    if ops == [] then Ok(if inherited.Some? then inherited.value else defaults)
    else
      var verdict := Verdict(ops, inherited, defaults, d);
      if verdict.Err? then Err(verdict.error)
      else ApplyAll(defaults, ops[StartIndex(ops)..], inherited, defaults, d)
  }

  method Resolve(ops: seq<Operation>, inherited: Option<Sandbox>, defaults: Sandbox, d: Domains)
    returns (r: Result<Sandbox>)
    ensures r == Resolved(ops, inherited, defaults, d)
  {
    hide LastMode, Apply, Verdict;
    if ops == [] {
      return Ok(if inherited.Some? then inherited.value else defaults);
    }
    var error := ValidateOperations(ops, inherited, defaults, d);
    if error.Some? {
      return Err(error.value);
    }
    var start := StartIndex(ops);
    var state := defaults;
    for i := start to |ops|
      invariant ApplyAll(defaults, ops[start..], inherited, defaults, d)
                == ApplyAll(state, ops[i..], inherited, defaults, d)
    {
      assert ops[i..][1..] == ops[i + 1..];
      match Apply(state, ops[i], inherited, defaults, d)
      case Err(e) => return Err(e);
      case Ok(next) => state := next;
    }
    return Ok(state);
  }

  // ----- skipping ahead

  lemma {:induction false} ApplyInTwo(s: Sandbox, a: seq<Operation>, b: seq<Operation>, inherited: Option<Sandbox>,
                                      defaults: Sandbox, d: Domains)
    ensures ApplyAll(s, a + b, inherited, defaults, d)
            == match ApplyAll(s, a, inherited, defaults, d)
               case Err(e) => Err(e)
               case Ok(next) => ApplyAll(next, b, inherited, defaults, d)
    decreases |a|
  {
    hide Apply;
    if a == [] {
      assert a + b == b;
    } else {
      assert (a + b)[0] == a[0] && (a + b)[1..] == a[1..] + b;
      var first := Apply(s, a[0], inherited, defaults, d);
      if first.Ok? {
        ApplyInTwo(first.value, a[1..], b, inherited, defaults, d);
      }
    }
  }

  /** An operation that sets the mode forgets the state before it. */
  lemma ModeForgets(s: Sandbox, t: Sandbox, op: Operation, inherited: Option<Sandbox>, defaults: Sandbox, d: Domains)
    requires ModeOf(op).Some?
    ensures Apply(s, op, inherited, defaults, d) == Apply(t, op, inherited, defaults, d)
            == ApplyMode(ModeOf(op).value, inherited, defaults)
  {
  }

  /** Applying from the last explicit mode gives what applying everything gives, whenever that succeeds. */
  lemma SkippingAheadIsFaithful(ops: seq<Operation>, inherited: Option<Sandbox>, defaults: Sandbox, d: Domains)
    requires ApplyAll(defaults, ops, inherited, defaults, d).Ok?
    ensures ApplyAll(defaults, ops[StartIndex(ops)..], inherited, defaults, d)
            == ApplyAll(defaults, ops, inherited, defaults, d)
  {
    hide LastMode, Apply;
    var n := StartIndex(ops);
    if n == 0 {
      assert ops[0..] == ops;
    } else {
      assert ops == ops[..n] + ops[n..];
      ApplyInTwo(defaults, ops[..n], ops[n..], inherited, defaults, d);
      var before := ApplyAll(defaults, ops[..n], inherited, defaults, d).value;
      ModeForgets(before, defaults, ops[n], inherited, defaults, d);
      assert ops[n..][0] == ops[n];
    }
  }

  // ----- a checked plan applies

  /** What the check knows of the state: whether it is workspace-write. */
  predicate Knows(m: CheckMode, s: Sandbox) {
    m != DeferredInherit && (m == WorkspaceWriteChecked ==> s.policy.WorkspaceWrite?)
  }

  lemma CheckedOperationApplies(m: CheckMode, s: Sandbox, op: Operation, inherited: Option<Sandbox>, deferred: bool,
                                defaults: Sandbox, d: Domains)
    requires Knows(m, s) && Check(m, op, inherited, deferred, d).Ok?
    ensures var r := Apply(s, op, inherited, defaults, d);
            if inherited.None? && ModeOf(op) == Some(Inherit) then r == Err(MissingInheritedState)
            else r.Ok? && Knows(Check(m, op, inherited, deferred, d).value, r.value)
  {
  }

  predicate HasInherit(ops: seq<Operation>) {
    exists i :: 0 <= i < |ops| && ModeOf(ops[i]) == Some(Inherit)
  }

  /** Checked operations apply, unless a state that nobody supplied is to be inherited. */
  lemma {:induction false} CheckedPlanApplies(m: CheckMode, s: Sandbox, ops: seq<Operation>, inherited: Option<Sandbox>,
                                              deferred: bool, defaults: Sandbox, d: Domains)
    requires Knows(m, s) && CheckAll(m, ops, inherited, deferred, d).Ok?
    ensures var r := ApplyAll(s, ops, inherited, defaults, d);
            if inherited.None? && HasInherit(ops) then r == Err(MissingInheritedState) else r.Ok?
    decreases |ops|
  {
    hide Apply, Check, Knows;
    if ops != [] {
      CheckedOperationApplies(m, s, ops[0], inherited, deferred, defaults, d);
      assert HasInherit(ops) <==> ModeOf(ops[0]) == Some(Inherit) || HasInherit(ops[1..]) by {
        HasInheritStep(ops);
      }
      var next := Apply(s, ops[0], inherited, defaults, d);
      if next.Ok? {
        var checked := Check(m, ops[0], inherited, deferred, d).value;
        CheckedPlanApplies(checked, next.value, ops[1..], inherited, deferred, defaults, d);
      }
    }
  }

  lemma HasInheritStep(ops: seq<Operation>)
    requires ops != []
    ensures HasInherit(ops) <==> ModeOf(ops[0]) == Some(Inherit) || HasInherit(ops[1..])
  {
    hide ModeOf;
    if HasInherit(ops[1..]) {
      var i :| 0 <= i < |ops[1..]| && ModeOf(ops[1..][i]) == Some(Inherit);
      assert ModeOf(ops[i + 1]) == Some(Inherit);
    }
    if HasInherit(ops) && ModeOf(ops[0]) != Some(Inherit) {
      var i :| 0 <= i < |ops| && ModeOf(ops[i]) == Some(Inherit);
      assert ModeOf(ops[1..][i - 1]) == Some(Inherit);
    }
  }

  lemma {:induction false} CheckInTwo(m: CheckMode, a: seq<Operation>, b: seq<Operation>, inherited: Option<Sandbox>,
                                      deferred: bool, d: Domains)
    ensures CheckAll(m, a + b, inherited, deferred, d)
            == match CheckAll(m, a, inherited, deferred, d)
               case Err(e) => Err(e)
               case Ok(next) => CheckAll(next, b, inherited, deferred, d)
    decreases |a|
  {
    hide Check;
    if a == [] {
      assert a + b == b;
    } else {
      assert (a + b)[0] == a[0] && (a + b)[1..] == a[1..] + b;
      var first := Check(m, a[0], inherited, deferred, d);
      if first.Ok? {
        CheckInTwo(first.value, a[1..], b, inherited, deferred, d);
      }
    }
  }

  /** From an explicit mode on, a checked plan applies to whatever came before. */
  lemma ExplicitEndApplies(m: CheckMode, s: Sandbox, ops: seq<Operation>, inherited: Option<Sandbox>, deferred: bool,
                           defaults: Sandbox, d: Domains)
    requires ops != [] && ModeOf(ops[0]).Some? && ModeOf(ops[0]) != Some(Inherit)
    requires forall i :: 0 < i < |ops| ==> ModeOf(ops[i]) == None
    requires CheckAll(m, ops, inherited, deferred, d).Ok?
    ensures ApplyAll(s, ops, inherited, defaults, d).Ok?
  {
    var mode := ModeOf(ops[0]).value;
    var next := ApplyMode(mode, inherited, defaults).value;
    ModeForgets(s, s, ops[0], inherited, defaults, d);
    assert Check(m, ops[0], inherited, deferred, d) == Ok(CheckModeFor(mode, inherited, deferred));
    CheckedPlanApplies(CheckModeFor(mode, inherited, deferred), next, ops[1..], inherited, deferred, defaults, d);
  }

  /**
    A validated plan resolves, with the single exception that its last mode is
    inherit and no state was supplied; then the error is the missing state.
   */
  lemma ValidatedPlanResolvesIff(ops: seq<Operation>, inherited: Option<Sandbox>, defaults: Sandbox, d: Domains)
    requires ops != [] && Verdict(ops, inherited, defaults, d).Ok?
    ensures var r := Resolved(ops, inherited, defaults, d);
            && (r.Err? <==> RequestsInherited(ops) && inherited.None?)
            && (r.Err? ==> r.error == MissingInheritedState)
  {
    hide CheckAll, ApplyAll, ModeOf;
    var deferred := inherited.None? && RequestsInherited(ops);
    var m := FromPolicy(defaults.policy);
    var n := StartIndex(ops);
    assert ops == ops[..n] + ops[n..];
    var last := LastMode(ops);
    if last.Some? && last.value.1 != Inherit {
      CheckInTwo(m, ops[..n], ops[n..], inherited, deferred, d);
      var before := CheckAll(m, ops[..n], inherited, deferred, d).value;
      ExplicitEndApplies(before, defaults, ops[n..], inherited, deferred, defaults, d);
    } else {
      assert ops[n..] == ops;
      CheckedPlanApplies(m, defaults, ops, inherited, deferred, defaults, d);
      assert last.Some? ==> ModeOf(ops[last.value.0]) == Some(Inherit);
    }
  }

  // ----- checking at start-up

  /** What a state turns out to be never fails a plan that was checked without one and does not end on it. */
  lemma {:induction false} CheckedWithoutState(m: CheckMode, m': CheckMode, ops: seq<Operation>, state: Sandbox,
                                           d: Domains)
    requires (m == m' || m == UnresolvedInherit) && CheckAll(m, ops, None, false, d).Ok?
    ensures CheckAll(m', ops, Some(state), false, d).Ok?
    decreases |ops|
  {
    if ops != [] {
      CheckedWithoutStateStep(m, m', ops[0], state, d);
      hide Check;
      var next, next' := Check(m, ops[0], None, false, d).value, Check(m', ops[0], Some(state), false, d).value;
      CheckedWithoutState(next, next', ops[1..], state, d);
    }
  }

  lemma CheckedWithoutStateStep(m: CheckMode, m': CheckMode, op: Operation, state: Sandbox, d: Domains)
    requires (m == m' || m == UnresolvedInherit) && Check(m, op, None, false, d).Ok?
    ensures var c, c' := Check(m, op, None, false, d), Check(m', op, Some(state), false, d);
            c'.Ok? && (c.value == c'.value || c.value == UnresolvedInherit)
  {
  }

  lemma {:induction false} StateIsNotUsed(s: Sandbox, ops: seq<Operation>, state: Sandbox, defaults: Sandbox,
                                           d: Domains)
    requires !HasInherit(ops)
    ensures ApplyAll(s, ops, Some(state), defaults, d) == ApplyAll(s, ops, None, defaults, d)
    decreases |ops|
  {
    if ops != [] {
      HasInheritStep(ops);
      assert Apply(s, ops[0], Some(state), defaults, d) == Apply(s, ops[0], None, defaults, d);
      hide Apply;
      var next := Apply(s, ops[0], None, defaults, d);
      if next.Ok? {
        StateIsNotUsed(next.value, ops[1..], state, defaults, d);
      }
    }
  }

  /**
    A plan that does not end on inherit and passed the check at start-up, when no
    state is known, resolves to the same sandbox whatever state a call supplies.
   */
  lemma StartUpCheckSuffices(ops: seq<Operation>, state: Sandbox, defaults: Sandbox, d: Domains)
    requires ops != [] && !RequestsInherited(ops) && Verdict(ops, None, defaults, d).Ok?
    ensures Resolved(ops, Some(state), defaults, d).Ok?
    ensures Resolved(ops, Some(state), defaults, d) == Resolved(ops, None, defaults, d)
  {
    hide CheckAll, ApplyAll;
    var m := FromPolicy(defaults.policy);
    CheckedWithoutState(m, m, ops, state, d);
    ValidatedPlanResolvesIff(ops, Some(state), defaults, d);
    var rest := ops[StartIndex(ops)..];
    forall i | 0 <= i < |rest| ensures ModeOf(rest[i]) != Some(Inherit) {
      assert rest[i] == ops[StartIndex(ops) + i];
    }
    StateIsNotUsed(defaults, rest, state, defaults, d);
  }
}
