/** The authorization manager: all trackers moving in step with one call stack. */
module AuthManager {
  import opened Common
  import opened AuthTree
  import opened AuthTracker
  import opened AuthAccount

  datatype StackFrame =
    | ContractFrame(contract: Address, name: Symbol)
    | CreateContractFrame(preimage: Val)

  /** A tree authorized on the fly by a contract for the next call it makes. */
  datatype Invoker = Invoker(contract: Address, tracker: Tracker)

  datatype Manager = Manager(accounts: seq<Account>, invokers: seq<Invoker>, callStack: seq<StackFrame>)

  datatype ManagerSnapshot = ManagerSnapshot(accounts: seq<AccountSnapshot>, invokers: seq<Snapshot>)

  /** `Denied` is an error the failing contract's caller may catch; `Internal` aborts the whole run. */
  datatype Outcome = Done(m: Manager) | Denied(m: Manager) | Internal

  function PushAccounts(s: seq<Account>): (r: seq<Account>) {
    seq(|s|, i requires 0 <= i < |s| => PushAccount(s[i]))
  }

  function PopAccounts(s: seq<Account>): (r: seq<Account>) {
    seq(|s|, i requires 0 <= i < |s| => PopAccount(s[i]))
  }

  function PushInvokers(s: seq<Invoker>): (r: seq<Invoker>) {
    seq(|s|, i requires 0 <= i < |s| => s[i].(tracker := Push(s[i].tracker)))
  }

  function PopInvokers(s: seq<Invoker>): (r: seq<Invoker>) {
    seq(|s|, i requires 0 <= i < |s| => s[i].(tracker := Pop(s[i].tracker)))
  }

  function SnapshotAccounts(s: seq<Account>): seq<AccountSnapshot> {
    seq(|s|, i requires 0 <= i < |s| => SnapshotAccount(s[i]))
  }

  function SnapshotInvokers(s: seq<Invoker>): seq<Snapshot> {
    seq(|s|, i requires 0 <= i < |s| => TakeSnapshot(s[i].tracker.root))
  }

  function TakeManagerSnapshot(m: Manager): ManagerSnapshot {
    ManagerSnapshot(SnapshotAccounts(m.accounts), SnapshotInvokers(m.invokers))
  }

  function PushFrame(m: Manager, f: StackFrame): Manager {
    Manager(PushAccounts(m.accounts), PushInvokers(m.invokers), m.callStack + [f])
  }

  function RollbackInvoker(i: Invoker, s: Snapshot): Option<Invoker> {
    match Rollback(i.tracker, s) case None => None case Some(t) => Some(i.(tracker := t))
  }

  function RollbackAccounts(s: seq<Account>, snaps: seq<AccountSnapshot>): Option<seq<Account>>
    requires |s| == |snaps|
  {
    if exists i :: 0 <= i < |s| && RollbackAccount(s[i], snaps[i]).None? then None
    else Some(seq(|s|, i requires 0 <= i < |s| && RollbackAccount(s[i], snaps[i]).Some? =>
      RollbackAccount(s[i], snaps[i]).value))
  }

  function RollbackInvokers(s: seq<Invoker>, snaps: seq<Snapshot>): Option<seq<Invoker>>
    requires |s| == |snaps|
  {
    if exists i :: 0 <= i < |s| && RollbackInvoker(s[i], snaps[i]).None? then None
    else Some(seq(|s|, i requires 0 <= i < |s| && RollbackInvoker(s[i], snaps[i]).Some? =>
      RollbackInvoker(s[i], snaps[i]).value))
  }

  /** `None` is the internal error for a snapshot that does not fit. */
  function RollbackManager(m: Manager, snap: ManagerSnapshot): Option<Manager> {
    if |m.accounts| != |snap.accounts| || |m.invokers| != |snap.invokers| then None
    else match (RollbackAccounts(m.accounts, snap.accounts), RollbackInvokers(m.invokers, snap.invokers))
      case (Some(accounts), Some(invokers)) => Some(Manager(accounts, invokers, m.callStack))
      case _ => None
  }

  /** Invoker trackers whose frame is gone are removed, from the end, up to the first one still in scope. */
  function DropOutOfScope(s: seq<Invoker>): seq<Invoker> {
    if s != [] && s[|s| - 1].tracker.stack == [] then DropOutOfScope(s[..|s| - 1]) else s
  }

  function PopFrame(m: Manager, snap: Option<ManagerSnapshot>): Option<Manager> {
    match (if snap.None? then Some(m) else RollbackManager(m, snap.value))
    case None => None
    case Some(b) =>
      if b.callStack == [] then Some(b)
      else Some(Manager(
        PopAccounts(b.accounts), DropOutOfScope(PopInvokers(b.invokers)), b.callStack[..|b.callStack| - 1]))
  }

  lemma PopAfterRollback(m: Manager, snap: ManagerSnapshot)
    requires RollbackManager(m, snap).Some?
    ensures PopFrame(m, Some(snap)) == PopFrame(RollbackManager(m, snap).value, None)
  {
  }

  // ---------- require_auth ----------

  /** Every entry must decode; a malformed one fails the call after the earlier ones were added. */
  function AuthorizeAsCurrent(m: Manager, entries: seq<Option<Pattern>>): (r: Outcome)
    ensures !r.Internal? && r.m.accounts == m.accounts && r.m.callStack == m.callStack
    decreases |entries|
  {
    if entries == [] then Done(m)
    else if m.callStack == [] || !m.callStack[|m.callStack| - 1].ContractFrame? then Denied(m)
    else match entries[0]
      case None => Denied(m)
      case Some(p) =>
        var invoker := Invoker(m.callStack[|m.callStack| - 1].contract, NewTracker(p));
        AuthorizeAsCurrent(m.(invokers := m.invokers + [invoker]), entries[1..])
  }

  datatype SearchResult = Absent | Found(index: nat, invoker: Invoker) | SearchFault

  function SearchInvokers(s: seq<Invoker>, address: Address, f: AuthorizedFunction, from: nat): SearchResult
    requires from <= |s|
    decreases |s| - from
  {
    if from == |s| then Absent
    else if s[from].contract != address then SearchInvokers(s, address, f, from + 1)
    else match Extend(s[from].tracker, f, true)
      case InternalError => SearchFault
      case NoMatch => SearchInvokers(s, address, f, from + 1)
      case Matched(t) => Found(from, s[from].(tracker := t))
  }

  /** A tracker of the address that has begun matching and has not been used for the current frame. */
  predicate HasActive(s: seq<Account>, address: Address) {
    exists i :: 0 <= i < |s| && s[i].address == address && IsActive(s[i].tracker) && !CurrentFrameMatched(s[i].tracker)
  }

  datatype AccountSearch =
    | NoAccount
    | Granting(index: nat, account: Account)
    | Refusing(index: nat, account: Account)
    | AccountFault

  function SearchAccounts(
    s: seq<Account>, address: Address, f: AuthorizedFunction, allowRoot: bool, authentic: bool, from: nat)
    : AccountSearch
    requires from <= |s|
    decreases |s| - from
  {
    if from == |s| then NoAccount
    else if s[from].address != address then SearchAccounts(s, address, f, allowRoot, authentic, from + 1)
    else match Authorize(s[from], f, allowRoot, authentic)
      case Fault => AccountFault
      case NotFound => SearchAccounts(s, address, f, allowRoot, authentic, from + 1)
      case Granted(a) => Granting(from, a)
      case Refused(a) => Refusing(from, a)
  }

  lemma {:induction false} FoundInvoker(s: seq<Invoker>, address: Address, f: AuthorizedFunction, from: nat)
    requires from <= |s|
    ensures
      var r := SearchInvokers(s, address, f, from);
      r.Found? ==>
        && from <= r.index < |s|
        && s[r.index].contract == address
        && r.invoker.contract == address
        && Extend(s[r.index].tracker, f, true) == Matched(r.invoker.tracker)
    decreases |s| - from
  {
    if from < |s| { FoundInvoker(s, address, f, from + 1); }
  }

  lemma {:induction false} FoundAccount(
    s: seq<Account>, address: Address, f: AuthorizedFunction, allowRoot: bool, authentic: bool, from: nat)
    requires from <= |s|
    ensures
      var r := SearchAccounts(s, address, f, allowRoot, authentic, from);
      (r.Granting? || r.Refusing?) ==>
        && from <= r.index < |s|
        && s[r.index].address == address
        && Authorize(s[r.index], f, allowRoot, authentic) ==
            (if r.Granting? then Granted(r.account) else Refused(r.account))
    decreases |s| - from
  {
    if from < |s| { FoundAccount(s, address, f, allowRoot, authentic, from + 1); }
  }

  /** The function the current frame asks authorization for. */
  function CurrentFunction(m: Manager, args: seq<Val>): AuthorizedFunction
    requires m.callStack != []
  {
    match m.callStack[|m.callStack| - 1]
    case ContractFrame(c, name) => ContractFn(c, name, args)
    case CreateContractFrame(preimage) => CreateContractHostFn(preimage)
  }

  /** A contract authorizes the calls it makes itself. */
  predicate DirectInvoker(m: Manager, address: Address) {
    |m.callStack| >= 2 && m.callStack[|m.callStack| - 2].ContractFrame?
    && m.callStack[|m.callStack| - 2].contract == address
  }

  function RequireAuth(m: Manager, address: Address, args: seq<Val>, authentic: bool): Outcome {
    if m.callStack == [] then Internal
    else
      var f := CurrentFunction(m, args);
      if DirectInvoker(m, address) then Done(m)
      else
        match (if |m.callStack| < 2 then Absent else SearchInvokers(m.invokers, address, f, 0))
        case SearchFault => Internal
        case Found(i, invoker) =>
          FoundInvoker(m.invokers, address, f, 0);
          Done(m.(invokers := m.invokers[i := invoker]))
        case Absent => RequireFromAccounts(m, address, f, authentic)
  }

  /** A root may be matched only when no other tracker of the address is active. */
  function RequireFromAccounts(m: Manager, address: Address, f: AuthorizedFunction, authentic: bool): Outcome {
    var allowRoot := !HasActive(m.accounts, address);
    FoundAccount(m.accounts, address, f, allowRoot, authentic, 0);
    match SearchAccounts(m.accounts, address, f, allowRoot, authentic, 0)
    case NoAccount => Denied(m)
    case AccountFault => Internal
    case Granting(i, a) => Done(m.(accounts := m.accounts[i := a]))
    case Refusing(i, a) => Denied(m.(accounts := m.accounts[i := a]))
  }

  // ---------- runs ----------

  datatype Action =
    | Require(address: Address, args: seq<Val>, authentic: bool)
    | Delegate(entries: seq<Option<Pattern>>)
    | Call(contract: Address, name: Symbol, body: seq<Action>, traps: bool, caught: bool)
    | Create(preimage: Val, inner: seq<Action>)

  /**
    * A call snapshots after pushing its frame and rolls back when its body fails; its caller may catch that. Creating
    * a contract pushes a frame without a snapshot and passes an error on.
    */
  function Step(m: Manager, a: Action): Outcome
    decreases a, 1
  {
    match a
    case Require(address, args, authentic) => RequireAuth(m, address, args, authentic)
    case Delegate(entries) => AuthorizeAsCurrent(m, entries)
    case Call(contract, name, body, traps, caught) =>
      var entered := PushFrame(m, ContractFrame(contract, name));
      (match Exec(entered, body)
       case Internal => Internal
       case Done(b) =>
         if traps then Failed(b, TakeManagerSnapshot(entered), caught)
         else Committed(b)
       case Denied(b) => Failed(b, TakeManagerSnapshot(entered), caught))
    case Create(preimage, inner) =>
      match Exec(PushFrame(m, CreateContractFrame(preimage)), inner)
      case Internal => Internal
      case Done(b) => Committed(b)
      case Denied(b) => (match PopFrame(b, None) case None => Internal case Some(c) => Denied(c))
  }

  function Committed(b: Manager): Outcome {
    match PopFrame(b, None) case None => Internal case Some(c) => Done(c)
  }

  function Failed(b: Manager, snap: ManagerSnapshot, caught: bool): Outcome {
    match PopFrame(b, Some(snap))
    case None => Internal
    case Some(c) => if caught then Done(c) else Denied(c)
  }

  function Exec(m: Manager, body: seq<Action>): Outcome
    decreases body, 0
  {
    if body == [] then Done(m)
    else match Step(m, body[0])
      case Done(b) => Exec(b, body[1..])
      case e => e
  }
}
