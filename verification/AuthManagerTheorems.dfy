/** Consequences for whole runs: tracker counts, the exact causes of an abort, and the link to single trackers. */
module AuthManagerTheorems {
  import opened Common
  import opened AuthTree
  import opened AuthTracker
  import opened AuthAccount
  import opened AuthRuns
  import opened AuthManager
  import opened AuthManagerRuns

  // ---------- how many invoker trackers a frame holds ----------

  /** The entries that decode before the first malformed one. */
  function Decoded(entries: seq<Option<Pattern>>): nat {
    if entries == [] || entries[0].None? then 0 else 1 + Decoded(entries[1..])
  }

  function CreatedAfter(a: Action, n: nat): nat {
    match a
    case Require(_, _, _) => n
    case Delegate(entries) => n + Decoded(entries)
    case _ => 0
  }

  /** Trackers created since the last call returned, when `n` were there before these actions. */
  function CreatedSinceCall(actions: seq<Action>, n: nat): nat {
    if actions == [] then n else CreatedSinceCall(actions[1..], CreatedAfter(actions[0], n))
  }

  /** The actions of a body that were executed, the failing one included. */
  function Executed(m: Manager, body: seq<Action>): seq<Action>
    decreases |body|
  {
    if body == [] then []
    else match Step(m, body[0])
      case Done(b) => [body[0]] + Executed(b, body[1..])
      case _ => [body[0]]
  }

  lemma {:induction false} DelegateCounts(m: Manager, entries: seq<Option<Pattern>>)
    requires ManagerInv(m) && m.callStack != [] && m.callStack[|m.callStack| - 1].ContractFrame?
    ensures Pending(AuthorizeAsCurrent(m, entries).m) == Pending(m) + Decoded(entries)
    decreases |entries|
  {
    if entries != [] && entries[0].Some? {
      CreatedSound(m, entries[0].value);
      DelegateCounts(Created(m, entries[0].value), entries[1..]);
    }
  }

  lemma {:induction false} StepCounts(m: Manager, a: Action)
    requires ManagerInv(m) && m.callStack != [] && m.callStack[|m.callStack| - 1].ContractFrame?
    requires !Step(m, a).Internal?
    ensures Pending(Step(m, a).m) == CreatedAfter(a, Pending(m))
  {
    match a
    case Require(address, args, authentic) => RequireSound(m, address, args, authentic);
    case Delegate(entries) => DelegateCounts(m, entries);
    case _ => StepSound(m, a);
  }

  lemma CreatedOne(a: Action, rest: seq<Action>, n: nat)
    ensures CreatedSinceCall([a] + rest, n) == CreatedSinceCall(rest, CreatedAfter(a, n))
  {
    assert ([a] + rest)[1..] == rest;
  }

  /** Inside a contract's frame, the pending trackers are those created since its last call returned. */
  lemma {:induction false} PendingCounts(m: Manager, body: seq<Action>)
    requires ManagerInv(m) && m.callStack != [] && m.callStack[|m.callStack| - 1].ContractFrame?
    requires !Exec(m, body).Internal?
    ensures Pending(Exec(m, body).m) == CreatedSinceCall(Executed(m, body), Pending(m))
    decreases |body|
  {
    if body != [] {
      var r := Step(m, body[0]);
      StepCounts(m, body[0]);
      if r.Done? {
        assert ManagerInv(r.m) && r.m.callStack == m.callStack by { StepSound(m, body[0]); }
        PendingCounts(r.m, body[1..]);
        CreatedOne(body[0], Executed(r.m, body[1..]), Pending(m));
      } else {
        CreatedOne(body[0], [], Pending(m));
        assert [body[0]] + [] == [body[0]];
      }
    }
  }

  lemma ExecKeepsScope(m: Manager, body: seq<Action>)
    requires ManagerInv(m) && !Exec(m, body).Internal?
    ensures InScope(Exec(m, body).m) == InScope(m)
  {
    ExecSound(m, body);
    InsideKeepsScope(m, Exec(m, body).m);
  }

  lemma {:induction false} CountAtPop(m: Manager, f: StackFrame, body: seq<Action>)
    requires ManagerInv(m) && f.ContractFrame? && !Exec(PushFrame(m, f), body).Internal?
    ensures var e, b := PushFrame(m, f), Exec(PushFrame(m, f), body).m;
      && |e.invokers| == |m.invokers|
      && Pending(b) == CreatedSinceCall(Executed(e, body), 0)
      && |b.invokers| == |m.invokers| + Pending(b)
  {
    var e := PushFrame(m, f);
    EnterManager(m, f);
    ExecKeepsScope(e, body);
    PendingCounts(e, body);
  }

  /**
    * When a call's frame is popped, the invoker trackers are those of its snapshot plus those created in it since its
    * last call returned; so a failing call aborts the run exactly when that number is positive, and otherwise leaves
    * the manager as it was, without the trackers its caller had prepared for it.
    */
  lemma {:induction false} FailingCall(m: Manager, a: Action)
    requires ManagerInv(m) && a.Call? && BodyFails(m, a)
    ensures
      var entered := PushFrame(m, ContractFrame(a.contract, a.name));
      var created := CreatedSinceCall(Executed(entered, a.body), 0);
      && |Exec(entered, a.body).m.invokers| == |TakeManagerSnapshot(entered).invokers| + created
      && (Step(m, a).Internal? <==> created > 0)
      && (created == 0 ==> Step(m, a).m == m.(invokers := DropOutOfScope(m.invokers)))
  {
    CountAtPop(m, ContractFrame(a.contract, a.name), a.body);
    StepSound(m, a);
  }

  /**
    * Depths never increase along the vector, and once a call has returned what is left are exactly the trackers that
    * were in scope before it, in order.
    */
  lemma {:induction false} InvokersFormAStack(m: Manager, a: Action)
    requires ManagerInv(m) && !Step(m, a).Internal?
    ensures var s := Step(m, a).m.invokers;
      && (forall i, j :: 0 <= i < j < |s| ==> Depth(s[i]) >= Depth(s[j]))
      && (a.Call? || a.Create? ==>
            && |s| <= |m.invokers|
            && (forall i :: 0 <= i < |s| ==>
                  && s[i].contract == m.invokers[i].contract
                  && Depth(s[i]) == Depth(m.invokers[i]) > 0
                  && Erase(s[i].tracker.root) == Erase(m.invokers[i].tracker.root))
            && (forall i :: |s| <= i < |m.invokers| ==> Depth(m.invokers[i]) == 0))
  {
    StepSound(m, a);
    if a.Call? || a.Create? {
      DropIsExact(Step(m, a).m.invokers);
      DropIsExact(m.invokers);
      InsideKeepsScope(m, Step(m, a).m);
    }
  }

  // ---------- when require_auth aborts ----------

  /** A tracker the current contract has just created, whose root is the very invocation being authorized. */
  predicate SelfDelegated(i: Invoker, address: Address, f: AuthorizedFunction) {
    i.contract == address && i.tracker.stack == [] && Usable(i.tracker.root, f)
  }

  lemma {:induction false} SearchFaultIff(
    s: seq<Invoker>, callStack: seq<StackFrame>, address: Address, f: AuthorizedFunction, from: nat)
    requires InvokersInv(s, callStack) && from <= |s|
    ensures SearchInvokers(s, address, f, from).SearchFault? <==>
              exists i :: from <= i < |s| && SelfDelegated(s[i], address, f)
                && forall j :: from <= j < i && s[j].contract == address ==> Extend(s[j].tracker, f, true).NoMatch?
    decreases |s| - from
  {
    if from < |s| {
      ExtendErrorIff(s[from].tracker, f, true);
      SearchFaultIff(s, callStack, address, f, from + 1);
      if s[from].contract == address && !Extend(s[from].tracker, f, true).NoMatch? {
        if SelfDelegated(s[from], address, f) {
          assert SearchInvokers(s, address, f, from).SearchFault?;
        }
      } else if SearchInvokers(s, address, f, from + 1).SearchFault? {
        var i :| from + 1 <= i < |s| && SelfDelegated(s[i], address, f)
          && forall j :: from + 1 <= j < i && s[j].contract == address ==> Extend(s[j].tracker, f, true).NoMatch?;
        assert forall j :: from <= j < i && s[j].contract == address ==> Extend(s[j].tracker, f, true).NoMatch?;
      }
    }
  }

  /**
    * `require_auth` aborts only outside every frame, or when a contract that is not called by itself asks for its own
    * authorization right after delegating that same invocation.
    */
  lemma {:induction false} RequireAbortsIff(m: Manager, address: Address, args: seq<Val>, authentic: bool)
    requires ManagerInv(m)
    ensures RequireAuth(m, address, args, authentic).Internal? <==>
              || m.callStack == []
              || (|m.callStack| >= 2 && !DirectInvoker(m, address)
                  && var f, s := CurrentFunction(m, args), m.invokers;
                     exists i :: 0 <= i < |s| && SelfDelegated(s[i], address, f)
                       && forall j :: 0 <= j < i && s[j].contract == address ==> Extend(s[j].tracker, f, true).NoMatch?)
  {
    if m.callStack != [] {
      var f := CurrentFunction(m, args);
      SearchFaultIff(m.invokers, m.callStack, address, f, 0);
      NoAccountFault(m, address, f, !HasActive(m.accounts, address), authentic, 0);
    }
  }

  predicate DelegateFree(body: seq<Action>) {
    forall i :: 0 <= i < |body| ==>
      match body[i]
      case Delegate(_) => false
      case Call(_, _, inner, _, _) => DelegateFree(inner)
      case Create(_, inner) => DelegateFree(inner)
      case Require(_, _, _) => true
  }

  lemma {:induction false} RequireNeverAborts(m: Manager, address: Address, args: seq<Val>, authentic: bool)
    requires ManagerInv(m) && Pending(m) == 0 && m.callStack != []
    ensures var r := RequireAuth(m, address, args, authentic); !r.Internal? && Pending(r.m) == 0
  {
    RequireAbortsIff(m, address, args, authentic);
    DropIsExact(m.invokers);
    RequireSound(m, address, args, authentic);
  }

  /** A run in which no contract delegates never aborts: every failing call just leaves no trace. */
  lemma {:induction false} StepNeverAborts(m: Manager, a: Action)
    requires ManagerInv(m) && Pending(m) == 0 && DelegateFree([a]) && (a.Require? ==> m.callStack != [])
    ensures !Step(m, a).Internal? && Pending(Step(m, a).m) == 0
    decreases a, 1
  {
    assert DelegateFree([a]) && [a][0] == a;
    if !a.Require? { StepSound(m, a); }
    match a
    case Require(address, args, authentic) => RequireNeverAborts(m, address, args, authentic);
    case Call(contract, name, body, traps, caught) =>
      EnterManager(m, ContractFrame(contract, name));
      NeverAborts(PushFrame(m, ContractFrame(contract, name)), body);
    case Create(preimage, inner) =>
      EnterManager(m, CreateContractFrame(preimage));
      NeverAborts(PushFrame(m, CreateContractFrame(preimage)), inner);
    case Delegate(_) =>
  }

  lemma {:induction false} NeverAborts(m: Manager, body: seq<Action>)
    requires ManagerInv(m) && Pending(m) == 0 && DelegateFree(body)
    requires m.callStack != [] || forall i :: 0 <= i < |body| ==> !body[i].Require?
    ensures !Exec(m, body).Internal? && Pending(Exec(m, body).m) == 0
    decreases body, 0
  {
    if body != [] {
      assert DelegateFree([body[0]]);
      StepNeverAborts(m, body[0]);
      StepSound(m, body[0]);
      if Step(m, body[0]).Done? { NeverAborts(Step(m, body[0]).m, body[1..]); }
    }
  }

  // ---------- the transaction as a whole ----------

  /** The top-level host function: it takes a snapshot but pushes no frame. */
  function Transaction(m: Manager, body: seq<Action>): Outcome {
    match Exec(m, body)
    case Internal => Internal
    case Done(b) => (match PopFrame(b, None) case None => Internal case Some(c) => Done(c))
    case Denied(b) => (match PopFrame(b, Some(TakeManagerSnapshot(m))) case None => Internal case Some(c) => Denied(c))
  }

  lemma {:induction false} RollbackOutsideFrames(t: Tracker, u: Tracker)
    requires Inv(t) && Inv(u) && t.stack == [] && Inside(t, u)
    ensures Rollback(u, TakeSnapshot(t.root)) == Some(t)
  {
    RestoreExact(t.root, u.root);
    UnusedCannotMatch(t);
    UnusedCannotMatch(u);
  }

  lemma InvokersNeedFrames(s: seq<Invoker>, callStack: seq<StackFrame>)
    requires InvokersInv(s, callStack)
    ensures s != [] ==> callStack != []
  {
    if s != [] { assert Depth(s[0]) < |callStack|; }
  }

  /** A transaction that fails without aborting leaves the manager untouched. */
  lemma {:induction false} FailedTransactionLeavesNoTrace(m: Manager, body: seq<Action>)
    requires ManagerInv(m) && m.callStack == []
    ensures Exec(m, body).Denied? ==> Transaction(m, body) == Denied(m)
    ensures Exec(m, body).Done? ==> Transaction(m, body) == Exec(m, body)
  {
    ExecSound(m, body);
    if Exec(m, body).Denied? {
      var b := Exec(m, body).m;
      InvokersNeedFrames(m.invokers, m.callStack);
      InvokersNeedFrames(b.invokers, b.callStack);
      forall i | 0 <= i < |m.accounts|
        ensures RollbackAccount(b.accounts[i], SnapshotAccount(m.accounts[i])) == Some(m.accounts[i])
      {
        RollbackOutsideFrames(m.accounts[i].tracker, b.accounts[i].tracker);
      }
      assert RollbackAccounts(b.accounts, SnapshotAccounts(m.accounts)).value == m.accounts;
    }
  }

  // ---------- each account sees a run of its own tracker ----------

  /** What one action of the manager means for the account at `i`. */
  function ProjectStep(m: Manager, a: Action, i: nat): seq<Act>
    decreases a, 1
  {
    match a
    case Require(address, args, authentic) => ProjectRequire(m, address, args, authentic, i)
    case Delegate(_) => []
    case Call(contract, name, body, _, _) =>
      [Frame(ProjectBody(PushFrame(m, ContractFrame(contract, name)), body, i), !BodyFails(m, a))]
    case Create(preimage, inner) => [Frame(ProjectBody(PushFrame(m, CreateContractFrame(preimage)), inner, i), true)]
  }

  function ProjectRequire(m: Manager, address: Address, args: seq<Val>, authentic: bool, i: nat): (acts: seq<Act>)
    ensures acts != [] ==> m.callStack != []
  {
    if m.callStack == [] || DirectInvoker(m, address) then []
    else
      var f := CurrentFunction(m, args);
      if |m.callStack| >= 2 && !SearchInvokers(m.invokers, address, f, 0).Absent? then []
      else
        var allowRoot := !HasActive(m.accounts, address);
        var r := SearchAccounts(m.accounts, address, f, allowRoot, authentic, 0);
        if (r.Granting? || r.Refusing?) && r.index == i then [Try(f, allowRoot, authentic)] else []
  }

  function ProjectBody(m: Manager, body: seq<Action>, i: nat): seq<Act>
    decreases body, 0
  {
    if body == [] then []
    else ProjectStep(m, body[0], i) +
         match Step(m, body[0]) case Done(b) => ProjectBody(b, body[1..], i) case _ => []
  }

  /** The functions matched for the account at `i`, less those a rollback undid. */
  function MatchedInStep(m: Manager, a: Action, i: nat): seq<AuthorizedFunction>
    decreases a, 1
  {
    match a
    case Require(address, args, authentic) =>
      var acts := ProjectRequire(m, address, args, authentic, i);
      if acts == [] then [] else [CurrentFunction(m, args)]
    case Delegate(_) => []
    case Call(contract, name, body, _, _) =>
      if BodyFails(m, a) then [] else MatchedInBody(PushFrame(m, ContractFrame(contract, name)), body, i)
    case Create(preimage, inner) => MatchedInBody(PushFrame(m, CreateContractFrame(preimage)), inner, i)
  }

  function MatchedInBody(m: Manager, body: seq<Action>, i: nat): seq<AuthorizedFunction>
    decreases body, 0
  {
    if body == [] then []
    else MatchedInStep(m, body[0], i) +
         match Step(m, body[0]) case Done(b) => MatchedInBody(b, body[1..], i) case _ => []
  }

  function Functions(matches: seq<Match>): seq<AuthorizedFunction> {
    seq(|matches|, k requires 0 <= k < |matches| => matches[k].fn)
  }

  lemma {:induction false} RunConcat(a: Audited, first: seq<Act>, second: seq<Act>)
    requires Run(a, first).Some?
    ensures Run(a, first + second) == Run(Run(a, first).value, second)
    decreases |first|
  {
    if first == [] {
      assert first + second == second;
    } else {
      assert (first + second)[1..] == first[1..] + second;
      RunConcat(RunAct(a, first[0]).value, first[1..], second);
    }
  }

  /** `a` is the audited history of the account at `i`. */
  ghost predicate Audits(a: Audited, m: Manager, i: nat) {
    ManagerInv(m) && i < |m.accounts| && AuditInv(a) && a.account == m.accounts[i]
  }

  /** Running `acts` takes `a` to the account at `i` in `accounts`, matching `matched` on the way. */
  ghost predicate Simulates(
    a: Audited, acts: seq<Act>, accounts: seq<Account>, i: nat, matched: seq<AuthorizedFunction>)
  {
    && Runnable(a, acts) && Run(a, acts).Some?
    && i < |accounts| && Run(a, acts).value.account == accounts[i]
    && Functions(Run(a, acts).value.matches) == Functions(a.matches) + matched
  }

  lemma {:induction false} SimulatesThen(
    a: Audited, first: seq<Act>, mid: seq<Account>, g: seq<AuthorizedFunction>,
    second: seq<Act>, end: seq<Account>, h: seq<AuthorizedFunction>, i: nat)
    requires AuditInv(a)
    requires Simulates(a, first, mid, i, g) && Simulates(Run(a, first).value, second, end, i, h)
    ensures Simulates(a, first + second, end, i, g + h)
  {
    RunSound(a, first);
    RunConcat(a, first, second);
    assert Functions(a.matches) + g + h == Functions(a.matches) + (g + h);
  }

  lemma NothingRuns(a: Audited, accounts: seq<Account>, i: nat)
    requires i < |accounts| && a.account == accounts[i]
    ensures Simulates(a, [], accounts, i, [])
  {
    assert Functions(a.matches) + [] == Functions(a.matches);
  }

  lemma {:induction false} OneTryRuns(
    a: Audited, f: AuthorizedFunction, allowRoot: bool, authentic: bool, b: Account, accounts: seq<Account>, i: nat)
    requires AuditInv(a) && a.account.tracker.stack != []
    requires i < |accounts| && b == accounts[i]
    requires Authorize(a.account, f, allowRoot, authentic) in {Granted(b), Refused(b)}
    ensures Simulates(a, [Try(f, allowRoot, authentic)], accounts, i, [f])
  {
    var acts := [Try(f, allowRoot, authentic)];
    assert acts[1..] == [];
    assert Run(a, acts) == Some(Recorded(a, b, f));
    assert Functions(Recorded(a, b, f).matches) == Functions(a.matches) + [f];
  }

  lemma {:induction false} ProjectAccountsRuns(
    m: Manager, address: Address, f: AuthorizedFunction, authentic: bool, i: nat, a: Audited)
    requires Audits(a, m, i) && m.callStack != [] && !RequireFromAccounts(m, address, f, authentic).Internal?
    ensures var allowRoot := !HasActive(m.accounts, address);
      var r := SearchAccounts(m.accounts, address, f, allowRoot, authentic, 0);
      var accounts := RequireFromAccounts(m, address, f, authentic).m.accounts;
      if (r.Granting? || r.Refusing?) && r.index == i then
        Simulates(a, [Try(f, allowRoot, authentic)], accounts, i, [f])
      else Simulates(a, [], accounts, i, [])
  {
    var allowRoot := !HasActive(m.accounts, address);
    FoundAccount(m.accounts, address, f, allowRoot, authentic, 0);
    var r := SearchAccounts(m.accounts, address, f, allowRoot, authentic, 0);
    var accounts := RequireFromAccounts(m, address, f, authentic).m.accounts;
    if (r.Granting? || r.Refusing?) && r.index == i {
      OneTryRuns(a, f, allowRoot, authentic, r.account, accounts, i);
    } else {
      NothingRuns(a, accounts, i);
    }
  }

  lemma {:induction false} ProjectRequireRuns(
    m: Manager, address: Address, args: seq<Val>, authentic: bool, i: nat, a: Audited)
    requires Audits(a, m, i) && !RequireAuth(m, address, args, authentic).Internal?
    ensures Simulates(a, ProjectRequire(m, address, args, authentic, i),
                      RequireAuth(m, address, args, authentic).m.accounts, i,
                      MatchedInStep(m, Require(address, args, authentic), i))
  {
    var f := CurrentFunction(m, args);
    if DirectInvoker(m, address) || (|m.callStack| >= 2 && !SearchInvokers(m.invokers, address, f, 0).Absent?) {
      NothingRuns(a, m.accounts, i);
    } else {
      ProjectAccountsRuns(m, address, f, authentic, i, a);
    }
  }

  lemma {:induction false} ProjectFrameRuns(
    a: Audited, inner: seq<Act>, accounts: seq<Account>, i: nat, matched: seq<AuthorizedFunction>, commit: bool)
    requires AuditInv(a) && Simulates(Enter(a), inner, accounts, i, matched)
    ensures commit ==> Simulates(a, [Frame(inner, true)], PopAccounts(accounts), i, matched)
    ensures !commit ==> Run(a, [Frame(inner, false)]) == Some(a)
  {
    var acts := [Frame(inner, commit)];
    assert acts[1..] == [];
    RunActSound(a, acts[0]);
    assert Run(a, acts) == RunAct(a, acts[0]);
  }

  lemma {:induction false} CommittedAccounts(m: Manager, f: StackFrame, body: seq<Action>)
    requires ManagerInv(m) && !Exec(PushFrame(m, f), body).Internal?
    ensures var b := Exec(PushFrame(m, f), body).m;
      Committed(b).Done? && Committed(b).m.accounts == PopAccounts(b.accounts)
  {
    EnterManager(m, f);
    ExecSound(PushFrame(m, f), body);
    assert Exec(PushFrame(m, f), body).m.callStack == m.callStack + [f];
  }

  lemma {:induction false} AccountsAfterCall(m: Manager, a: Action)
    requires ManagerInv(m) && a.Call? && !Step(m, a).Internal?
    ensures Step(m, a).m.accounts ==
      if BodyFails(m, a) then m.accounts
      else PopAccounts(Exec(PushFrame(m, ContractFrame(a.contract, a.name)), a.body).m.accounts)
  {
    if BodyFails(m, a) {
      StepSound(m, a);
    } else {
      CommittedAccounts(m, ContractFrame(a.contract, a.name), a.body);
    }
  }

  lemma {:induction false} AccountsAfterCreate(m: Manager, a: Action)
    requires ManagerInv(m) && a.Create? && !Step(m, a).Internal?
    ensures Step(m, a).m.accounts ==
      PopAccounts(Exec(PushFrame(m, CreateContractFrame(a.preimage)), a.inner).m.accounts)
  {
    CommittedAccounts(m, CreateContractFrame(a.preimage), a.inner);
  }

  /** Whatever the manager does, each of its accounts goes through a run of its own tracker. */
  lemma {:induction false} ProjectStepRuns(m: Manager, act: Action, i: nat, a: Audited)
    requires Audits(a, m, i) && !Step(m, act).Internal?
    ensures Simulates(a, ProjectStep(m, act, i), Step(m, act).m.accounts, i, MatchedInStep(m, act, i))
    decreases act, 1
  {
    match act
    case Require(address, args, authentic) => ProjectRequireRuns(m, address, args, authentic, i, a);
    case Delegate(entries) => NothingRuns(a, m.accounts, i);
    case Call(contract, name, body, traps, caught) =>
      AccountsAfterCall(m, act);
      ProjectInnerRuns(m, ContractFrame(contract, name), body, i, a, !BodyFails(m, act));
    case Create(preimage, inner) =>
      AccountsAfterCreate(m, act);
      ProjectInnerRuns(m, CreateContractFrame(preimage), inner, i, a, true);
  }

  lemma {:induction false} ProjectInnerRuns(
    m: Manager, f: StackFrame, body: seq<Action>, i: nat, a: Audited, commit: bool)
    requires Audits(a, m, i) && !Exec(PushFrame(m, f), body).Internal?
    ensures var acts, r := [Frame(ProjectBody(PushFrame(m, f), body, i), commit)], Exec(PushFrame(m, f), body);
      if commit then Simulates(a, acts, PopAccounts(r.m.accounts), i, MatchedInBody(PushFrame(m, f), body, i))
      else Simulates(a, acts, m.accounts, i, [])
    decreases body, 1
  {
    var e := PushFrame(m, f);
    EnterManager(m, f);
    EnterInv(a);
    ProjectBodyRuns(e, body, i, Enter(a));
    ProjectFrameRuns(a, ProjectBody(e, body, i), Exec(e, body).m.accounts, i, MatchedInBody(e, body, i), commit);
  }

  lemma {:induction false} ProjectBodyRuns(m: Manager, body: seq<Action>, i: nat, a: Audited)
    requires Audits(a, m, i) && !Exec(m, body).Internal?
    ensures Simulates(a, ProjectBody(m, body, i), Exec(m, body).m.accounts, i, MatchedInBody(m, body, i))
    decreases body, 0
  {
    if body == [] {
      assert Functions(a.matches) + [] == Functions(a.matches);
    } else {
      var first, g, r := ProjectStep(m, body[0], i), MatchedInStep(m, body[0], i), Step(m, body[0]);
      ProjectStepRuns(m, body[0], i, a);
      if r.Done? {
        assert Audits(Run(a, first).value, r.m, i) by {
          StepSound(m, body[0]);
          RunSound(a, first);
        }
        ProjectBodyRuns(r.m, body[1..], i, Run(a, first).value);
        SimulatesThen(a, first, r.m.accounts, g, ProjectBody(r.m, body[1..], i), Exec(m, body).m.accounts,
                      MatchedInBody(r.m, body[1..], i), i);
      } else {
        assert ProjectBody(m, body, i) == first && MatchedInBody(m, body, i) == g;
      }
    }
  }

  function NewManager(entries: seq<(Address, Pattern)>): Manager {
    Manager(seq(|entries|, i requires 0 <= i < |entries| => Fresh(entries[i].0, entries[i].1).account), [], [])
  }

  /** The used nodes of a tree are one distinct node for each of the given functions, in some order. */
  ghost predicate UsedExactlyFor(root: Invocation, matched: seq<AuthorizedFunction>, paths: seq<Path>) {
    && |paths| == |matched| == CountExhausted(root)
    && (forall k :: 0 <= k < |paths| ==> IsExhausted(root, paths[k]) && At(root, paths[k]).fn == matched[k])
    && (forall j, k :: 0 <= j < k < |paths| ==> paths[j] != paths[k])
    && (forall p :: IsExhausted(root, p) ==> p in paths)
  }

  /** The functions the account at `i` granted authorization for, less those a rollback undid. */
  function GrantedInStep(m: Manager, a: Action, i: nat): seq<AuthorizedFunction>
    decreases a, 1
  {
    match a
    case Require(address, args, authentic) =>
      if ProjectRequire(m, address, args, authentic, i) != [] && RequireAuth(m, address, args, authentic).Done? then
        [CurrentFunction(m, args)]
      else []
    case Delegate(_) => []
    case Call(contract, name, body, _, _) =>
      if BodyFails(m, a) then [] else GrantedInBody(PushFrame(m, ContractFrame(contract, name)), body, i)
    case Create(preimage, inner) => GrantedInBody(PushFrame(m, CreateContractFrame(preimage)), inner, i)
  }

  function GrantedInBody(m: Manager, body: seq<Action>, i: nat): seq<AuthorizedFunction>
    decreases body, 0
  {
    if body == [] then []
    else GrantedInStep(m, body[0], i) +
         match Step(m, body[0]) case Done(b) => GrantedInBody(b, body[1..], i) case _ => []
  }

  /** Where nothing has failed, every match is a grant. */
  lemma {:induction false} StepMatchesAreGrants(m: Manager, a: Action, i: nat)
    requires Step(m, a).Done?
    ensures MatchedInStep(m, a, i) == GrantedInStep(m, a, i)
    decreases a, 1
  {
    match a
    case Call(contract, name, body, _, _) =>
      if !BodyFails(m, a) { BodyMatchesAreGrants(PushFrame(m, ContractFrame(contract, name)), body, i); }
    case Create(preimage, inner) => BodyMatchesAreGrants(PushFrame(m, CreateContractFrame(preimage)), inner, i);
    case _ =>
  }

  lemma {:induction false} BodyMatchesAreGrants(m: Manager, body: seq<Action>, i: nat)
    requires Exec(m, body).Done?
    ensures MatchedInBody(m, body, i) == GrantedInBody(m, body, i)
    decreases body, 0
  {
    if body != [] {
      StepMatchesAreGrants(m, body[0], i);
      BodyMatchesAreGrants(Step(m, body[0]).m, body[1..], i);
    }
  }

  /** After any calls the used nodes of an entry are one distinct node for each match that no rollback undid. */
  lemma {:induction false} UsedNodesAreMatches(entries: seq<(Address, Pattern)>, body: seq<Action>, i: nat)
    requires i < |entries| && !Exec(NewManager(entries), body).Internal?
    ensures var m := NewManager(entries); var b := Exec(m, body).m;
      && i < |b.accounts| && Erase(b.accounts[i].tracker.root) == entries[i].1
      && exists paths :: UsedExactlyFor(b.accounts[i].tracker.root, MatchedInBody(m, body, i), paths)
  {
    var m, a := NewManager(entries), Fresh(entries[i].0, entries[i].1);
    NewManagerInv(entries);
    FreshInv(entries[i].0, entries[i].1);
    NewIsUnused(entries[i].1);
    ProjectBodyRuns(m, body, i, a);
    RunSound(a, ProjectBody(m, body, i));
    var matches := Run(a, ProjectBody(m, body, i)).value.matches;
    assert Functions(matches) == MatchedInBody(m, body, i);
    MatchesNameNodes(Exec(m, body).m.accounts[i].tracker.root, matches);
  }

  /**
    * No authorization entry of a transaction is used twice. After a transaction that succeeds, the used nodes of an
    * entry are one distinct node for each authorization it granted and no rollback undid; after one that fails, no
    * node is used and all is as before. Either way only flags differ from what was signed.
    */
  lemma {:induction false} TransactionUsesEachNodeOnce(entries: seq<(Address, Pattern)>, body: seq<Action>, i: nat)
    requires i < |entries| && !Transaction(NewManager(entries), body).Internal?
    ensures var m := NewManager(entries); var r := Transaction(m, body);
      && i < |r.m.accounts| && Erase(r.m.accounts[i].tracker.root) == entries[i].1
      && (r.Done? ==> exists paths :: UsedExactlyFor(r.m.accounts[i].tracker.root, GrantedInBody(m, body, i), paths))
      && (r.Denied? ==> r.m == m && CountExhausted(r.m.accounts[i].tracker.root) == 0)
  {
    var m := NewManager(entries);
    NewManagerInv(entries);
    FailedTransactionLeavesNoTrace(m, body);
    UsedNodesAreMatches(entries, body, i);
    NewIsUnused(entries[i].1);
    if Exec(m, body).Done? { BodyMatchesAreGrants(m, body, i); }
  }

  // ---------- the two aborts happen ----------

  lemma RunsOne(m: Manager, a: Action)
    ensures Exec(m, [a]) == Step(m, a)
  {
    assert [a][1..] == [];
  }

  lemma RunsTwo(m: Manager, a: Action, b: Action)
    requires Step(m, a).Done?
    ensures Exec(m, [a, b]) == Step(Step(m, a).m, b)
  {
    assert [a, b][1..] == [b];
    RunsOne(Step(m, a).m, b);
  }

  lemma {:induction false} DelegatesOne(m: Manager, p: Pattern)
    requires m.callStack != [] && m.callStack[|m.callStack| - 1].ContractFrame?
    ensures Step(m, Delegate([Some(p)])) == Done(Created(m, p))
  {
    var entries: seq<Option<Pattern>> := [Some(p)];
    assert entries[1..] == [];
    assert AuthorizeAsCurrent(Created(m, p), entries[1..]) == Done(Created(m, p));
  }

  /** A contract that delegates and then traps aborts the transaction, although its caller would catch the failure. */
  lemma {:induction false} DelegatingThenFailingAborts(
    entries: seq<(Address, Pattern)>, contract: Address, name: Symbol, p: Pattern)
    ensures var a := Call(contract, name, [Delegate([Some(p)])], true, true);
      a.caught && Transaction(NewManager(entries), [a]).Internal?
  {
    var m, f, d := NewManager(entries), ContractFrame(contract, name), Delegate([Some(p)]);
    var a := Call(contract, name, [d], true, true);
    NewManagerInv(entries);
    EnterManager(m, f);
    DelegatesOne(PushFrame(m, f), p);
    RunsOne(PushFrame(m, f), d);
    CreatedSound(PushFrame(m, f), p);
    FailSound(m, f, Created(PushFrame(m, f), p));
    assert Pending(Created(PushFrame(m, f), p)) > 0;
    RunsOne(m, a);
  }

  /** A contract that delegates its current invocation to itself and then asks for it aborts the transaction. */
  lemma {:induction false} SelfDelegationAborts(
    entries: seq<(Address, Pattern)>, caller: Address, contract: Address, name: Symbol, args: seq<Val>)
    requires caller != contract
    ensures var p := Pattern(ContractFn(contract, name, args), []);
      var inner := Call(contract, name, [Delegate([Some(p)]), Require(contract, args, true)], false, true);
      Transaction(NewManager(entries), [Call(caller, name, [inner], false, true)]).Internal?
  {
    var f := ContractFn(contract, name, args);
    var p := Pattern(f, []);
    var d, q := Delegate([Some(p)]), Require(contract, args, true);
    var inner := Call(contract, name, [d, q], false, true);
    var outer := Call(caller, name, [inner], false, true);
    var m := NewManager(entries);
    var m1 := PushFrame(m, ContractFrame(caller, name));
    var m2 := PushFrame(m1, ContractFrame(contract, name));
    DelegatesOne(m2, p);
    RunsTwo(m2, d, q);
    var m3 := Created(m2, p);
    assert m3.invokers == [Invoker(contract, NewTracker(p))] && |m3.callStack| == 2;
    assert CurrentFunction(m3, args) == f && !DirectInvoker(m3, contract);
    assert Extend(NewTracker(p), f, true).InternalError?;
    assert SearchInvokers(m3.invokers, contract, f, 0).SearchFault?;
    RunsOne(m1, inner);
    RunsOne(m, outer);
  }

  lemma {:induction false} NewManagerInv(entries: seq<(Address, Pattern)>)
    ensures ManagerInv(NewManager(entries))
  {
    forall j | 0 <= j < |entries| ensures Inv(NewManager(entries).accounts[j].tracker) { NewTrackerInv(entries[j].1); }
  }

  lemma {:induction false} MatchesNameNodes(root: Invocation, matches: seq<Match>)
    requires MatchesAreExhaustedNodes(root, matches)
    ensures exists paths :: UsedExactlyFor(root, Functions(matches), paths)
  {
    var paths := seq(|matches|, k requires 0 <= k < |matches| => matches[k].path);
    forall p | IsExhausted(root, p) ensures p in paths {
      var k :| 0 <= k < |matches| && matches[k].path == p;
      assert paths[k] == p;
    }
    assert UsedExactlyFor(root, Functions(matches), paths);
  }
}
