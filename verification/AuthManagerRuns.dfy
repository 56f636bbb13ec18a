/** What every run of the authorization manager keeps, and when it aborts. */
module AuthManagerRuns {
  import opened Common
  import opened AuthTree
  import opened AuthTracker
  import opened AuthAccount
  import opened AuthManager

  function Depth(i: Invoker): nat {
    |i.tracker.stack|
  }

  ghost predicate AccountsInv(s: seq<Account>, depth: nat) {
    forall i :: 0 <= i < |s| ==> Inv(s[i].tracker) && |s[i].tracker.stack| == depth
  }

  /** Shorter-lived trackers stand later, and each belongs to the contract whose frame created it. */
  ghost predicate InvokersInv(s: seq<Invoker>, callStack: seq<StackFrame>) {
    && (forall i :: 0 <= i < |s| ==>
          && Inv(s[i].tracker)
          && Depth(s[i]) < |callStack|
          && callStack[|callStack| - 1 - Depth(s[i])].ContractFrame?
          && callStack[|callStack| - 1 - Depth(s[i])].contract == s[i].contract)
    && (forall i, j :: 0 <= i < j < |s| ==> Depth(s[i]) >= Depth(s[j]))
  }

  ghost predicate ManagerInv(m: Manager) {
    AccountsInv(m.accounts, |m.callStack|) && InvokersInv(m.invokers, m.callStack)
  }

  /** The trackers that are in scope: those created before the current frame was entered. */
  function InScope(m: Manager): nat {
    |DropOutOfScope(m.invokers)|
  }

  /** The trackers created in the current frame since it last returned from a call. */
  function Pending(m: Manager): nat {
    DropKeepsPrefix(m.invokers);
    |m.invokers| - InScope(m)
  }

  lemma {:induction false} DropKeepsPrefix(s: seq<Invoker>)
    ensures DropOutOfScope(s) <= s
  {
    if s != [] && s[|s| - 1].tracker.stack == [] { DropKeepsPrefix(s[..|s| - 1]); }
  }

  /** With depths in order, the trailing loop removes exactly the trackers that are out of scope. */
  lemma {:induction false} DropIsExact(s: seq<Invoker>)
    requires forall i, j :: 0 <= i < j < |s| ==> Depth(s[i]) >= Depth(s[j])
    ensures var k := |DropOutOfScope(s)|;
      && k <= |s| && DropOutOfScope(s) == s[..k]
      && (forall i :: 0 <= i < k ==> Depth(s[i]) > 0)
      && (forall i :: k <= i < |s| ==> Depth(s[i]) == 0)
  {
    if s != [] {
      if s[|s| - 1].tracker.stack == [] {
        var rest := s[..|s| - 1];
        DropIsExact(rest);
        var k := |DropOutOfScope(rest)|;
        assert rest[..k] == s[..k];
        forall i | k <= i < |s| ensures Depth(s[i]) == 0 { if i < |rest| { assert s[i] == rest[i]; } }
        forall i | 0 <= i < k ensures Depth(s[i]) > 0 { assert s[i] == rest[i]; }
      } else {
        assert s[..|s|] == s;
      }
    }
  }

  /** A cut between trackers in scope and trackers out of scope is where the trailing loop stops. */
  lemma {:induction false} ScopeIs(s: seq<Invoker>, k: nat)
    requires k <= |s|
    requires forall i :: 0 <= i < k ==> Depth(s[i]) > 0
    requires forall i :: k <= i < |s| ==> Depth(s[i]) == 0
    ensures DropOutOfScope(s) == s[..k]
  {
    if k < |s| {
      ScopeIs(s[..|s| - 1], k);
      assert s[..|s| - 1][..k] == s[..k];
    } else {
      assert s[..k] == s;
    }
  }

  ghost predicate AccountsInside(s: seq<Account>, u: seq<Account>) {
    && |u| == |s|
    && forall i :: 0 <= i < |s| ==> u[i].address == s[i].address && Inside(s[i].tracker, u[i].tracker)
  }

  /** The first `k` trackers are the same ones; any others were created since. */
  ghost predicate InvokersInside(s: seq<Invoker>, u: seq<Invoker>, k: nat) {
    && k <= |u| && k <= |s|
    && (forall i :: 0 <= i < k ==> u[i].contract == s[i].contract && Inside(s[i].tracker, u[i].tracker))
    && (forall i :: k <= i < |u| ==> Depth(u[i]) == 0)
  }

  /** `b` is reached from `m` inside `m`'s top frame. */
  ghost predicate InsideManager(m: Manager, b: Manager) {
    && b.callStack == m.callStack
    && AccountsInside(m.accounts, b.accounts)
    && InvokersInside(m.invokers, b.invokers, InScope(m))
  }

  lemma InsideSelf(m: Manager)
    requires ManagerInv(m)
    ensures InsideManager(m, m)
  {
    DropIsExact(m.invokers);
  }

  /** Both states have the same trackers in scope. */
  lemma {:induction false} InsideKeepsScope(m: Manager, b: Manager)
    requires ManagerInv(m) && InsideManager(m, b)
    ensures InScope(b) == InScope(m)
  {
    DropIsExact(m.invokers);
    ScopeIs(b.invokers, InScope(m));
  }

  lemma {:induction false} AccountsInsideTrans(s: seq<Account>, u: seq<Account>, v: seq<Account>)
    requires AccountsInside(s, u) && AccountsInside(u, v)
    ensures AccountsInside(s, v)
  {
    forall i | 0 <= i < |s| ensures Inside(s[i].tracker, v[i].tracker) {
      InsideTrans(s[i].tracker, u[i].tracker, v[i].tracker);
    }
  }

  lemma {:induction false} InvokersInsideTrans(s: seq<Invoker>, u: seq<Invoker>, v: seq<Invoker>, k: nat)
    requires InvokersInside(s, u, k) && InvokersInside(u, v, k)
    ensures InvokersInside(s, v, k)
  {
    forall i | 0 <= i < k ensures Inside(s[i].tracker, v[i].tracker) {
      InsideTrans(s[i].tracker, u[i].tracker, v[i].tracker);
    }
  }

  lemma {:induction false} InsideManagerTrans(m: Manager, b: Manager, c: Manager)
    requires ManagerInv(m) && InsideManager(m, b) && InsideManager(b, c)
    ensures InsideManager(m, c)
  {
    InsideKeepsScope(m, b);
    AccountsInsideTrans(m.accounts, b.accounts, c.accounts);
    InvokersInsideTrans(m.invokers, b.invokers, c.invokers, InScope(m));
  }

  // ---------- entering a frame ----------

  lemma {:induction false} EnterAccounts(s: seq<Account>, depth: nat)
    requires AccountsInv(s, depth)
    ensures AccountsInv(PushAccounts(s), depth + 1)
  {
    forall i | 0 <= i < |s| ensures Inv(PushAccounts(s)[i].tracker) { PushInv(s[i].tracker); }
  }

  lemma {:induction false} EnterInvokers(s: seq<Invoker>, callStack: seq<StackFrame>, f: StackFrame)
    requires InvokersInv(s, callStack)
    ensures InvokersInv(PushInvokers(s), callStack + [f])
    ensures |DropOutOfScope(PushInvokers(s))| == |s|
  {
    var u, cs := PushInvokers(s), callStack + [f];
    forall i | 0 <= i < |u|
      ensures Inv(u[i].tracker) && Depth(u[i]) == Depth(s[i]) + 1
      ensures cs[|cs| - 1 - Depth(u[i])] == callStack[|callStack| - 1 - Depth(s[i])]
    {
      PushInv(s[i].tracker);
    }
    ScopeIs(u, |u|);
  }

  lemma EnterManager(m: Manager, f: StackFrame)
    requires ManagerInv(m)
    ensures ManagerInv(PushFrame(m, f))
    ensures InScope(PushFrame(m, f)) == |m.invokers|
  {
    EnterAccounts(m.accounts, |m.callStack|);
    EnterInvokers(m.invokers, m.callStack, f);
  }

  // ---------- leaving a frame ----------

  lemma {:induction false} LeaveAccounts(s: seq<Account>, u: seq<Account>, depth: nat)
    requires AccountsInv(s, depth) && AccountsInv(u, depth + 1) && AccountsInside(PushAccounts(s), u)
    ensures AccountsInv(PopAccounts(u), depth) && AccountsInside(s, PopAccounts(u))
  {
    forall i | 0 <= i < |s|
      ensures Inv(PopAccounts(u)[i].tracker) && Inside(s[i].tracker, PopAccounts(u)[i].tracker)
    {
      assert Inside(PushAccounts(s)[i].tracker, u[i].tracker);
      PopInv(u[i].tracker);
      InsidePop(s[i].tracker, u[i].tracker);
    }
  }

  lemma {:induction false} LeaveInvokers(s: seq<Invoker>, u: seq<Invoker>, callStack: seq<StackFrame>, f: StackFrame)
    requires InvokersInv(s, callStack) && InvokersInv(u, callStack + [f]) && InvokersInside(PushInvokers(s), u, |s|)
    ensures var k := |DropOutOfScope(s)|;
      k <= |s| && DropOutOfScope(PopInvokers(u)) == PopInvokers(u)[..k]
      && InvokersInside(s, PopInvokers(u)[..k], k)
      && forall i :: 0 <= i < k ==> Depth(PopInvokers(u)[i]) > 0
  {
    var v, k := PopInvokers(u), |DropOutOfScope(s)|;
    DropIsExact(s);
    forall i | 0 <= i < |s| ensures Depth(v[i]) == Depth(s[i]) && Inside(s[i].tracker, v[i].tracker) {
      assert Inside(PushInvokers(s)[i].tracker, u[i].tracker);
      InsidePop(s[i].tracker, u[i].tracker);
    }
    forall i | |s| <= i < |v| ensures Depth(v[i]) == 0 { assert Depth(u[i]) == 0; }
    ScopeIs(v, k);
  }

  lemma {:induction false} LeaveKeepsInvokersInv(
    s: seq<Invoker>, u: seq<Invoker>, callStack: seq<StackFrame>, f: StackFrame, k: nat)
    requires InvokersInv(s, callStack) && InvokersInv(u, callStack + [f])
    requires k <= |s| && k <= |u| && InvokersInside(s, PopInvokers(u)[..k], k)
    ensures InvokersInv(PopInvokers(u)[..k], callStack)
  {
    var v := PopInvokers(u)[..k];
    forall i | 0 <= i < k ensures Inv(v[i].tracker) && Depth(v[i]) == Depth(s[i]) && v[i].contract == s[i].contract {
      PopInv(u[i].tracker);
    }
  }

  /** Leaving a frame normally removes the trackers created in it and those prepared for it, and nothing else. */
  lemma {:induction false} CommitSound(m: Manager, f: StackFrame, b: Manager)
    requires ManagerInv(m) && ManagerInv(b) && InsideManager(PushFrame(m, f), b)
    ensures PopFrame(b, None).Some?
    ensures var c := PopFrame(b, None).value;
      ManagerInv(c) && InsideManager(m, c) && Pending(c) == 0 && |c.invokers| == InScope(m)
  {
    var c, k := PopFrame(b, None).value, InScope(m);
    assert InScope(PushFrame(m, f)) == |m.invokers| by { EnterManager(m, f); }
    assert c.callStack == m.callStack;
    LeaveAccounts(m.accounts, b.accounts, |m.callStack|);
    LeaveInvokers(m.invokers, b.invokers, m.callStack, f);
    LeaveKeepsInvokersInv(m.invokers, b.invokers, m.callStack, f, k);
    ScopeIs(c.invokers, k);
  }

  lemma {:induction false} RollbackAccountsExact(s: seq<Account>, u: seq<Account>, depth: nat)
    requires AccountsInv(s, depth) && AccountsInv(u, depth + 1) && AccountsInside(PushAccounts(s), u)
    ensures RollbackAccounts(u, SnapshotAccounts(PushAccounts(s))).Some?
    ensures PopAccounts(RollbackAccounts(u, SnapshotAccounts(PushAccounts(s))).value) == s
  {
    var snaps := SnapshotAccounts(PushAccounts(s));
    forall i | 0 <= i < |s|
      ensures RollbackAccount(u[i], snaps[i]).Some? && PopAccount(RollbackAccount(u[i], snaps[i]).value) == s[i]
    {
      assert Inside(PushAccounts(s)[i].tracker, u[i].tracker);
      RollbackPopExact(s[i].tracker, u[i].tracker);
    }
  }

  lemma {:induction false} RollbackInvokersExact(s: seq<Invoker>, u: seq<Invoker>)
    requires |s| == |u|
    requires forall i :: 0 <= i < |s| ==> Inv(s[i].tracker) && Inv(u[i].tracker)
    requires InvokersInside(PushInvokers(s), u, |s|)
    ensures RollbackInvokers(u, SnapshotInvokers(PushInvokers(s))).Some?
    ensures PopInvokers(RollbackInvokers(u, SnapshotInvokers(PushInvokers(s))).value) == s
  {
    var snaps := SnapshotInvokers(PushInvokers(s));
    forall i | 0 <= i < |s|
      ensures RollbackInvoker(u[i], snaps[i]).Some?
           && RollbackInvoker(u[i], snaps[i]).value.(tracker := Pop(RollbackInvoker(u[i], snaps[i]).value.tracker))
               == s[i]
    {
      assert Inside(PushInvokers(s)[i].tracker, u[i].tracker);
      RollbackPopExact(s[i].tracker, u[i].tracker);
    }
  }

  /** The manager before a call, less the trackers its caller had prepared for that call. */
  function CallUndone(m: Manager): Manager {
    m.(invokers := DropOutOfScope(m.invokers))
  }

  /**
    * Rolling back and leaving a frame restores the manager exactly, unless trackers are pending: then the snapshot no
    * longer fits and the run aborts with an internal error.
    */
  lemma {:induction false} FailSound(m: Manager, f: StackFrame, b: Manager)
    requires ManagerInv(m) && ManagerInv(b) && InsideManager(PushFrame(m, f), b)
    ensures PopFrame(b, Some(TakeManagerSnapshot(PushFrame(m, f)))) ==
            if Pending(b) == 0 then Some(CallUndone(m)) else None
  {
    var e := PushFrame(m, f);
    EnterManager(m, f);
    InsideKeepsScope(e, b);
    if Pending(b) == 0 { RollbackFits(m, f, b); }
  }

  /** The rollback succeeds, with trackers that are one pop away from those before the frame. */
  lemma {:induction false} RollbackVectors(m: Manager, f: StackFrame, b: Manager)
    requires ManagerInv(m) && ManagerInv(b) && InsideManager(PushFrame(m, f), b) && |b.invokers| == |m.invokers|
    requires InScope(PushFrame(m, f)) == |m.invokers|
    ensures var r := RollbackManager(b, TakeManagerSnapshot(PushFrame(m, f)));
      && r.Some? && r.value.callStack == m.callStack + [f]
      && PopAccounts(r.value.accounts) == m.accounts && PopInvokers(r.value.invokers) == m.invokers
  {
    RollbackAccountsExact(m.accounts, b.accounts, |m.callStack|);
    RollbackInvokersExact(m.invokers, b.invokers);
  }

  lemma {:induction false} PopRestored(m: Manager, f: StackFrame, r: Manager)
    requires r.callStack == m.callStack + [f]
    requires PopAccounts(r.accounts) == m.accounts && PopInvokers(r.invokers) == m.invokers
    ensures PopFrame(r, None) == Some(CallUndone(m))
  {
    assert r.callStack[..|r.callStack| - 1] == m.callStack;
  }

  lemma {:induction false} RollbackFits(m: Manager, f: StackFrame, b: Manager)
    requires ManagerInv(m) && ManagerInv(b) && InsideManager(PushFrame(m, f), b) && |b.invokers| == |m.invokers|
    requires InScope(PushFrame(m, f)) == |m.invokers|
    ensures PopFrame(b, Some(TakeManagerSnapshot(PushFrame(m, f)))) == Some(CallUndone(m))
  {
    var snap := TakeManagerSnapshot(PushFrame(m, f));
    RollbackVectors(m, f, b);
    PopAfterRollback(b, snap);
    PopRestored(m, f, RollbackManager(b, snap).value);
  }

  lemma {:induction false} CallUndoneSound(m: Manager)
    requires ManagerInv(m)
    ensures ManagerInv(CallUndone(m)) && InsideManager(m, CallUndone(m)) && Pending(CallUndone(m)) == 0
  {
    DropIsExact(m.invokers);
    ScopeIs(DropOutOfScope(m.invokers), InScope(m));
  }

  // ---------- the steps inside a frame ----------

  function Created(m: Manager, p: Pattern): Manager
    requires m.callStack != [] && m.callStack[|m.callStack| - 1].ContractFrame?
  {
    m.(invokers := m.invokers + [Invoker(m.callStack[|m.callStack| - 1].contract, NewTracker(p))])
  }

  lemma {:induction false} AppendedScope(s: seq<Invoker>, i: Invoker)
    requires i.tracker.stack == []
    ensures DropOutOfScope(s + [i]) == DropOutOfScope(s)
  {
    assert (s + [i])[..|s|] == s;
  }

  lemma AppendedInside(s: seq<Invoker>, i: Invoker)
    requires Depth(i) == 0 && forall j, k :: 0 <= j < k < |s| ==> Depth(s[j]) >= Depth(s[k])
    ensures InvokersInside(s, s + [i], |DropOutOfScope(s)|)
  {
    DropIsExact(s);
  }

  lemma AppendedInv(s: seq<Invoker>, callStack: seq<StackFrame>, i: Invoker)
    requires InvokersInv(s, callStack) && Inv(i.tracker) && Depth(i) == 0
    requires callStack != [] && callStack[|callStack| - 1].ContractFrame?
      && callStack[|callStack| - 1].contract == i.contract
    ensures InvokersInv(s + [i], callStack)
  {
  }

  lemma AccountsInsideSelf(s: seq<Account>)
    ensures AccountsInside(s, s)
  {
  }

  lemma {:induction false} CreatedSound(m: Manager, p: Pattern)
    requires ManagerInv(m) && m.callStack != [] && m.callStack[|m.callStack| - 1].ContractFrame?
    ensures var b := Created(m, p); ManagerInv(b) && InsideManager(m, b) && Pending(b) == Pending(m) + 1
  {
    var i := Invoker(m.callStack[|m.callStack| - 1].contract, NewTracker(p));
    var s, u := m.invokers, m.invokers + [i];
    NewTrackerInv(p);
    assert InvokersInv(u, m.callStack) by { AppendedInv(s, m.callStack, i); }
    assert InvokersInside(s, u, |DropOutOfScope(s)|) by { AppendedInside(s, i); }
    AppendedScope(s, i);
    AccountsInsideSelf(m.accounts);
  }

  /** Each entry adds one pending tracker; a malformed entry stops the call with the earlier ones added. */
  lemma {:induction false} DelegateSound(m: Manager, entries: seq<Option<Pattern>>)
    requires ManagerInv(m)
    ensures var r := AuthorizeAsCurrent(m, entries);
      && !r.Internal?
      && ManagerInv(r.m) && InsideManager(m, r.m)
      && (r.Done? ==> Pending(r.m) == Pending(m) + |entries|)
    decreases |entries|
  {
    InsideSelf(m);
    if m.callStack != [] && m.callStack[|m.callStack| - 1].ContractFrame? && entries != [] && entries[0].Some? {
      var b := Created(m, entries[0].value);
      CreatedSound(m, entries[0].value);
      DelegateSound(b, entries[1..]);
      InsideManagerTrans(m, b, AuthorizeAsCurrent(b, entries[1..]).m);
    }
  }

  lemma {:induction false} InvokerUpdated(s: seq<Invoker>, callStack: seq<StackFrame>, i: nat, t: Tracker)
    requires InvokersInv(s, callStack) && i < |s| && Inv(t) && Inside(s[i].tracker, t)
    ensures var u, k := s[i := s[i].(tracker := t)], |DropOutOfScope(s)|;
      InvokersInv(u, callStack) && k <= |s| && InvokersInside(s, u, k) && |DropOutOfScope(u)| == k
  {
    var u := s[i := s[i].(tracker := t)];
    forall j | 0 <= j < |s| ensures Depth(u[j]) == Depth(s[j]) && u[j].contract == s[j].contract {}
    assert InvokersInv(u, callStack);
    assert |DropOutOfScope(u)| == |DropOutOfScope(s)| by {
      DropIsExact(s);
      ScopeIs(u, |DropOutOfScope(s)|);
    }
    DropIsExact(s);
  }

  lemma {:induction false} InvokerMatched(m: Manager, i: nat, t: Tracker, f: AuthorizedFunction)
    requires ManagerInv(m) && i < |m.invokers| && Extend(m.invokers[i].tracker, f, true) == Matched(t)
    ensures var b := m.(invokers := m.invokers[i := m.invokers[i].(tracker := t)]);
      ManagerInv(b) && InsideManager(m, b) && Pending(b) == Pending(m)
  {
    ExtendInv(m.invokers[i].tracker, f, true);
    ExtendInside(m.invokers[i].tracker, f, t, Indices(t.stack));
    InvokerUpdated(m.invokers, m.callStack, i, t);
  }

  lemma {:induction false} AccountMatched(
    m: Manager, i: nat, a: Account, f: AuthorizedFunction, allowRoot: bool, authentic: bool)
    requires ManagerInv(m) && i < |m.accounts|
    requires Authorize(m.accounts[i], f, allowRoot, authentic) in {Granted(a), Refused(a)}
    ensures var b := m.(accounts := m.accounts[i := a]);
      ManagerInv(b) && InsideManager(m, b) && Pending(b) == Pending(m)
  {
    AuthorizeMatches(m.accounts[i], f, allowRoot, authentic);
    ExtendInside(m.accounts[i].tracker, f, a.tracker, Indices(a.tracker.stack));
    DropIsExact(m.invokers);
  }

  lemma {:induction false} NoAccountFault(
    m: Manager, address: Address, f: AuthorizedFunction, allowRoot: bool, authentic: bool, from: nat)
    requires ManagerInv(m) && m.callStack != [] && from <= |m.accounts|
    ensures !SearchAccounts(m.accounts, address, f, allowRoot, authentic, from).AccountFault?
    decreases |m.accounts| - from
  {
    if from < |m.accounts| {
      AuthorizeMatches(m.accounts[from], f, allowRoot, authentic);
      NoAccountFault(m, address, f, allowRoot, authentic, from + 1);
    }
  }

  lemma {:induction false} FromAccountsSound(m: Manager, address: Address, f: AuthorizedFunction, authentic: bool)
    requires ManagerInv(m)
    ensures var r := RequireFromAccounts(m, address, f, authentic);
      !r.Internal? ==> ManagerInv(r.m) && InsideManager(m, r.m) && Pending(r.m) == Pending(m)
  {
    var allowRoot := !HasActive(m.accounts, address);
    FoundAccount(m.accounts, address, f, allowRoot, authentic, 0);
    var r := SearchAccounts(m.accounts, address, f, allowRoot, authentic, 0);
    if r.Granting? || r.Refusing? {
      AccountMatched(m, r.index, r.account, f, allowRoot, authentic);
    } else {
      InsideSelf(m);
    }
  }

  lemma {:induction false} RequireSound(m: Manager, address: Address, args: seq<Val>, authentic: bool)
    requires ManagerInv(m)
    ensures var r := RequireAuth(m, address, args, authentic);
      !r.Internal? ==> ManagerInv(r.m) && InsideManager(m, r.m) && Pending(r.m) == Pending(m)
  {
    if m.callStack != [] {
      var f := CurrentFunction(m, args);
      var found := if |m.callStack| < 2 then Absent else SearchInvokers(m.invokers, address, f, 0);
      if DirectInvoker(m, address) {
        InsideSelf(m);
      } else if found.Found? {
        FoundInvoker(m.invokers, address, f, 0);
        InvokerMatched(m, found.index, found.invoker.tracker, f);
        assert m.invokers[found.index].(tracker := found.invoker.tracker) == found.invoker;
      } else if found.Absent? {
        FromAccountsSound(m, address, f, authentic);
      }
    }
  }

  // ---------- whole runs ----------

  /** The body of a call ends in an error. */
  predicate BodyFails(m: Manager, a: Action)
    requires a.Call?
  {
    var r := Exec(PushFrame(m, ContractFrame(a.contract, a.name)), a.body);
    r.Denied? || (r.Done? && a.traps)
  }

  lemma {:induction false} StepSound(m: Manager, a: Action)
    requires ManagerInv(m)
    ensures !Step(m, a).Internal? ==> ManagerInv(Step(m, a).m) && InsideManager(m, Step(m, a).m)
    ensures !Step(m, a).Internal? && (a.Call? || a.Create?) ==> Pending(Step(m, a).m) == 0
    ensures a.Call? && BodyFails(m, a) ==>
              var b := Exec(PushFrame(m, ContractFrame(a.contract, a.name)), a.body).m;
              Step(m, a) == if Pending(b) > 0 then Internal
                            else if a.caught then Done(CallUndone(m)) else Denied(CallUndone(m))
    decreases a, 1
  {
    match a
    case Require(address, args, authentic) => RequireSound(m, address, args, authentic);
    case Delegate(entries) => DelegateSound(m, entries);
    case Call(contract, name, body, traps, caught) =>
      var f := ContractFrame(contract, name);
      InnerSound(m, f, body);
      var r := Exec(PushFrame(m, f), body);
      if BodyFails(m, a) {
        FailSound(m, f, r.m);
        CallUndoneSound(m);
      } else if r.Done? {
        CommitSound(m, f, r.m);
      }
    case Create(preimage, inner) =>
      var f := CreateContractFrame(preimage);
      InnerSound(m, f, inner);
      var r := Exec(PushFrame(m, f), inner);
      if !r.Internal? { CommitSound(m, f, r.m); }
  }

  lemma {:induction false} InnerSound(m: Manager, f: StackFrame, body: seq<Action>)
    requires ManagerInv(m)
    ensures var e := PushFrame(m, f);
      !Exec(e, body).Internal? ==> ManagerInv(Exec(e, body).m) && InsideManager(e, Exec(e, body).m)
    decreases body, 1
  {
    EnterManager(m, f);
    ExecSound(PushFrame(m, f), body);
  }

  lemma {:induction false} ExecSound(m: Manager, body: seq<Action>)
    requires ManagerInv(m)
    ensures !Exec(m, body).Internal? ==> ManagerInv(Exec(m, body).m) && InsideManager(m, Exec(m, body).m)
    decreases body, 0
  {
    InsideSelf(m);
    if body != [] {
      StepSound(m, body[0]);
      if Step(m, body[0]).Done? {
        ExecSound(Step(m, body[0]).m, body[1..]);
        if !Exec(m, body).Internal? { InsideManagerTrans(m, Step(m, body[0]).m, Exec(m, body).m); }
      }
    }
  }
}
