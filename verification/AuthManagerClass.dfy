/** The authorization manager as an object: vectors of trackers and a call stack, all updated in place. */
module AuthManagerClass {
  import opened Common
  import opened AuthTree
  import opened AuthTracker
  import opened AuthAccount
  import opened AuthManager
  import opened AuthClasses

  class AuthorizationManager {
    var accountTrackers: seq<AccountTracker>
    var invokerTrackers: seq<InvokerTracker>
    var callStack: seq<StackFrame>

    /** No two trackers share state. */
    ghost predicate Valid()
      reads this
    {
      && Separate(accountTrackers)
      && SeparateInvokers(invokerTrackers)
      && forall i, j :: 0 <= i < |accountTrackers| && 0 <= j < |invokerTrackers| ==>
           accountTrackers[i].tracker != invokerTrackers[j].tracker
    }

    ghost function View(): Manager
      reads this, accountTrackers, Matchers(accountTrackers), InvokerMatchers(invokerTrackers)
    {
      Manager(AccountViews(accountTrackers), InvokerViews(invokerTrackers), callStack)
    }

    constructor (entries: seq<(Address, Pattern)>)
      ensures Valid() && invokerTrackers == [] && callStack == []
      ensures |accountTrackers| == |entries|
      ensures forall i :: 0 <= i < |entries| ==>
        && accountTrackers[i].View() == Account(entries[i].0, NewTracker(entries[i].1), false)
        && fresh(accountTrackers[i]) && fresh(accountTrackers[i].tracker)
    {
      accountTrackers, invokerTrackers, callStack := [], [], [];
      new;
      while |accountTrackers| < |entries|
        invariant |accountTrackers| <= |entries| && invokerTrackers == [] && callStack == []
        invariant Valid()
        invariant forall i :: 0 <= i < |accountTrackers| ==>
          && accountTrackers[i].View() == Account(entries[i].0, NewTracker(entries[i].1), false)
          && fresh(accountTrackers[i]) && fresh(accountTrackers[i].tracker)
        decreases |entries| - |accountTrackers|
      {
        var e := entries[|accountTrackers|];
        var t := new AccountTracker(e.0, e.1);
        accountTrackers := accountTrackers + [t];
      }
    }

    method Snapshot() returns (snap: ManagerSnapshot)
      ensures snap == TakeManagerSnapshot(View())
    {
      var accounts := SnapshotAllAccounts(accountTrackers);
      var invokers := SnapshotAllInvokers(invokerTrackers);
      snap := ManagerSnapshot(accounts, invokers);
    }

    method PushAllTrackers()
      requires Valid()
      modifies Matchers(accountTrackers), InvokerMatchers(invokerTrackers)
      ensures AccountViews(accountTrackers) == PushAccounts(old(AccountViews(accountTrackers)))
      ensures InvokerViews(invokerTrackers) == PushInvokers(old(InvokerViews(invokerTrackers)))
    {
      PushAllAccounts(accountTrackers);
      InvokerViewsUnchanged(invokerTrackers);
      label pushed:
      PushAllInvokers(invokerTrackers);
      AccountViewsUnchanged@pushed(accountTrackers);
    }

    /** A contract's frame is pushed together with the snapshot to roll it back with. */
    method PushContractFrame(contract: Address, name: Symbol) returns (snap: ManagerSnapshot)
      requires Valid()
      modifies this`callStack, Matchers(accountTrackers), InvokerMatchers(invokerTrackers)
      ensures View() == PushFrame(old(View()), ContractFrame(contract, name))
      ensures snap == TakeManagerSnapshot(View())
    {
      PushFrameOnly(ContractFrame(contract, name));
      snap := Snapshot();
    }

    method PushFrameOnly(f: StackFrame)
      requires Valid()
      modifies this`callStack, Matchers(accountTrackers), InvokerMatchers(invokerTrackers)
      ensures View() == PushFrame(old(View()), f)
    {
      callStack := callStack + [f];
      AccountViewsUnchanged(accountTrackers);
      InvokerViewsUnchanged(invokerTrackers);
      PushAllTrackers();
    }

    method PushCreateContractFrame(preimage: Val)
      requires Valid()
      modifies this`callStack, Matchers(accountTrackers), InvokerMatchers(invokerTrackers)
      ensures View() == PushFrame(old(View()), CreateContractFrame(preimage))
    {
      PushFrameOnly(CreateContractFrame(preimage));
    }

    /** A misfit is an internal error, after which the run is over. */
    method Rollback(snap: ManagerSnapshot) returns (ok: bool)
      requires Valid()
      modifies accountTrackers, Matchers(accountTrackers), InvokerMatchers(invokerTrackers)
      ensures ok == RollbackManager(old(View()), snap).Some?
      ensures ok ==> View() == RollbackManager(old(View()), snap).value
    {
      if |accountTrackers| != |snap.accounts| { return false; }
      ok := RollbackAccountTrackers(snap.accounts);
      if !ok { return; }
      if |invokerTrackers| != |snap.invokers| { return false; }
      ok := RollbackInvokerTrackers(snap.invokers);
    }

    method RollbackAccountTrackers(snaps: seq<AccountSnapshot>) returns (ok: bool)
      requires Valid() && |accountTrackers| == |snaps|
      modifies accountTrackers, Matchers(accountTrackers)
      ensures ok == RollbackAccounts(old(View()).accounts, snaps).Some?
      ensures ok ==> View() == old(View()).(accounts := RollbackAccounts(old(View()).accounts, snaps).value)
      ensures View().invokers == old(View()).invokers && callStack == old(callStack)
    {
      ok := RollbackAllAccounts(accountTrackers, snaps);
      InvokerViewsUnchanged(invokerTrackers);
    }

    method RollbackInvokerTrackers(snaps: seq<Snapshot>) returns (ok: bool)
      requires Valid() && |invokerTrackers| == |snaps|
      modifies InvokerMatchers(invokerTrackers)
      ensures ok == RollbackInvokers(old(View()).invokers, snaps).Some?
      ensures ok ==> View() == old(View()).(invokers := RollbackInvokers(old(View()).invokers, snaps).value)
    {
      ok := RollbackAllInvokers(invokerTrackers, snaps);
      AccountViewsUnchanged(accountTrackers);
    }

    method PopAllTrackers()
      requires Valid()
      modifies Matchers(accountTrackers), InvokerMatchers(invokerTrackers)
      ensures AccountViews(accountTrackers) == PopAccounts(old(AccountViews(accountTrackers)))
      ensures InvokerViews(invokerTrackers) == PopInvokers(old(InvokerViews(invokerTrackers)))
    {
      PopAllAccounts(accountTrackers);
      InvokerViewsUnchanged(invokerTrackers);
      label popped:
      PopAllInvokers(invokerTrackers);
      AccountViewsUnchanged@popped(accountTrackers);
    }

    /** Keeps the first trackers of the vector and drops the top frame. */
    method Shrink(kept: seq<InvokerTracker>)
      requires Valid() && kept <= invokerTrackers && callStack != []
      modifies this`invokerTrackers, this`callStack
      ensures Valid() && accountTrackers == old(accountTrackers)
      ensures View() == Manager(old(AccountViews(accountTrackers)), old(InvokerViews(kept)),
                                old(callStack)[..|old(callStack)| - 1])
    {
      callStack := callStack[..|callStack| - 1];
      invokerTrackers := kept;
      AccountViewsUnchanged(accountTrackers);
      InvokerViewsUnchanged(kept);
    }

    method PopTop()
      requires Valid() && callStack != []
      modifies this`invokerTrackers, this`callStack, Matchers(accountTrackers), InvokerMatchers(invokerTrackers)
      ensures Valid() && Some(View()) == PopFrame(old(View()), None)
    {
      ghost var m := View();
      PopAllTrackers();
      var kept := WithoutOutOfScope(invokerTrackers);
      ghost var accounts, invokers := AccountViews(accountTrackers), InvokerViews(kept);
      assert accounts == PopAccounts(m.accounts) && invokers == DropOutOfScope(PopInvokers(m.invokers));
      Shrink(kept);
      assert View() == Manager(accounts, invokers, m.callStack[..|m.callStack| - 1]);
    }

    method PopContractFrame(snap: Option<ManagerSnapshot>) returns (ok: bool)
      requires Valid()
      modifies this`invokerTrackers, this`callStack
      modifies accountTrackers, Matchers(accountTrackers), InvokerMatchers(invokerTrackers)
      ensures ok == PopFrame(old(View()), snap).Some?
      ensures ok ==> Valid() && View() == PopFrame(old(View()), snap).value
    {
      ghost var m := View();
      if snap.Some? {
        ok := Rollback(snap.value);
        if !ok { return false; }
        PopAfterRollback(m, snap.value);
      }
      assert PopFrame(m, snap) == PopFrame(View(), None);
      if callStack != [] { PopTop(); }
      return true;
    }

    /** False when an entry does not decode, or there is one and no contract is running. */
    method AddInvokerContractAuth(entries: seq<Option<Pattern>>) returns (ok: bool)
      requires Valid()
      modifies this`invokerTrackers
      ensures Valid()
      ensures AuthorizeAsCurrent(old(View()), entries) == if ok then Done(View()) else Denied(View())
    {
      if entries == [] { return true; }
      if callStack == [] || !callStack[|callStack| - 1].ContractFrame? { return false; }
      ghost var m := View();
      var added;
      ok, added := WithNewInvokers(invokerTrackers, callStack[|callStack| - 1].contract, entries);
      InvokerViewsUnchanged(invokerTrackers);
      AddedInvokers(m, entries, InvokerViews(added), ok);
      label added:
      invokerTrackers := added;
      AccountViewsUnchanged(accountTrackers);
      InvokerViewsUnchanged@added(added);
    }

    /** `Some(ok)` tells whether the invocation is authorized; `None` aborts the run. */
    method RequireAuthorization(address: Address, args: seq<Val>, authentic: bool) returns (r: Option<bool>)
      requires Valid()
      modifies accountTrackers, Matchers(accountTrackers), InvokerMatchers(invokerTrackers)
      ensures Answers(r, RequireAuth(old(View()), address, args, authentic), View())
    {
      ghost var m := View();
      if callStack == [] { return None; }
      var f := match callStack[|callStack| - 1]
        case ContractFrame(c, name) => ContractFn(c, name, args)
        case CreateContractFrame(preimage) => CreateContractHostFn(preimage);
      r := MaybeCheckInvokerContractAuth(address, f);
      if r != Some(false) { return; }
      r := TryAccountTrackers(address, f, authentic);
    }

    /** The direct invoker authorizes its calls; otherwise a tracker of an invoker higher up may match. */
    method MaybeCheckInvokerContractAuth(address: Address, f: AuthorizedFunction) returns (r: Option<bool>)
      requires Valid() && callStack != []
      modifies InvokerMatchers(invokerTrackers)
      ensures r != Some(true) && r != None ==> View() == old(View())
      ensures
        var m := old(View());
        if DirectInvoker(m, address) then r == Some(true) && View() == m
        else match if |m.callStack| < 2 then Absent else SearchInvokers(m.invokers, address, f, 0)
          case SearchFault => r == None
          case Absent => r == Some(false)
          case Found(i, invoker) =>
            r == Some(true) && i < |m.invokers| && View() == m.(invokers := m.invokers[i := invoker])
    {
      if |callStack| < 2 { return Some(false); }
      var invoker := callStack[|callStack| - 2];
      if invoker.ContractFrame? && invoker.contract == address { return Some(true); }
      r := TryInvokerTrackers(address, f);
    }

    method TryInvokerTrackers(address: Address, f: AuthorizedFunction) returns (r: Option<bool>)
      requires Valid()
      modifies InvokerMatchers(invokerTrackers)
      ensures match SearchInvokers(old(View()).invokers, address, f, 0)
              case SearchFault => r == None
              case Absent => r == Some(false) && View() == old(View())
              case Found(i, invoker) =>
                r == Some(true) && i < |View().invokers|
                && View() == old(View()).(invokers := old(View()).invokers[i := invoker])
    {
      FoundInvoker(View().invokers, address, f, 0);
      r := TryInvokers(invokerTrackers, address, f);
      AccountViewsUnchanged(accountTrackers);
    }

    method TryAccountTrackers(address: Address, f: AuthorizedFunction, authentic: bool) returns (r: Option<bool>)
      requires Valid()
      modifies accountTrackers, Matchers(accountTrackers)
      ensures Answers(r, RequireFromAccounts(old(View()), address, f, authentic), View())
    {
      var active := HasActiveTracker(accountTrackers, address);
      FoundAccount(AccountViews(accountTrackers), address, f, !active, authentic, 0);
      var found := TryAccounts(accountTrackers, address, f, !active, authentic);
      InvokerViewsUnchanged(invokerTrackers);
      if found.None? { return None; }
      return Some(found.value == Some(true));
    }
  }

  /** A method's answer and the state it leaves agree with an outcome; an aborted run has no state left to speak of. */
  ghost predicate Answers(r: Option<bool>, outcome: Outcome, after: Manager) {
    match outcome
    case Internal => r == None
    case Done(b) => r == Some(true) && after == b
    case Denied(b) => r == Some(false) && after == b
  }

  /** Adding the decoded entries one after another is what `AuthorizeAsCurrent` does. */
  lemma {:induction false} AddedInvokers(m: Manager, entries: seq<Option<Pattern>>, after: seq<Invoker>, ok: bool)
    requires m.callStack != [] && m.callStack[|m.callStack| - 1].ContractFrame?
    requires var n := |m.invokers|;
      && n <= |after| && after[..n] == m.invokers && |after| - n <= |entries|
      && (forall k :: 0 <= k < |after| - n ==>
            && entries[k].Some?
            && after[n + k] == Invoker(m.callStack[|m.callStack| - 1].contract, NewTracker(entries[k].value)))
      && if ok then |after| - n == |entries| else |after| - n < |entries| && entries[|after| - n].None?
    ensures var b := m.(invokers := after);
      AuthorizeAsCurrent(m, entries) == if ok then Done(b) else Denied(b)
    decreases |entries|
  {
    var n := |m.invokers|;
    if |after| == n {
      assert after == m.invokers;
    } else {
      var b := m.(invokers := m.invokers + [after[n]]);
      assert after[..n + 1] == b.invokers;
      AddedInvokers(b, entries[1..], after, ok);
    }
  }
}
