/** What a signature is worth over whole runs: nothing is authorized for an address without one. */
module AuthSignatures {
  import opened Common
  import opened AuthTree
  import opened AuthTracker
  import opened AuthAccount
  import opened AuthManager
  import opened AuthManagerRuns
  import opened AuthManagerTheorems
  import opened AuthDiscipline
  import opened AuthCompleteness

  /** Authorization by the address was asked for, with a valid signature, in a part that no rollback undid. */
  predicate Signed(m: Manager, a: Action, address: Address)
    decreases a, 1
  {
    match a
    case Require(of, _, authentic) => of == address && authentic
    case Delegate(_) => false
    case Call(contract, name, body, _, _) =>
      !BodyFails(m, a) && SignedIn(PushFrame(m, ContractFrame(contract, name)), body, address)
    case Create(preimage, inner) => SignedIn(PushFrame(m, CreateContractFrame(preimage)), inner, address)
  }

  predicate SignedIn(m: Manager, body: seq<Action>, address: Address)
    decreases body, 0
  {
    body != [] &&
    (Signed(m, body[0], address) ||
     match Step(m, body[0]) case Done(b) => SignedIn(b, body[1..], address) case _ => false)
  }

  predicate SignedOpen(m: Manager, levels: seq<Level>, last: seq<Action>, address: Address)
    decreases |levels|
  {
    if levels == [] then SignedIn(m, last, address)
    else
      || SignedIn(m, levels[0].body, address)
      || match Exec(m, levels[0].body)
         case Done(b) => SignedOpen(PushFrame(b, levels[0].next), levels[1..], last, address)
         case _ => false
  }

  // ---------- an entry is verified only by a signature ----------

  lemma {:induction false} RequireVerifies(m: Manager, address: Address, args: seq<Val>, authentic: bool, i: nat)
    requires ManagerInv(m) && !RequireAuth(m, address, args, authentic).Internal? && i < |m.accounts|
    ensures var s := RequireAuth(m, address, args, authentic).m.accounts;
      && i < |s| && s[i].address == m.accounts[i].address
      && (s[i].verified ==> m.accounts[i].verified || (address == m.accounts[i].address && authentic))
  {
    var f := CurrentFunction(m, args);
    if !DirectInvoker(m, address) && (|m.callStack| < 2 || SearchInvokers(m.invokers, address, f, 0).Absent?) {
      var allowRoot := !HasActive(m.accounts, address);
      FoundAccount(m.accounts, address, f, allowRoot, authentic, 0);
      var r := SearchAccounts(m.accounts, address, f, allowRoot, authentic, 0);
      if (r.Granting? || r.Refusing?) && r.index == i { AuthorizeIff(m.accounts[i], f, allowRoot, authentic); }
    }
  }

  lemma {:induction false} StepVerifies(m: Manager, a: Action, i: nat)
    requires ManagerInv(m) && !Step(m, a).Internal? && i < |m.accounts|
    ensures var s := Step(m, a).m.accounts;
      && i < |s| && s[i].address == m.accounts[i].address
      && (s[i].verified ==> m.accounts[i].verified || Signed(m, a, m.accounts[i].address))
    decreases a, 1
  {
    match a
    case Require(address, args, authentic) => RequireVerifies(m, address, args, authentic, i);
    case Delegate(_) =>
    case Call(contract, name, body, _, _) =>
      AccountsAfterCall(m, a);
      if !BodyFails(m, a) { InnerVerifies(m, ContractFrame(contract, name), body, i); }
    case Create(preimage, inner) =>
      AccountsAfterCreate(m, a);
      InnerVerifies(m, CreateContractFrame(preimage), inner, i);
  }

  lemma {:induction false} InnerVerifies(m: Manager, f: StackFrame, body: seq<Action>, i: nat)
    requires ManagerInv(m) && !Exec(PushFrame(m, f), body).Internal? && i < |m.accounts|
    ensures var s := PopAccounts(Exec(PushFrame(m, f), body).m.accounts);
      && i < |s| && s[i].address == m.accounts[i].address
      && (s[i].verified ==> m.accounts[i].verified || SignedIn(PushFrame(m, f), body, m.accounts[i].address))
    decreases body, 1
  {
    EnterManager(m, f);
    BodyVerifies(PushFrame(m, f), body, i);
  }

  lemma {:induction false} BodyVerifies(m: Manager, body: seq<Action>, i: nat)
    requires ManagerInv(m) && !Exec(m, body).Internal? && i < |m.accounts|
    ensures var s := Exec(m, body).m.accounts;
      && i < |s| && s[i].address == m.accounts[i].address
      && (s[i].verified ==> m.accounts[i].verified || SignedIn(m, body, m.accounts[i].address))
    decreases body, 0
  {
    if body != [] {
      StepVerifies(m, body[0], i);
      if Step(m, body[0]).Done? {
        StepSound(m, body[0]);
        BodyVerifies(Step(m, body[0]).m, body[1..], i);
      }
    }
  }

  lemma {:induction false} OpenVerifies(m: Manager, levels: seq<Level>, last: seq<Action>, i: nat)
    requires ManagerInv(m) && !ExecOpen(m, levels, last).Internal? && i < |m.accounts|
    ensures var s := ExecOpen(m, levels, last).m.accounts;
      && i < |s| && s[i].address == m.accounts[i].address
      && (s[i].verified ==> m.accounts[i].verified || SignedOpen(m, levels, last, m.accounts[i].address))
    decreases |levels|
  {
    if levels == [] {
      BodyVerifies(m, last, i);
    } else {
      BodyVerifies(m, levels[0].body, i);
      var r := Exec(m, levels[0].body);
      if r.Done? {
        ExecSound(m, levels[0].body);
        EnterManager(r.m, levels[0].next);
        OpenVerifies(PushFrame(r.m, levels[0].next), levels[1..], last, i);
      }
    }
  }

  /** At every point of every transaction an entry is verified only if its address signed, in a part not rolled back. */
  lemma {:induction false} VerifiedMeansSigned(
    entries: seq<(Address, Pattern)>, levels: seq<Level>, last: seq<Action>, i: nat)
    requires !ExecOpen(NewManager(entries), levels, last).Internal? && i < |entries|
    ensures var m := NewManager(entries); var s := ExecOpen(m, levels, last).m.accounts;
      i < |s| && (s[i].verified ==> SignedOpen(m, levels, last, entries[i].0))
  {
    NewManagerInv(entries);
    OpenVerifies(NewManager(entries), levels, last, i);
  }

  // ---------- without a signature no entry is used ----------

  /** Nobody's signature is valid. */
  predicate NobodySigns(body: seq<Action>) {
    forall i :: 0 <= i < |body| ==>
      match body[i]
      case Require(_, _, authentic) => !authentic
      case Delegate(_) => true
      case Call(_, _, inner, _, _) => NobodySigns(inner)
      case Create(_, inner) => NobodySigns(inner)
  }

  predicate Untouched(s: seq<Account>) {
    forall i :: 0 <= i < |s| ==> !s[i].verified && Unused(s[i].tracker.root)
  }

  lemma {:induction false} UnsignedRequire(m: Manager, address: Address, args: seq<Val>)
    requires ManagerInv(m) && Untouched(m.accounts) && RequireAuth(m, address, args, false).Done?
    ensures RequireAuth(m, address, args, false).m.accounts == m.accounts
  {
    var f := CurrentFunction(m, args);
    if !DirectInvoker(m, address) && (|m.callStack| < 2 || SearchInvokers(m.invokers, address, f, 0).Absent?) {
      var allowRoot := !HasActive(m.accounts, address);
      FoundAccount(m.accounts, address, f, allowRoot, false, 0);
      var r := SearchAccounts(m.accounts, address, f, allowRoot, false, 0);
      if r.Granting? {
        AuthorizeIff(m.accounts[r.index], f, allowRoot, false);
        assert false;
      }
    }
  }

  lemma {:induction false} UnsignedStep(m: Manager, a: Action)
    requires ManagerInv(m) && Untouched(m.accounts) && NobodySigns([a]) && Step(m, a).Done?
    ensures Untouched(Step(m, a).m.accounts)
    decreases a, 1
  {
    assert NobodySigns([a]) && [a][0] == a;
    match a
    case Require(address, args, authentic) => UnsignedRequire(m, address, args);
    case Delegate(_) =>
    case Call(contract, name, body, _, _) =>
      AccountsAfterCall(m, a);
      if !BodyFails(m, a) { UnsignedInner(m, ContractFrame(contract, name), body); }
    case Create(preimage, inner) =>
      AccountsAfterCreate(m, a);
      UnsignedInner(m, CreateContractFrame(preimage), inner);
  }

  lemma {:induction false} UnsignedInner(m: Manager, f: StackFrame, body: seq<Action>)
    requires ManagerInv(m) && Untouched(m.accounts) && NobodySigns(body) && Exec(PushFrame(m, f), body).Done?
    ensures Untouched(PopAccounts(Exec(PushFrame(m, f), body).m.accounts))
    decreases body, 1
  {
    EnterManager(m, f);
    UnsignedBody(PushFrame(m, f), body);
  }

  lemma {:induction false} UnsignedBody(m: Manager, body: seq<Action>)
    requires ManagerInv(m) && Untouched(m.accounts) && NobodySigns(body) && Exec(m, body).Done?
    ensures Untouched(Exec(m, body).m.accounts)
    decreases body, 0
  {
    if body != [] {
      assert NobodySigns([body[0]]);
      UnsignedStep(m, body[0]);
      StepSound(m, body[0]);
      UnsignedBody(Step(m, body[0]).m, body[1..]);
    }
  }

  /** A transaction in which nobody's signature is valid verifies no entry and uses no node, done or failed. */
  lemma {:induction false} NoSignatureNoUse(entries: seq<(Address, Pattern)>, body: seq<Action>)
    requires NobodySigns(body) && !Transaction(NewManager(entries), body).Internal?
    ensures Untouched(Transaction(NewManager(entries), body).m.accounts)
  {
    var m := NewManager(entries);
    NewManagerInv(entries);
    FailedTransactionLeavesNoTrace(m, body);
    forall i | 0 <= i < |entries| ensures Unused(m.accounts[i].tracker.root) { NewIsUnused(entries[i].1); }
    if Exec(m, body).Done? { UnsignedBody(m, body); }
  }
}
