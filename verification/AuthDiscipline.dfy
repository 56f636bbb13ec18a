/** Why disjoint authorization entries of one address cannot be combined to authorize one tree of calls. */
module AuthDiscipline {
  import opened Common
  import opened AuthTree
  import opened AuthTracker
  import opened AuthAccount
  import opened AuthManager
  import opened AuthManagerRuns
  import opened AuthManagerTheorems

  /** At the frame where the later of two root matches was made, the earlier tracker was used as well. */
  predicate Together(t: Tracker, u: Tracker) {
    HasRoot(t.stack) && HasRoot(u.stack) && |t.stack| == |u.stack| && RootIndex(t.stack) <= RootIndex(u.stack) ==>
      t.stack[RootIndex(u.stack)] != Unmatched
  }

  ghost predicate Disciplined(s: seq<Account>) {
    forall i, j | 0 <= i < |s| && 0 <= j < |s| && s[i].address == s[j].address :: Together(s[i].tracker, s[j].tracker)
  }

  lemma TogetherPush(t: Tracker, u: Tracker)
    requires Inv(t) && Inv(u) && Together(t, u)
    ensures Together(Push(t), Push(u))
  {
    PushRoot(t);
    PushRoot(u);
  }

  lemma PushRoot(t: Tracker)
    ensures HasRoot(Push(t).stack) == HasRoot(t.stack)
    ensures HasRoot(t.stack) ==> RootIndex(Push(t).stack) == RootIndex(t.stack)
  {
    var s := Push(t).stack;
    assert s[..|s| - 1] == t.stack;
  }

  /** In a well-shaped stack there is only one root match. */
  lemma RootAt(s: seq<MatchState>, i: nat)
    requires WellShaped(s) && i < |s| && s[i] == RootMatch
    ensures HasRoot(s) && RootIndex(s) == i
  {
    ShapeByPosition(s);
  }

  lemma PopRoot(t: Tracker)
    requires Inv(t) && t.stack != [] && HasRoot(Pop(t).stack)
    ensures HasRoot(t.stack) && RootIndex(Pop(t).stack) == RootIndex(t.stack)
  {
    RootAt(t.stack, RootIndex(Pop(t).stack));
  }

  lemma TogetherPop(t: Tracker, u: Tracker)
    requires Inv(t) && Inv(u) && |t.stack| == |u.stack| && Together(t, u)
    ensures Together(Pop(t), Pop(u))
  {
    if t.stack != [] && HasRoot(Pop(t).stack) && HasRoot(Pop(u).stack) {
      PopRoot(t);
      PopRoot(u);
    }
  }

  lemma PushDisciplined(s: seq<Account>, depth: nat)
    requires AccountsInv(s, depth) && Disciplined(s)
    ensures Disciplined(PushAccounts(s))
  {
    var u := PushAccounts(s);
    forall i, j | 0 <= i < |u| && 0 <= j < |u| && u[i].address == u[j].address
      ensures Together(u[i].tracker, u[j].tracker)
    {
      TogetherPush(s[i].tracker, s[j].tracker);
    }
  }

  lemma PopDisciplined(s: seq<Account>, depth: nat)
    requires AccountsInv(s, depth) && Disciplined(s)
    ensures Disciplined(PopAccounts(s))
  {
    var u := PopAccounts(s);
    forall i, j | 0 <= i < |u| && 0 <= j < |u| && u[i].address == u[j].address
      ensures Together(u[i].tracker, u[j].tracker)
    {
      TogetherPop(s[i].tracker, s[j].tracker);
    }
  }

  // ---------- a match ----------

  /** A match below the root leaves the root where it is and adds a mark. */
  lemma {:induction false} RootStays(t: Tracker, f: AuthorizedFunction, u: Tracker)
    requires Inv(t) && Inv(u) && Extends(t, f, u, Indices(u.stack)) && HasRoot(t.stack)
    ensures RootIndex(u.stack) == RootIndex(t.stack)
    ensures forall k :: 0 <= k < |t.stack| && t.stack[k] != Unmatched ==> u.stack[k] == t.stack[k]
  {
    var top, r := |t.stack| - 1, RootIndex(t.stack);
    forall k | 0 <= k < top ensures u.stack[k] == t.stack[k] {
      assert u.stack[..top][k] == t.stack[..top][k];
    }
    RootAt(u.stack, r);
  }

  /** A new root match sits on the top frame. */
  lemma {:induction false} RootOnTop(t: Tracker, f: AuthorizedFunction, u: Tracker)
    requires Inv(t) && Inv(u) && Extends(t, f, u, Indices(u.stack)) && !HasRoot(t.stack)
    ensures RootIndex(u.stack) == |u.stack| - 1
  {
    var top := |t.stack| - 1;
    assert t.stack[..top] == u.stack[..top] && !HasRoot(t.stack[..top]);
  }

  lemma {:induction false} TogetherWithMatched(t: Tracker, f: AuthorizedFunction, u: Tracker, other: Tracker)
    requires Inv(t) && Inv(u) && Inv(other) && Extends(t, f, u, Indices(u.stack)) && |other.stack| == |t.stack|
    requires Together(t, other) && Together(other, t)
    requires !HasRoot(t.stack) && HasRoot(other.stack) ==> CurrentFrameMatched(other)
    ensures Together(u, other) && Together(other, u)
  {
    if HasRoot(t.stack) {
      RootStays(t, f, u);
    } else {
      RootOnTop(t, f, u);
    }
  }

  /** A tracker that may not be passed over: its root is on the stack but it was not used for the current frame. */
  lemma {:induction false} RootNeedsPermission(
    a: Account, f: AuthorizedFunction, allowRoot: bool, authentic: bool, b: Account)
    requires Inv(a.tracker) && Authorize(a, f, allowRoot, authentic) in {Granted(b), Refused(b)}
    requires !HasRoot(a.tracker.stack)
    ensures allowRoot
  {
    NoRootNoIndices(a.tracker.stack);
    WalkFollowsIndices(a.tracker.root, a.tracker.stack);
  }

  lemma {:induction false} MatchDisciplined(
    m: Manager, i: nat, b: Account, address: Address, f: AuthorizedFunction, authentic: bool)
    requires ManagerInv(m) && Disciplined(m.accounts) && i < |m.accounts| && m.accounts[i].address == address
    requires Authorize(m.accounts[i], f, !HasActive(m.accounts, address), authentic) in {Granted(b), Refused(b)}
    ensures Disciplined(m.accounts[i := b])
  {
    var s, u := m.accounts, m.accounts[i := b];
    AuthorizeMatches(s[i], f, !HasActive(s, address), authentic);
    forall j, k | 0 <= j < |u| && 0 <= k < |u| && u[j].address == u[k].address
      ensures Together(u[j].tracker, u[k].tracker)
    {
      assert Together(s[j].tracker, s[k].tracker) && Together(s[k].tracker, s[j].tracker);
      if (j == i) != (k == i) {
        var o := if j == i then k else j;
        if !HasRoot(s[i].tracker.stack) && HasRoot(s[o].tracker.stack) {
          RootNeedsPermission(s[i], f, !HasActive(s, address), authentic, b);
          RootIsActive(s[o].tracker);
        }
        TogetherWithMatched(s[i].tracker, f, b.tracker, s[o].tracker);
      }
    }
  }

  lemma RootIsActive(t: Tracker)
    requires Inv(t) && HasRoot(t.stack)
    ensures IsActive(t)
  {
    ActiveIff(t);
  }

  // ---------- runs ----------

  lemma {:induction false} RequireDisciplined(m: Manager, address: Address, args: seq<Val>, authentic: bool)
    requires ManagerInv(m) && Disciplined(m.accounts) && !RequireAuth(m, address, args, authentic).Internal?
    ensures Disciplined(RequireAuth(m, address, args, authentic).m.accounts)
  {
    var f := CurrentFunction(m, args);
    if DirectInvoker(m, address) || (|m.callStack| >= 2 && !SearchInvokers(m.invokers, address, f, 0).Absent?) {
    } else {
      var allowRoot := !HasActive(m.accounts, address);
      FoundAccount(m.accounts, address, f, allowRoot, authentic, 0);
      var r := SearchAccounts(m.accounts, address, f, allowRoot, authentic, 0);
      if r.Granting? || r.Refusing? { MatchDisciplined(m, r.index, r.account, address, f, authentic); }
    }
  }

  lemma {:induction false} StepDisciplined(m: Manager, a: Action)
    requires ManagerInv(m) && Disciplined(m.accounts) && !Step(m, a).Internal?
    ensures Disciplined(Step(m, a).m.accounts)
    decreases a, 1
  {
    match a
    case Require(address, args, authentic) => RequireDisciplined(m, address, args, authentic);
    case Delegate(_) =>
    case Call(contract, name, body, _, _) =>
      AccountsAfterCall(m, a);
      if !BodyFails(m, a) { InnerDisciplined(m, ContractFrame(contract, name), body); }
    case Create(preimage, inner) =>
      AccountsAfterCreate(m, a);
      InnerDisciplined(m, CreateContractFrame(preimage), inner);
  }

  lemma {:induction false} InnerDisciplined(m: Manager, f: StackFrame, body: seq<Action>)
    requires ManagerInv(m) && Disciplined(m.accounts) && !Exec(PushFrame(m, f), body).Internal?
    ensures Disciplined(PopAccounts(Exec(PushFrame(m, f), body).m.accounts))
    decreases body, 1
  {
    EnterManager(m, f);
    PushDisciplined(m.accounts, |m.callStack|);
    ExecDisciplined(PushFrame(m, f), body);
    ExecSound(PushFrame(m, f), body);
    var b := Exec(PushFrame(m, f), body).m;
    PopDisciplined(b.accounts, |b.callStack|);
  }

  lemma {:induction false} ExecDisciplined(m: Manager, body: seq<Action>)
    requires ManagerInv(m) && Disciplined(m.accounts) && !Exec(m, body).Internal?
    ensures Disciplined(Exec(m, body).m.accounts)
    decreases body, 0
  {
    if body != [] {
      StepDisciplined(m, body[0]);
      if Step(m, body[0]).Done? {
        StepSound(m, body[0]);
        ExecDisciplined(Step(m, body[0]).m, body[1..]);
      }
    }
  }

  /** What has been executed in one open frame, and the frame then entered. */
  datatype Level = Level(body: seq<Action>, next: StackFrame)

  /** A transaction stopped somewhere inside: below each level another frame is open. */
  function ExecOpen(m: Manager, levels: seq<Level>, last: seq<Action>): Outcome
    decreases |levels|
  {
    if levels == [] then Exec(m, last)
    else match Exec(m, levels[0].body)
      case Done(b) => ExecOpen(PushFrame(b, levels[0].next), levels[1..], last)
      case e => e
  }

  lemma {:induction false} OpenDisciplined(m: Manager, levels: seq<Level>, last: seq<Action>)
    requires ManagerInv(m) && Disciplined(m.accounts) && !ExecOpen(m, levels, last).Internal?
    ensures ManagerInv(ExecOpen(m, levels, last).m) && Disciplined(ExecOpen(m, levels, last).m.accounts)
    decreases |levels|
  {
    if levels == [] {
      ExecSound(m, last);
      ExecDisciplined(m, last);
    } else {
      ExecSound(m, levels[0].body);
      ExecDisciplined(m, levels[0].body);
      var r := Exec(m, levels[0].body);
      if r.Done? {
        EnterManager(r.m, levels[0].next);
        PushDisciplined(r.m.accounts, |r.m.callStack|);
        OpenDisciplined(PushFrame(r.m, levels[0].next), levels[1..], last);
      }
    }
  }

  /**
    * At every point of every transaction: when two entries of one address are both in use, each of them authorized the
    * call at which the later one was entered. So entries that authorize disjoint calls never add up to one tree.
    */
  lemma {:induction false} EntriesAreUsedTogether(
    entries: seq<(Address, Pattern)>, levels: seq<Level>, last: seq<Action>, i: nat, j: nat)
    requires !ExecOpen(NewManager(entries), levels, last).Internal?
    ensures var s := ExecOpen(NewManager(entries), levels, last).m.accounts;
      i < |s| && j < |s| && s[i].address == s[j].address && IsActive(s[i].tracker) && IsActive(s[j].tracker) ==>
        var t, u := s[i].tracker, s[j].tracker;
        && HasRoot(t.stack) && HasRoot(u.stack) && |t.stack| == |u.stack|
        && var later := Max(RootIndex(t.stack), RootIndex(u.stack));
           t.stack[later] != Unmatched && u.stack[later] != Unmatched
  {
    NewManagerInv(entries);
    NewDisciplined(entries);
    OpenDisciplined(NewManager(entries), levels, last);
    var s := ExecOpen(NewManager(entries), levels, last).m.accounts;
    if i < |s| && j < |s| && s[i].address == s[j].address && IsActive(s[i].tracker) && IsActive(s[j].tracker) {
      UnusedCannotMatch(s[i].tracker);
      UnusedCannotMatch(s[j].tracker);
      assert Together(s[i].tracker, s[j].tracker) && Together(s[j].tracker, s[i].tracker);
    }
  }

  lemma NewDisciplined(entries: seq<(Address, Pattern)>)
    ensures Disciplined(NewManager(entries).accounts)
  {
    var s := NewManager(entries).accounts;
    forall i | 0 <= i < |s| ensures s[i].tracker.stack == [] {}
  }
}
