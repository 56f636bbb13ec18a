/** What is authorized: exactly when a match is found, and that every signed tree of calls can be made. */
module AuthCompleteness {
  import opened Common
  import opened AuthTree
  import opened AuthTracker
  import opened AuthAccount
  import opened AuthManager
  import opened AuthManagerRuns
  import opened AuthManagerTheorems

  // ---------- exactly when a match is found ----------

  /**
    * The current frame has no match yet, and the function is authorized by an unused child of the deepest matched node,
    * or, with nothing matched, by the unused root if a root may be matched.
    */
  ghost predicate CanMatch(t: Tracker, f: AuthorizedFunction, allowRoot: bool)
    requires HasRoot(t.stack) ==> ValidPath(t.root, Indices(t.stack))
  {
    && t.stack != [] && t.stack[|t.stack| - 1] == Unmatched
    && if HasRoot(t.stack) then
         var subs := At(t.root, Indices(t.stack)).subs; exists k :: 0 <= k < |subs| && Usable(subs[k], f)
       else allowRoot && Usable(t.root, f)
  }

  lemma {:induction false} MatchIff(t: Tracker, f: AuthorizedFunction, allowRoot: bool)
    requires Inv(t)
    ensures HasRoot(t.stack) ==> ValidPath(t.root, Indices(t.stack))
    ensures Extend(t, f, allowRoot).Matched? <==> CanMatch(t, f, allowRoot)
  {
    if !HasRoot(t.stack) { NoRootNoIndices(t.stack); }
    WalkFollowsIndices(t.root, t.stack);
  }

  /** The first unused child that authorizes the function is the one taken, and only it becomes used. */
  lemma {:induction false} FirstChildTaken(t: Tracker, f: AuthorizedFunction, allowRoot: bool, k: nat)
    requires Inv(t) && HasRoot(t.stack) && t.stack[|t.stack| - 1] == Unmatched && ValidPath(t.root, Indices(t.stack))
    requires k < |At(t.root, Indices(t.stack)).subs| && Usable(At(t.root, Indices(t.stack)).subs[k], f)
    requires forall j :: 0 <= j < k ==> !Usable(At(t.root, Indices(t.stack)).subs[j], f)
    ensures ValidPath(t.root, Indices(t.stack) + [k])
    ensures Extend(t, f, allowRoot) == Matched(t.(
              root := Exhaust(t.root, Indices(t.stack) + [k]), stack := t.stack[|t.stack| - 1 := SubMatch(k)]))
  {
    WalkFollowsIndices(t.root, t.stack);
    ChildPath(t.root, Indices(t.stack), k);
  }

  /** With nothing matched, the root is taken and the tracker remembers the frame. */
  lemma {:induction false} RootTaken(t: Tracker, f: AuthorizedFunction)
    requires Inv(t) && !HasRoot(t.stack) && t.stack != [] && Usable(t.root, f)
    ensures var top := |t.stack| - 1;
      Extend(t, f, true) == Matched(t.(
        root := t.root.(exhausted := true), rootFrame := Some(top), stack := t.stack[top := RootMatch]))
  {
    NoRootNoIndices(t.stack);
    WalkFollowsIndices(t.root, t.stack);
  }

  /**
    * An entry grants exactly what it matches while its signature has been or is now accepted, and refuses exactly what
    * it matches otherwise; a grant leaves it verified, a refusal does not.
    */
  lemma {:induction false} AuthorizeIff(a: Account, f: AuthorizedFunction, allowRoot: bool, authentic: bool)
    requires Inv(a.tracker)
    ensures HasRoot(a.tracker.stack) ==> ValidPath(a.tracker.root, Indices(a.tracker.stack))
    ensures var r, found := Authorize(a, f, allowRoot, authentic), CanMatch(a.tracker, f, allowRoot);
      && (r.Granted? <==> found && (a.verified || authentic))
      && (r.Refused? <==> found && !a.verified && !authentic)
      && (r.Granted? ==> r.account.verified)
      && (r.Refused? ==> !r.account.verified)
      && (r.Fault? ==> a.tracker.stack == [])
  {
    MatchIff(a.tracker, f, allowRoot);
    ExtendErrorIff(a.tracker, f, allowRoot);
  }

  // ---------- exactly when require_auth succeeds ----------

  ghost predicate TreesValid(m: Manager) {
    && (forall i :: 0 <= i < |m.accounts| && HasRoot(m.accounts[i].tracker.stack) ==>
          ValidPath(m.accounts[i].tracker.root, Indices(m.accounts[i].tracker.stack)))
    && (forall i :: 0 <= i < |m.invokers| && HasRoot(m.invokers[i].tracker.stack) ==>
          ValidPath(m.invokers[i].tracker.root, Indices(m.invokers[i].tracker.stack)))
  }

  /** No entry of the address is in use without having been used for the current frame. */
  ghost predicate RootAllowed(s: seq<Account>, address: Address) {
    forall i :: 0 <= i < |s| && s[i].address == address && HasRoot(s[i].tracker.stack) ==>
      CurrentFrameMatched(s[i].tracker)
  }

  ghost predicate AccountMatches(m: Manager, i: nat, address: Address, f: AuthorizedFunction)
    requires TreesValid(m)
  {
    i < |m.accounts| && m.accounts[i].address == address
    && CanMatch(m.accounts[i].tracker, f, RootAllowed(m.accounts, address))
  }

  ghost predicate InvokerMatches(m: Manager, i: nat, address: Address, f: AuthorizedFunction)
    requires TreesValid(m)
  {
    i < |m.invokers| && m.invokers[i].contract == address && CanMatch(m.invokers[i].tracker, f, true)
  }

  /** The first entry of the address that matches is one whose signature has been or is now accepted. */
  ghost predicate SignedFor(m: Manager, address: Address, f: AuthorizedFunction, authentic: bool)
    requires TreesValid(m)
  {
    exists i: nat :: AccountMatches(m, i, address, f) && (m.accounts[i].verified || authentic)
      && forall j: nat :: j < i ==> !AccountMatches(m, j, address, f)
  }

  lemma {:induction false} TreesAreValid(m: Manager)
    requires ManagerInv(m)
    ensures TreesValid(m)
  {
    forall i | 0 <= i < |m.accounts| && HasRoot(m.accounts[i].tracker.stack)
      ensures ValidPath(m.accounts[i].tracker.root, Indices(m.accounts[i].tracker.stack))
    {
    }
  }

  lemma RootAllowedIff(s: seq<Account>, depth: nat, address: Address)
    requires AccountsInv(s, depth)
    ensures RootAllowed(s, address) <==> !HasActive(s, address)
  {
    forall i | 0 <= i < |s| ensures IsActive(s[i].tracker) <==> HasRoot(s[i].tracker.stack) {
      UnusedCannotMatch(s[i].tracker);
    }
  }

  lemma {:induction false} FirstMatchFound(
    m: Manager, address: Address, f: AuthorizedFunction, authentic: bool, from: nat)
    requires ManagerInv(m) && m.callStack != [] && from <= |m.accounts| && TreesValid(m)
    requires forall j :: 0 <= j < from ==> !AccountMatches(m, j, address, f)
    ensures var r := SearchAccounts(m.accounts, address, f, RootAllowed(m.accounts, address), authentic, from);
      && !r.AccountFault?
      && (r.NoAccount? ==> forall j :: 0 <= j < |m.accounts| ==> !AccountMatches(m, j, address, f))
      && (r.Granting? || r.Refusing? ==>
            && AccountMatches(m, r.index, address, f)
            && (forall j :: 0 <= j < r.index ==> !AccountMatches(m, j, address, f))
            && (r.Granting? <==> m.accounts[r.index].verified || authentic))
    decreases |m.accounts| - from
  {
    if from < |m.accounts| {
      var a, allowed := m.accounts[from], RootAllowed(m.accounts, address);
      AuthorizeIff(a, f, allowed, authentic);
      if a.address != address || !AccountMatches(m, from, address, f) {
        FirstMatchFound(m, address, f, authentic, from + 1);
      }
    }
  }

  lemma {:induction false} InvokerFoundIff(m: Manager, address: Address, f: AuthorizedFunction, from: nat)
    requires ManagerInv(m) && from <= |m.invokers| && TreesValid(m)
    requires !SearchInvokers(m.invokers, address, f, from).SearchFault?
    ensures SearchInvokers(m.invokers, address, f, from).Found? <==>
              exists i: nat :: from <= i && InvokerMatches(m, i, address, f)
    decreases |m.invokers| - from
  {
    if from < |m.invokers| {
      var t := m.invokers[from].tracker;
      MatchIff(t, f, true);
      assert InvokerMatches(m, from, address, f) <==>
          m.invokers[from].contract == address && Extend(t, f, true).Matched?;
      if !InvokerMatches(m, from, address, f) {
        InvokerFoundIff(m, address, f, from + 1);
      }
    }
  }

  /**
    * Authorization is given exactly to a contract's own direct calls, to calls that an invoker's delegated entry
    * matches, and to calls matched by a signed entry whose signature holds; and nothing is matched twice over.
    */
  lemma {:induction false} RequireSucceedsIff(m: Manager, address: Address, args: seq<Val>, authentic: bool)
    requires ManagerInv(m) && !RequireAuth(m, address, args, authentic).Internal?
    ensures TreesValid(m) && m.callStack != []
    ensures RequireAuth(m, address, args, authentic).Done? <==>
              var f := CurrentFunction(m, args);
              || DirectInvoker(m, address)
              || (|m.callStack| >= 2 && exists i: nat :: InvokerMatches(m, i, address, f))
              || SignedFor(m, address, f, authentic)
  {
    TreesAreValid(m);
    var f := CurrentFunction(m, args);
    RootAllowedIff(m.accounts, |m.callStack|, address);
    FirstMatchFound(m, address, f, authentic, 0);
    if !DirectInvoker(m, address) {
      if |m.callStack| >= 2 { InvokerFoundIff(m, address, f, 0); }
      SignedForIff(m, address, f, authentic);
    }
  }

  lemma {:induction false} SignedForIff(m: Manager, address: Address, f: AuthorizedFunction, authentic: bool)
    requires ManagerInv(m) && m.callStack != [] && TreesValid(m)
    ensures RequireFromAccounts(m, address, f, authentic).Done? <==> SignedFor(m, address, f, authentic)
  {
    RootAllowedIff(m.accounts, |m.callStack|, address);
    FirstMatchFound(m, address, f, authentic, 0);
    var r := SearchAccounts(m.accounts, address, f, RootAllowed(m.accounts, address), authentic, 0);
    if SignedFor(m, address, f, authentic) {
      var i: nat :| AccountMatches(m, i, address, f) && (m.accounts[i].verified || authentic)
        && forall j: nat :: j < i ==> !AccountMatches(m, j, address, f);
      assert !r.NoAccount?;
      assert r.index == i;
    }
  }

  // ---------- a signed tree of calls ----------

  function FrameOf(f: AuthorizedFunction): StackFrame {
    match f
    case ContractFn(contract, name, _) => ContractFrame(contract, name)
    case CreateContractHostFn(preimage) => CreateContractFrame(preimage)
  }

  function ArgsOf(f: AuthorizedFunction): seq<Val> {
    if f.ContractFn? then f.args else []
  }

  /** The calls a tree describes, each asking for the address's authorization before it makes the next ones. */
  function CallsOf(p: Pattern, address: Address): Action
    decreases p, 1
  {
    var body := [Require(address, ArgsOf(p.fn), true)] + SubCalls(p, address);
    match p.fn
    case ContractFn(contract, name, _) => Call(contract, name, body, false, false)
    case CreateContractHostFn(preimage) => Create(preimage, body)
  }

  function SubCalls(p: Pattern, address: Address): seq<Action>
    decreases p, 0
  {
    seq(|p.subs|, i requires 0 <= i < |p.subs| => CallsOf(p.subs[i], address))
  }

  /** The address signs for these calls without being a contract that makes any of them. */
  predicate MakesNoCall(p: Pattern, address: Address) {
    && (p.subs != [] && p.fn.ContractFn? ==> p.fn.contract != address)
    && forall i :: 0 <= i < |p.subs| ==> MakesNoCall(p.subs[i], address)
  }

  /** The one entry of the address. */
  predicate Only(s: seq<Account>, i: nat, address: Address) {
    && i < |s| && s[i].address == address
    && forall j :: 0 <= j < |s| && j != i ==> s[j].address != address
  }

  ghost predicate InCall(m: Manager, i: nat, address: Address, q: Path) {
    && ManagerInv(m) && m.invokers == [] && m.callStack != []
    && Only(m.accounts, i, address)
    && HasRoot(m.accounts[i].tracker.stack) && Indices(m.accounts[i].tracker.stack) == q
  }

  /** Seen from the outside, nothing but flags has changed. */
  ghost predicate SameOutside(m: Manager, b: Manager, i: nat) {
    && b.callStack == m.callStack
    && i < |m.accounts| == |b.accounts|
    && b.accounts[i].tracker.stack == m.accounts[i].tracker.stack
    && Erase(b.accounts[i].tracker.root) == Erase(m.accounts[i].tracker.root)
  }

  /** The nodes at and below `q` have become used, and no others. */
  ghost predicate UsedBelow(n: Invocation, m: Invocation, q: Path) {
    forall x :: IsExhausted(m, x) <==> IsExhausted(n, x) || (ValidPath(n, x) && q <= x)
  }

  /** The nodes at and below the children of `q` from the k-th on have become used, and no others. */
  ghost predicate UsedFrom(n: Invocation, m: Invocation, q: Path, k: nat) {
    forall x :: IsExhausted(m, x) <==> IsExhausted(n, x) || (ValidPath(n, x) && Beyond(x, q, k))
  }

  predicate Beyond(x: Path, q: Path, k: nat) {
    |x| > |q| && q <= x && x[|q|] >= k
  }

  lemma {:induction false} SearchOnly(
    s: seq<Account>, i: nat, address: Address, f: AuthorizedFunction, allowRoot: bool, authentic: bool, b: Account,
    from: nat)
    requires Only(s, i, address) && from <= i && Authorize(s[i], f, allowRoot, authentic) == Granted(b)
    ensures SearchAccounts(s, address, f, allowRoot, authentic, from) == Granting(i, b)
    decreases i - from
  {
    if from < i { SearchOnly(s, i, address, f, allowRoot, authentic, b, from + 1); }
  }

  lemma OnlyKept(s: seq<Account>, u: seq<Account>, i: nat, address: Address)
    requires Only(s, i, address) && AccountsInside(s, u)
    ensures Only(u, i, address)
  {
  }

  /** Inside a call of the tree, the next call finds its authorization. */
  lemma {:induction false} ChildAuthorized(e: Manager, i: nat, address: Address, q: Path, f: AuthorizedFunction, k: nat)
    requires InCall(e, i, address, q) && |e.callStack| >= 2 && !DirectInvoker(e, address)
    requires CurrentFunction(e, ArgsOf(f)) == f
    requires var t := e.accounts[i].tracker;
      && t.stack[|t.stack| - 1] == Unmatched && ValidPath(t.root, q)
      && k < |At(t.root, q).subs| && Usable(At(t.root, q).subs[k], f)
      && forall j :: 0 <= j < k ==> At(t.root, q).subs[j].exhausted
    ensures var r, t := RequireAuth(e, address, ArgsOf(f), true), e.accounts[i].tracker;
      && r.Done? && InCall(r.m, i, address, q + [k])
      && r.m.callStack == e.callStack && r.m.accounts[i].tracker.stack == t.stack[|t.stack| - 1 := SubMatch(k)]
      && ValidPath(t.root, q + [k]) && r.m.accounts[i].tracker.root == Exhaust(t.root, q + [k])
  {
    var a := e.accounts[i];
    ChildFound(e, i, address, q, f, k);
    ChildTracker(a.tracker, f, k);
    var b := a.(tracker := Extend(a.tracker, f, false).tracker, verified := true);
    OnlyUpdated(e.accounts, i, address, b);
    assert ManagerInv(e.(accounts := e.accounts[i := b])) by { RequireSound(e, address, ArgsOf(f), true); }
  }

  lemma {:induction false} ChildTracker(t: Tracker, f: AuthorizedFunction, k: nat)
    requires Inv(t) && HasRoot(t.stack) && t.stack[|t.stack| - 1] == Unmatched && ValidPath(t.root, Indices(t.stack))
    requires k < |At(t.root, Indices(t.stack)).subs| && Usable(At(t.root, Indices(t.stack)).subs[k], f)
    requires forall j :: 0 <= j < k ==> At(t.root, Indices(t.stack)).subs[j].exhausted
    ensures Extend(t, f, false).Matched? && ValidPath(t.root, Indices(t.stack) + [k])
    ensures var u := Extend(t, f, false).tracker;
      && u.stack == t.stack[|t.stack| - 1 := SubMatch(k)] && HasRoot(u.stack)
      && Indices(u.stack) == Indices(t.stack) + [k] && u.root == Exhaust(t.root, Indices(t.stack) + [k])
  {
    FirstChildTaken(t, f, false, k);
    MarkAdded(t.stack, k);
  }

  lemma OnlyUpdated(s: seq<Account>, i: nat, address: Address, b: Account)
    requires Only(s, i, address) && b.address == address
    ensures Only(s[i := b], i, address)
  {
  }

  lemma MarkAdded(s: seq<MatchState>, k: nat)
    requires s != [] && s[|s| - 1] == Unmatched && HasRoot(s)
    ensures var u := s[|s| - 1 := SubMatch(k)]; HasRoot(u) && Indices(u) == Indices(s) + [k]
  {
    var u := s[|s| - 1 := SubMatch(k)];
    assert u[..|u| - 1] == s[..|s| - 1];
    assert Indices(s) == Indices(s[..|s| - 1]) + [];
  }

  lemma {:induction false} ChildFound(e: Manager, i: nat, address: Address, q: Path, f: AuthorizedFunction, k: nat)
    requires InCall(e, i, address, q) && |e.callStack| >= 2 && !DirectInvoker(e, address)
    requires CurrentFunction(e, ArgsOf(f)) == f
    requires var t := e.accounts[i].tracker;
      && t.stack[|t.stack| - 1] == Unmatched && ValidPath(t.root, q)
      && k < |At(t.root, q).subs| && Usable(At(t.root, q).subs[k], f)
      && forall j :: 0 <= j < k ==> At(t.root, q).subs[j].exhausted
    ensures var a := e.accounts[i]; var r := Extend(a.tracker, f, false);
      && r.Matched?
      && RequireAuth(e, address, ArgsOf(f), true)
           == Done(e.(accounts := e.accounts[i := a.(tracker := r.tracker, verified := true)]))
  {
    var a, t := e.accounts[i], e.accounts[i].tracker;
    FirstChildTaken(t, f, false, k);
    UnusedCannotMatch(t);
    assert HasActive(e.accounts, address) by { assert IsActive(t) && !CurrentFrameMatched(t); }
    var b := a.(tracker := Extend(t, f, false).tracker, verified := true);
    SearchOnly(e.accounts, i, address, f, false, true, b, 0);
  }

  lemma PathBelow(n: Invocation, q: Path, x: Path)
    requires ValidPath(n, q) && ValidPath(n, x) && q <= x && x != q
    ensures x[|q|] < |At(n, q).subs|
  {
    if q != [] {
      assert q[1..] <= x[1..];
      PathBelow(n.subs[q[0]], q[1..], x[1..]);
    }
  }

  lemma {:induction false} AllUsedBelow(n: Invocation, mid: Invocation, m: Invocation, q: Path)
    requires ValidPath(n, q) && mid == Exhaust(n, q) && UsedFrom(mid, m, q, 0)
    ensures UsedBelow(n, m, q)
  {
    ExhaustSetsOneFlag(n, q);
    forall x ensures IsExhausted(m, x) <==> IsExhausted(n, x) || (ValidPath(n, x) && q <= x) {
      assert ValidPath(n, x) <==> ValidPath(mid, x) by { SamePaths(n, mid, x); }
    }
  }

  lemma SamePaths(n: Invocation, m: Invocation, x: Path)
    requires Erase(n) == Erase(m)
    ensures ValidPath(n, x) <==> ValidPath(m, x)
  {
    if ValidPath(n, x) { EraseDeterminesPaths(n, m, x); }
    if ValidPath(m, x) { EraseDeterminesPaths(m, n, x); }
  }

  /** Entering a frame of the tree keeps the situation, with a frame on top that has no match. */
  lemma {:induction false} EnterCall(m: Manager, i: nat, address: Address, q: Path, f: StackFrame)
    requires InCall(m, i, address, q)
    ensures var e := PushFrame(m, f); var t := e.accounts[i].tracker;
      && InCall(e, i, address, q) && t.root == m.accounts[i].tracker.root
      && t.stack == m.accounts[i].tracker.stack + [Unmatched]
  {
    EnterManager(m, f);
    PushInv(m.accounts[i].tracker);
  }

  lemma {:induction false} LeaveCall(m: Manager, f: StackFrame, b: Manager, i: nat, address: Address, q: Path, k: nat)
    requires InCall(m, i, address, q) && InCall(b, i, address, q + [k]) && InsideManager(PushFrame(m, f), b)
    requires b.accounts[i].tracker.stack == m.accounts[i].tracker.stack + [SubMatch(k)]
    ensures Committed(b).Done?
    ensures var c := Committed(b).m;
      && InCall(c, i, address, q) && c.callStack == m.callStack
      && c.accounts[i].tracker.root == b.accounts[i].tracker.root
      && c.accounts[i].tracker.stack == m.accounts[i].tracker.stack
  {
    CommitSound(m, f, b);
    OnlyKept(m.accounts, Committed(b).m.accounts, i, address);
  }

  /** At `q` stands the tree `p`; its first `k` children have been used and nothing beyond them has. */
  ghost predicate UpTo(n: Invocation, q: Path, k: nat, p: Pattern) {
    && ValidPath(n, q) && Erase(At(n, q)) == p && k <= |p.subs|
    && (forall x :: Beyond(x, q, k) ==> !IsExhausted(n, x))
    && (forall j :: 0 <= j < k ==> IsExhausted(n, q + [j]))
  }

  predicate TopMakesNoCall(m: Manager, address: Address)
    requires m.callStack != []
  {
    m.callStack[|m.callStack| - 1].ContractFrame? ==> m.callStack[|m.callStack| - 1].contract != address
  }

  /** Using a child and then asking below it starts with none of its own children used. */
  lemma {:induction false} ChildUsed(n: Invocation, q: Path, k: nat, p: Pattern)
    requires UpTo(n, q, k, p) && k < |p.subs|
    ensures ValidPath(n, q + [k]) && At(n, q + [k]) == At(n, q).subs[k] && Usable(At(n, q).subs[k], p.subs[k].fn)
    ensures forall j :: 0 <= j < k ==> At(n, q).subs[j].exhausted
    ensures UpTo(Exhaust(n, q + [k]), q + [k], 0, p.subs[k]) && Erase(Exhaust(n, q + [k])) == Erase(n)
  {
    var c := q + [k];
    FunctionsAlongStep(n, q, k);
    assert Beyond(c, q, k);
    forall j | 0 <= j < k ensures At(n, q).subs[j].exhausted { FunctionsAlongStep(n, q, j); }
    ExhaustSetsOneFlag(n, c);
    EraseDeterminesPaths(n, Exhaust(n, c), c);
    forall x | Beyond(x, c, 0) ensures x != c && Beyond(x, q, k) {
      assert x[|q|] == c[|q|] && q <= x;
    }
  }

  /** After one child's tree the next child is due. */
  lemma {:induction false} NextChild(n: Invocation, n1: Invocation, q: Path, k: nat, p: Pattern)
    requires UpTo(n, q, k, p) && k < |p.subs| && Erase(n1) == Erase(n) && UsedBelow(n, n1, q + [k])
    ensures UpTo(n1, q, k + 1, p)
  {
    FunctionsAlongStep(n, q, k);
    EraseDeterminesPaths(n, n1, q);
    forall x | Beyond(x, q, k + 1) ensures !IsExhausted(n1, x) {
      assert !(q + [k] <= x) by { assert x[|q|] != (q + [k])[|q|]; }
    }
  }

  /** The frame is entered and its authorization asked for. */
  lemma {:induction false} NodeAsked(m: Manager, i: nat, address: Address, q: Path, k: nat, p: Pattern)
    returns (m1: Manager)
    requires InCall(m, i, address, q) && TopMakesNoCall(m, address)
    requires UpTo(m.accounts[i].tracker.root, q, k, p) && k < |p.subs|
    ensures var n, f := m.accounts[i].tracker.root, p.subs[k].fn;
      && Step(PushFrame(m, FrameOf(f)), Require(address, ArgsOf(f), true)) == Done(m1)
      && InCall(m1, i, address, q + [k]) && m1.callStack == m.callStack + [FrameOf(f)]
      && m1.accounts[i].tracker.stack == m.accounts[i].tracker.stack + [SubMatch(k)]
      && ValidPath(n, q + [k]) && m1.accounts[i].tracker.root == Exhaust(n, q + [k])
  {
    var n, f := m.accounts[i].tracker.root, p.subs[k].fn;
    ChildUsed(n, q, k, p);
    EnterCall(m, i, address, q, FrameOf(f));
    ChildAuthorized(PushFrame(m, FrameOf(f)), i, address, q, f, k);
    m1 := Step(PushFrame(m, FrameOf(f)), Require(address, ArgsOf(f), true)).m;
  }

  lemma CallCommits(m: Manager, c: Pattern, address: Address, b: Manager)
    requires var body := [Require(address, ArgsOf(c.fn), true)] + SubCalls(c, address);
      Exec(PushFrame(m, FrameOf(c.fn)), body) == Done(b)
    ensures Step(m, CallsOf(c, address)) == Committed(b)
  {
  }

  /** Making the call of one node, with all the calls below it, uses that node and all below it. */
  lemma {:induction false} NodeAuthorized(m: Manager, i: nat, address: Address, q: Path, k: nat, p: Pattern)
    requires InCall(m, i, address, q) && TopMakesNoCall(m, address)
    requires UpTo(m.accounts[i].tracker.root, q, k, p) && k < |p.subs| && MakesNoCall(p.subs[k], address)
    ensures var r := Step(m, CallsOf(p.subs[k], address));
      && r.Done? && InCall(r.m, i, address, q) && SameOutside(m, r.m, i)
      && UsedBelow(m.accounts[i].tracker.root, r.m.accounts[i].tracker.root, q + [k])
    decreases p, |p.subs| - k, 0
  {
    var n, c := m.accounts[i].tracker.root, p.subs[k];
    var calls := SubCalls(c, address);
    var e, body := PushFrame(m, FrameOf(c.fn)), [Require(address, ArgsOf(c.fn), true)] + calls;
    var m1 := NodeAsked(m, i, address, q, k, p);
    ChildUsed(n, q, k, p);
    SubsAuthorized(m1, i, address, q + [k], 0, c);
    assert body[1..] == calls && calls[0..] == calls;
    var b := Exec(m1, calls).m;
    assert Exec(e, body) == Done(b);
    CallCommits(m, c, address, b);
    assert InsideManager(e, b) by {
      EnterManager(m, FrameOf(c.fn));
      ExecSound(e, body);
    }
    LeaveCall(m, FrameOf(c.fn), b, i, address, q, k);
    AllUsedBelow(n, m1.accounts[i].tracker.root, b.accounts[i].tracker.root, q + [k]);
  }

  /** Making the calls of a node's children, from the k-th on, uses all of their trees. */
  lemma {:induction false} SubsAuthorized(m: Manager, i: nat, address: Address, q: Path, k: nat, p: Pattern)
    requires InCall(m, i, address, q) && UpTo(m.accounts[i].tracker.root, q, k, p) && MakesNoCall(p, address)
    requires p.subs != [] ==> TopMakesNoCall(m, address)
    ensures var r := Exec(m, SubCalls(p, address)[k..]);
      && r.Done? && InCall(r.m, i, address, q) && SameOutside(m, r.m, i)
      && UsedFrom(m.accounts[i].tracker.root, r.m.accounts[i].tracker.root, q, k)
    decreases p, |p.subs| - k, 1
  {
    var n, calls := m.accounts[i].tracker.root, SubCalls(p, address);
    if k == |p.subs| {
      NothingBeyond(n, q);
      assert calls[k..] == [];
    } else {
      NodeAuthorized(m, i, address, q, k, p);
      var m1 := Step(m, calls[k]).m;
      NextChild(n, m1.accounts[i].tracker.root, q, k, p);
      SubsAuthorized(m1, i, address, q, k + 1, p);
      assert calls[k..][0] == calls[k] && calls[k..][1..] == calls[k + 1..];
      UsedInTurn(n, m1.accounts[i].tracker.root, Exec(m1, calls[k + 1..]).m.accounts[i].tracker.root, q, k);
    }
  }

  lemma NothingBeyond(n: Invocation, q: Path)
    requires ValidPath(n, q)
    ensures UsedFrom(n, n, q, |At(n, q).subs|)
  {
    forall x | ValidPath(n, x) && q <= x && x != q ensures x[|q|] < |At(n, q).subs| { PathBelow(n, q, x); }
  }

  lemma {:induction false} UsedInTurn(n: Invocation, n1: Invocation, n2: Invocation, q: Path, k: nat)
    requires Erase(n) == Erase(n1) && UsedBelow(n, n1, q + [k]) && UsedFrom(n1, n2, q, k + 1)
    ensures UsedFrom(n, n2, q, k)
  {
    forall x ensures IsExhausted(n2, x) <==> IsExhausted(n, x) || (ValidPath(n, x) && Beyond(x, q, k)) {
      SamePaths(n, n1, x);
      assert Beyond(x, q, k) <==> Beyond(x, q, k + 1) || q + [k] <= x by {
        if q + [k] <= x { assert x[|q|] == (q + [k])[|q|] && q <= x; }
        if Beyond(x, q, k) && x[|q|] == k { assert x[..|q| + 1] == q + [k]; }
      }
    }
  }

  ghost predicate AllUsed(n: Invocation) {
    forall x :: ValidPath(n, x) ==> IsExhausted(n, x)
  }

  /**
    * What an address has signed it can do: a transaction that makes the calls of a signed tree in order, each asking
    * for its authorization, succeeds and uses every node.
    */
  lemma {:induction false} SignedTreeIsAuthorized(entries: seq<(Address, Pattern)>, i: nat)
    requires i < |entries| && forall j :: 0 <= j < |entries| && j != i ==> entries[j].0 != entries[i].0
    requires MakesNoCall(entries[i].1, entries[i].0)
    ensures var r := Transaction(NewManager(entries), [CallsOf(entries[i].1, entries[i].0)]);
      && r.Done? && i < |r.m.accounts|
      && Erase(r.m.accounts[i].tracker.root) == entries[i].1 && AllUsed(r.m.accounts[i].tracker.root)
  {
    var address, p := entries[i].0, entries[i].1;
    var m, call := NewManager(entries), CallsOf(p, address);
    NewManagerInv(entries);
    var b := RootCall(m, i, address, p);
    CallCommits(m, p, address, b);
    CommitSound(m, FrameOf(p.fn), b);
    RunsOne(m, call);
  }

  lemma {:induction false} RootCall(m: Manager, i: nat, address: Address, p: Pattern) returns (b: Manager)
    requires ManagerInv(m) && m.invokers == [] && m.callStack == [] && Only(m.accounts, i, address)
    requires m.accounts[i].tracker == NewTracker(p) && MakesNoCall(p, address)
    ensures var body := [Require(address, ArgsOf(p.fn), true)] + SubCalls(p, address);
      Exec(PushFrame(m, FrameOf(p.fn)), body) == Done(b)
    ensures ManagerInv(b) && InsideManager(PushFrame(m, FrameOf(p.fn)), b)
    ensures i < |b.accounts| && Erase(b.accounts[i].tracker.root) == p && AllUsed(b.accounts[i].tracker.root)
  {
    var n, body := New(p), [Require(address, ArgsOf(p.fn), true)] + SubCalls(p, address);
    var e := PushFrame(m, FrameOf(p.fn));
    var m1 := RootAsked(m, i, address, p);
    assert body[1..] == SubCalls(p, address)[0..];
    SubsAuthorized(m1, i, address, [], 0, p);
    b := Exec(m1, SubCalls(p, address)[0..]).m;
    assert Exec(e, body) == Exec(m1, SubCalls(p, address)[0..]);
    EnterManager(m, FrameOf(p.fn));
    ExecSound(e, body);
    AllUsedBelow(n, m1.accounts[i].tracker.root, b.accounts[i].tracker.root, []);
    WholeTreeUsed(n, b.accounts[i].tracker.root);
  }

  lemma WholeTreeUsed(n: Invocation, m: Invocation)
    requires Erase(n) == Erase(m) && UsedBelow(n, m, [])
    ensures AllUsed(m)
  {
    forall x | ValidPath(m, x) ensures IsExhausted(m, x) { SamePaths(n, m, x); }
  }

  lemma {:induction false} RootAsked(m: Manager, i: nat, address: Address, p: Pattern) returns (m1: Manager)
    requires ManagerInv(m) && m.invokers == [] && m.callStack == [] && Only(m.accounts, i, address)
    requires m.accounts[i].tracker == NewTracker(p)
    ensures Step(PushFrame(m, FrameOf(p.fn)), Require(address, ArgsOf(p.fn), true)) == Done(m1)
    ensures InCall(m1, i, address, []) && m1.callStack == [FrameOf(p.fn)]
    ensures m1.accounts[i].tracker.root == Exhaust(New(p), []) && UpTo(m1.accounts[i].tracker.root, [], 0, p)
  {
    var e := PushFrame(m, FrameOf(p.fn));
    EnterManager(m, FrameOf(p.fn));
    var a := e.accounts[i];
    assert a.tracker == NewTracker(p).(stack := [Unmatched]);
    var granted := RootGranted(e, i, address, p);
    m1 := e.(accounts := e.accounts[i := granted]);
    RequireSound(e, address, ArgsOf(p.fn), true);
    var c := m1.accounts[i];
    assert c.tracker.stack == [RootMatch] && HasRoot(c.tracker.stack) && Indices(c.tracker.stack) == [];
    OnlyUpdated(e.accounts, i, address, c);
    NewIsUnused(p);
    ExhaustSetsOneFlag(New(p), []);
    forall x ensures !IsExhausted(New(p), x) { UnusedNowhere(New(p), x); }
  }

  lemma {:induction false} RootGranted(e: Manager, i: nat, address: Address, p: Pattern) returns (c: Account)
    requires ManagerInv(e) && e.callStack == [FrameOf(p.fn)] && Only(e.accounts, i, address)
    requires e.accounts[i].tracker == NewTracker(p).(stack := [Unmatched])
    ensures RequireAuth(e, address, ArgsOf(p.fn), true) == Done(e.(accounts := e.accounts[i := c]))
    ensures c.address == address
    ensures c.tracker == Tracker(New(p).(exhausted := true), [RootMatch], Some(0), false)
  {
    var a := e.accounts[i];
    NewIsUnused(p);
    RootTaken(a.tracker, p.fn);
    c := a.(tracker := Extend(a.tracker, p.fn, true).tracker, verified := true);
    assert !HasActive(e.accounts, address);
    SearchOnly(e.accounts, i, address, p.fn, true, true, c, 0);
  }

  // ---------- a delegated call ----------

  /** The call of a function that asks for an address's authorization, with no signature to show. */
  function Asking(f: AuthorizedFunction, address: Address): Action {
    match f
    case ContractFn(contract, name, args) => Call(contract, name, [Require(address, args, false)], false, false)
    case CreateContractHostFn(preimage) => Create(preimage, [Require(address, [], false)])
  }

  /** An entry delegated by the address, one frame up and not yet used, authorizes this function. */
  ghost predicate Awaits(m: Manager, i: nat, address: Address, f: AuthorizedFunction) {
    && i < |m.invokers| && m.invokers[i].contract == address
    && m.invokers[i].tracker.stack == [Unmatched] && Usable(m.invokers[i].tracker.root, f)
  }

  lemma {:induction false} AwaitsInside(m: Manager, i: nat, address: Address, f: AuthorizedFunction)
    requires Awaits(m, i, address, f) && TreesValid(PushFrame(m, FrameOf(f)))
    ensures InvokerMatches(PushFrame(m, FrameOf(f)), i, address, f)
  {
    var t := PushFrame(m, FrameOf(f)).invokers[i].tracker;
    assert t.stack == [Unmatched, Unmatched] && t.stack[..1] == [Unmatched];
    assert !HasRoot(t.stack[..1]);
  }

  lemma {:induction false} DelegationFound(m: Manager, i: nat, address: Address, f: AuthorizedFunction)
    requires ManagerInv(m) && m.callStack != [] && Pending(m) == 0 && Awaits(m, i, address, f)
    ensures RequireAuth(PushFrame(m, FrameOf(f)), address, ArgsOf(f), false).Done?
  {
    var e := PushFrame(m, FrameOf(f));
    EnterManager(m, FrameOf(f));
    RequireNeverAborts(e, address, ArgsOf(f), false);
    RequireSucceedsIff(e, address, ArgsOf(f), false);
    AwaitsInside(m, i, address, f);
  }

  lemma AskingCommits(m: Manager, address: Address, f: AuthorizedFunction, b: Manager)
    requires RequireAuth(PushFrame(m, FrameOf(f)), address, ArgsOf(f), false) == Done(b)
    ensures Step(m, Asking(f, address)) == Committed(b)
  {
    RunsOne(PushFrame(m, FrameOf(f)), Require(address, ArgsOf(f), false));
  }

  lemma {:induction false} DelegationGranted(m: Manager, i: nat, address: Address, f: AuthorizedFunction)
    requires ManagerInv(m) && m.callStack != [] && Pending(m) == 0 && Awaits(m, i, address, f)
    ensures var r := Exec(m, [Asking(f, address)]); r.Done? && ManagerInv(r.m) && InsideManager(m, r.m)
  {
    var e := PushFrame(m, FrameOf(f));
    DelegationFound(m, i, address, f);
    var b := RequireAuth(e, address, ArgsOf(f), false).m;
    AskingCommits(m, address, f, b);
    RunsOne(m, Asking(f, address));
    EnterManager(m, FrameOf(f));
    RequireSound(e, address, ArgsOf(f), false);
    CommitSound(m, FrameOf(f), b);
  }

  lemma CallerCommits(m: Manager, called: Address, name: Symbol, inner: Action, b: Manager)
    requires Exec(PushFrame(m, ContractFrame(called, name)), [inner]) == Done(b)
    ensures Step(m, Call(called, name, [inner], false, false)) == Committed(b)
  {
  }

  lemma {:induction false} CalledMakesIt(
    m: Manager, i: nat, address: Address, f: AuthorizedFunction, called: Address, name: Symbol)
    requires ManagerInv(m) && i < |m.invokers| && m.invokers[i].contract == address
    requires m.invokers[i].tracker.stack == [] && Usable(m.invokers[i].tracker.root, f)
    ensures Step(m, Call(called, name, [Asking(f, address)], false, false)).Done?
  {
    var e := PushFrame(m, ContractFrame(called, name));
    EnterManager(m, ContractFrame(called, name));
    assert Awaits(e, i, address, f);
    DelegationGranted(e, i, address, f);
    var b := Exec(e, [Asking(f, address)]).m;
    CallerCommits(m, called, name, Asking(f, address), b);
    CommitSound(m, ContractFrame(called, name), b);
  }

  /**
    * What a contract delegates it can have done: an entry it adds for its next call authorizes the entry's function if
    * the called contract calls it, without any signature, from every state a run can be in.
    */
  lemma {:induction false} DelegatedCallSucceeds(m: Manager, p: Pattern, called: Address, name: Symbol)
    requires ManagerInv(m) && m.callStack != [] && m.callStack[|m.callStack| - 1].ContractFrame?
    ensures var inner := Asking(p.fn, m.callStack[|m.callStack| - 1].contract);
      Exec(m, [Delegate([Some(p)]), Call(called, name, [inner], false, false)]).Done?
  {
    var address := m.callStack[|m.callStack| - 1].contract;
    CreatedSound(m, p);
    DelegatesOne(m, p);
    NewIsUnused(p);
    CalledMakesIt(Created(m, p), |m.invokers|, address, p.fn, called, name);
    RunsTwo(m, Delegate([Some(p)]), Call(called, name, [Asking(p.fn, address)], false, false));
  }
}
