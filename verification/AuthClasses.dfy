/** The matcher and the manager as objects updated in place, each method tied to its transition. */
module AuthClasses {
  import opened Common
  import opened AuthTree
  import opened AuthTracker
  import opened AuthAccount
  import opened AuthManager

  class InvocationTracker {
    var root: Invocation
    var matchStack: seq<MatchState>
    var rootExhaustedFrame: Option<nat>
    var isFullyProcessed: bool

    ghost function View(): Tracker
      reads this
    {
      Tracker(root, matchStack, rootExhaustedFrame, isFullyProcessed)
    }

    constructor (p: Pattern)
      ensures View() == NewTracker(p)
    {
      root := New(p);
      matchStack := [];
      rootExhaustedFrame := None;
      isFullyProcessed := false;
    }

    method PushFrame()
      modifies this
      ensures View() == Push(old(View()))
    {
      matchStack := matchStack + [Unmatched];
    }

    method PopFrame()
      modifies this
      ensures View() == Pop(old(View()))
    {
      if matchStack != [] {
        matchStack := matchStack[..|matchStack| - 1];
      }
      if rootExhaustedFrame.Some? && rootExhaustedFrame.value >= |matchStack| {
        isFullyProcessed := true;
      }
    }

    method IsActiveNow() returns (r: bool)
      ensures r == IsActive(View())
    {
      r := root.exhausted && !isFullyProcessed;
    }

    method CurrentFrameIsAlreadyMatched() returns (r: bool)
      ensures r == CurrentFrameMatched(View())
    {
      r := matchStack != [] && matchStack[|matchStack| - 1] != Unmatched;
    }

    /** The part of the walk below a matched node: a loop over the frames, restarted in each matched child. */
    static method WalkFrom(n: Invocation, stack: seq<MatchState>, from: nat) returns (w: WalkResult)
      requires from <= |stack|
      ensures w == WalkBelow(n, stack[from..])
      decreases |stack| - from
    {
      var i := from;
      while i < |stack|
        invariant from <= i <= |stack|
        invariant WalkBelow(n, stack[from..]) == WalkBelow(n, stack[i..])
      {
        assert stack[i..][1..] == stack[i + 1..];
        match stack[i] {
          case SubMatch(k) =>
            if k >= |n.subs| { return WalkError; }
            var below := WalkFrom(n.subs[k], stack, i + 1);
            return match below case Node(p) => Node([k] + p) case e => e;
          case RootMatch => return WalkError;
          case Unmatched =>
        }
        i := i + 1;
      }
      return Node([]);
    }

    method LastAuthorizedInvocation() returns (w: WalkResult)
      ensures w == Walk(root, matchStack)
    {
      var i := 0;
      while i < |matchStack|
        invariant 0 <= i <= |matchStack|
        invariant Walk(root, matchStack) == Walk(root, matchStack[i..])
      {
        assert matchStack[i..][1..] == matchStack[i + 1..];
        match matchStack[i] {
          case RootMatch => w := WalkFrom(root, matchStack, i + 1); return;
          case SubMatch(_) => return WalkError;
          case Unmatched =>
        }
        i := i + 1;
      }
      return NoRoot;
    }

    static method FindUsable(subs: seq<Invocation>, f: AuthorizedFunction) returns (r: Option<nat>)
      ensures r == FirstUsable(subs, f)
    {
      var i := 0;
      while i < |subs|
        invariant 0 <= i <= |subs|
        invariant FirstUsable(subs, f) == match FirstUsable(subs[i..], f) case None => None case Some(k) => Some(i + k)
      {
        if !subs[i].exhausted && subs[i].fn == f { return Some(i); }
        assert subs[i..][1..] == subs[i + 1..];
        i := i + 1;
      }
      return None;
    }

    /** `None` is the internal error, after which the run is over. */
    method MaybeExtendInvocationMatch(f: AuthorizedFunction, allowMatchingRoot: bool) returns (r: Option<bool>)
      modifies this
      ensures match Extend(old(View()), f, allowMatchingRoot)
              case NoMatch => r == Some(false) && View() == old(View())
              case Matched(u) => r == Some(true) && View() == u
              case InternalError => r == None
    {
      var matched := CurrentFrameIsAlreadyMatched();
      if matched { return Some(false); }
      var walk := LastAuthorizedInvocation();
      match walk {
        case WalkError => return None;
        case NoRoot =>
          if root.exhausted || !allowMatchingRoot || root.fn != f { return Some(false); }
          if matchStack == [] { return None; }
          root := root.(exhausted := true);
          rootExhaustedFrame := Some(|matchStack| - 1);
          matchStack := matchStack[|matchStack| - 1 := RootMatch];
        case Node(p) =>
          WalkEndsInTree(root, matchStack);
          var k := FindUsable(At(root, p).subs, f);
          if k.None? { return Some(false); }
          ChildPath(root, p, k.value);
          root := Exhaust(root, p + [k.value]);
          matchStack := matchStack[|matchStack| - 1 := SubMatch(k.value)];
      }
      return Some(true);
    }

    static method RollbackNode(n: Invocation, s: Snapshot) returns (r: Option<Invocation>)
      ensures r == if Fits(n, s) then Some(Restore(n, s)) else None
      decreases n
    {
      if |n.subs| != |s.subs| { return None; }
      var subs: seq<Invocation> := [];
      while |subs| < |n.subs|
        invariant |subs| <= |n.subs|
        invariant forall i :: 0 <= i < |subs| ==> Fits(n.subs[i], s.subs[i]) && subs[i] == Restore(n.subs[i], s.subs[i])
        decreases |n.subs| - |subs|
      {
        var sub := RollbackNode(n.subs[|subs|], s.subs[|subs|]);
        if sub.None? { return None; }
        subs := subs + [sub.value];
      }
      assert subs == Restore(n, s).subs;
      return Some(Invocation(n.fn, subs, s.exhausted));
    }

    method RollbackTo(s: Snapshot) returns (ok: bool)
      modifies this
      ensures ok == Rollback(old(View()), s).Some?
      ensures ok ==> View() == Rollback(old(View()), s).value
    {
      var r := RollbackNode(root, s);
      if r.None? { return false; }
      root := r.value;
      if !root.exhausted {
        rootExhaustedFrame := None;
        isFullyProcessed := false;
      }
      return true;
    }
  }

  class AccountTracker {
    const address: Address
    const tracker: InvocationTracker
    var verified: bool

    ghost function View(): Account
      reads this, tracker
    {
      Account(address, tracker.View(), verified)
    }

    constructor (address: Address, p: Pattern)
      ensures View() == Account(address, NewTracker(p), false)
      ensures fresh(tracker)
    {
      this.address := address;
      tracker := new InvocationTracker(p);
      verified := false;
    }

    method MaybeAuthorize(f: AuthorizedFunction, allowRoot: bool, authentic: bool) returns (r: Option<Option<bool>>)
      modifies this, tracker
      ensures match Authorize(old(View()), f, allowRoot, authentic)
              case Fault => r == None
              case NotFound => r == Some(Some(false)) && View() == old(View())
              case Granted(b) => r == Some(Some(true)) && View() == b
              case Refused(b) => r == Some(None) && View() == b
    {
      var matched := tracker.MaybeExtendInvocationMatch(f, allowRoot);
      if matched.None? { return None; }
      if !matched.value { return Some(Some(false)); }
      if !verified {
        if !authentic { return Some(None); }
        verified := true;
      }
      return Some(Some(true));
    }

    method RollbackTo(s: AccountSnapshot) returns (ok: bool)
      modifies this, tracker
      ensures ok == RollbackAccount(old(View()), s).Some?
      ensures ok ==> View() == RollbackAccount(old(View()), s).value
    {
      ok := tracker.RollbackTo(s.root);
      if ok { verified := s.verified; }
    }
  }

  /** An invoker's tracker has no state of its own beside the matcher's. */
  datatype InvokerTracker = InvokerTracker(contract: Address, tracker: InvocationTracker) {
    ghost function View(): Invoker
      reads tracker
    {
      Invoker(contract, tracker.View())
    }
  }

  // ---------- vectors of trackers ----------

  ghost function Matchers(ts: seq<AccountTracker>): set<InvocationTracker> {
    set t | t in ts :: t.tracker
  }

  ghost function InvokerMatchers(ts: seq<InvokerTracker>): set<InvocationTracker> {
    set t | t in ts :: t.tracker
  }

  ghost function AccountViews(ts: seq<AccountTracker>): (r: seq<Account>)
    reads ts, Matchers(ts)
    ensures |r| == |ts| && forall i :: 0 <= i < |ts| ==> r[i] == ts[i].View()
  {
    if ts == [] then [] else AccountViews(ts[..|ts| - 1]) + [ts[|ts| - 1].View()]
  }

  ghost function InvokerViews(ts: seq<InvokerTracker>): (r: seq<Invoker>)
    reads InvokerMatchers(ts)
    ensures |r| == |ts| && forall i :: 0 <= i < |ts| ==> r[i] == ts[i].View()
  {
    if ts == [] then [] else InvokerViews(ts[..|ts| - 1]) + [ts[|ts| - 1].View()]
  }

  /** No two accounts share an object. */
  ghost predicate Separate(ts: seq<AccountTracker>) {
    forall i, j :: 0 <= i < |ts| && 0 <= j < |ts| && i != j ==> ts[i] != ts[j] && ts[i].tracker != ts[j].tracker
  }

  ghost predicate SeparateInvokers(ts: seq<InvokerTracker>) {
    forall i, j :: 0 <= i < |ts| && 0 <= j < |ts| && i != j ==> ts[i].tracker != ts[j].tracker
  }

  /** Views read only the objects of their own vector. */
  twostate lemma AccountViewsUnchanged(ts: seq<AccountTracker>)
    requires forall i :: 0 <= i < |ts| ==> unchanged(ts[i]) && unchanged(ts[i].tracker)
    ensures AccountViews(ts) == old(AccountViews(ts))
  {
  }

  twostate lemma InvokerViewsUnchanged(ts: seq<InvokerTracker>)
    requires forall i :: 0 <= i < |ts| ==> unchanged(ts[i].tracker)
    ensures InvokerViews(ts) == old(InvokerViews(ts))
  {
  }

  method PushAllAccounts(ts: seq<AccountTracker>)
    requires Separate(ts)
    modifies Matchers(ts)
    ensures AccountViews(ts) == PushAccounts(old(AccountViews(ts)))
  {
    ghost var before := AccountViews(ts);
    for i := 0 to |ts|
      invariant forall j :: 0 <= j < i ==> ts[j].View() == PushAccount(before[j])
      invariant forall j :: i <= j < |ts| ==> ts[j].View() == before[j]
    {
      ts[i].tracker.PushFrame();
    }
  }

  method PopAllAccounts(ts: seq<AccountTracker>)
    requires Separate(ts)
    modifies Matchers(ts)
    ensures AccountViews(ts) == PopAccounts(old(AccountViews(ts)))
  {
    ghost var before := AccountViews(ts);
    for i := 0 to |ts|
      invariant forall j :: 0 <= j < i ==> ts[j].View() == PopAccount(before[j])
      invariant forall j :: i <= j < |ts| ==> ts[j].View() == before[j]
    {
      ts[i].tracker.PopFrame();
    }
  }

  method PushAllInvokers(ts: seq<InvokerTracker>)
    requires SeparateInvokers(ts)
    modifies InvokerMatchers(ts)
    ensures InvokerViews(ts) == PushInvokers(old(InvokerViews(ts)))
  {
    ghost var before := InvokerViews(ts);
    for i := 0 to |ts|
      invariant forall j :: 0 <= j < i ==> ts[j].View() == before[j].(tracker := Push(before[j].tracker))
      invariant forall j :: i <= j < |ts| ==> ts[j].View() == before[j]
    {
      ts[i].tracker.PushFrame();
    }
  }

  method PopAllInvokers(ts: seq<InvokerTracker>)
    requires SeparateInvokers(ts)
    modifies InvokerMatchers(ts)
    ensures InvokerViews(ts) == PopInvokers(old(InvokerViews(ts)))
  {
    ghost var before := InvokerViews(ts);
    for i := 0 to |ts|
      invariant forall j :: 0 <= j < i ==> ts[j].View() == before[j].(tracker := Pop(before[j].tracker))
      invariant forall j :: i <= j < |ts| ==> ts[j].View() == before[j]
    {
      ts[i].tracker.PopFrame();
    }
  }

  method RollbackAllAccounts(ts: seq<AccountTracker>, snaps: seq<AccountSnapshot>) returns (ok: bool)
    requires Separate(ts) && |ts| == |snaps|
    modifies ts, Matchers(ts)
    ensures ok == RollbackAccounts(old(AccountViews(ts)), snaps).Some?
    ensures ok ==> AccountViews(ts) == RollbackAccounts(old(AccountViews(ts)), snaps).value
  {
    ghost var before := AccountViews(ts);
    for i := 0 to |ts|
      invariant forall j :: 0 <= j < i ==> RollbackAccount(before[j], snaps[j]) == Some(ts[j].View())
      invariant forall j :: i <= j < |ts| ==> ts[j].View() == before[j]
    {
      ok := ts[i].RollbackTo(snaps[i]);
      if !ok { return; }
    }
    ok := true;
  }

  method RollbackAllInvokers(ts: seq<InvokerTracker>, snaps: seq<Snapshot>) returns (ok: bool)
    requires SeparateInvokers(ts) && |ts| == |snaps|
    modifies InvokerMatchers(ts)
    ensures ok == RollbackInvokers(old(InvokerViews(ts)), snaps).Some?
    ensures ok ==> InvokerViews(ts) == RollbackInvokers(old(InvokerViews(ts)), snaps).value
  {
    ghost var before := InvokerViews(ts);
    for i := 0 to |ts|
      invariant forall j :: 0 <= j < i ==> RollbackInvoker(before[j], snaps[j]) == Some(ts[j].View())
      invariant forall j :: i <= j < |ts| ==> ts[j].View() == before[j]
    {
      ok := ts[i].tracker.RollbackTo(snaps[i]);
      if !ok { return; }
    }
    ok := true;
  }

  method SnapshotAllAccounts(ts: seq<AccountTracker>) returns (r: seq<AccountSnapshot>)
    ensures r == SnapshotAccounts(AccountViews(ts))
  {
    r := [];
    while |r| < |ts|
      invariant |r| <= |ts| && forall j :: 0 <= j < |r| ==> r[j] == SnapshotAccount(ts[j].View())
      decreases |ts| - |r|
    {
      r := r + [AccountSnapshot(TakeSnapshot(ts[|r|].tracker.root), ts[|r|].verified)];
    }
  }

  method SnapshotAllInvokers(ts: seq<InvokerTracker>) returns (r: seq<Snapshot>)
    ensures r == SnapshotInvokers(InvokerViews(ts))
  {
    r := [];
    while |r| < |ts|
      invariant |r| <= |ts| && forall j :: 0 <= j < |r| ==> r[j] == TakeSnapshot(ts[j].View().tracker.root)
      decreases |ts| - |r|
    {
      r := r + [TakeSnapshot(ts[|r|].tracker.root)];
    }
  }

  /** `None` is a fault; otherwise whether a tracker of the address matched. */
  method TryInvokers(ts: seq<InvokerTracker>, address: Address, f: AuthorizedFunction) returns (r: Option<bool>)
    requires SeparateInvokers(ts)
    modifies InvokerMatchers(ts)
    ensures match SearchInvokers(old(InvokerViews(ts)), address, f, 0)
            case SearchFault => r == None
            case Absent => r == Some(false) && InvokerViews(ts) == old(InvokerViews(ts))
            case Found(i, invoker) =>
              r == Some(true) && i < |ts| && InvokerViews(ts) == old(InvokerViews(ts))[i := invoker]
  {
    ghost var before := InvokerViews(ts);
    for i := 0 to |ts|
      invariant SearchInvokers(before, address, f, 0) == SearchInvokers(before, address, f, i)
      invariant InvokerViews(ts) == before
    {
      if ts[i].contract == address {
        r := ts[i].tracker.MaybeExtendInvocationMatch(f, true);
        if r != Some(false) { return; }
        assert forall j :: 0 <= j < |ts| ==> ts[j].View() == before[j];
      }
    }
    return Some(false);
  }

  /** A method's answer and the accounts it leaves agree with a search. */
  ghost predicate AnswersSearch(
    r: Option<Option<bool>>, search: AccountSearch, before: seq<Account>, after: seq<Account>)
  {
    match search
    case AccountFault => r == None
    case NoAccount => r == Some(Some(false)) && after == before
    case Granting(i, a) => r == Some(Some(true)) && i < |before| && after == before[i := a]
    case Refusing(i, a) => r == Some(None) && i < |before| && after == before[i := a]
  }

  /** `None` is a fault; `Some(None)` a refusal, a match whose authentication failed. */
  method TryAccounts(ts: seq<AccountTracker>, address: Address, f: AuthorizedFunction, allowRoot: bool, authentic: bool)
    returns (r: Option<Option<bool>>)
    requires Separate(ts)
    modifies ts, Matchers(ts)
    ensures AnswersSearch(
              r, SearchAccounts(old(AccountViews(ts)), address, f, allowRoot, authentic, 0),
              old(AccountViews(ts)), AccountViews(ts))
  {
    ghost var before := AccountViews(ts);
    for i := 0 to |ts|
      invariant SearchAccounts(before, address, f, allowRoot, authentic, 0)
             == SearchAccounts(before, address, f, allowRoot, authentic, i)
      invariant AccountViews(ts) == before
    {
      if ts[i].address == address {
        r := ts[i].MaybeAuthorize(f, allowRoot, authentic);
        assert AccountViews(ts) == before[i := ts[i].View()];
        if r != Some(Some(false)) { return; }
      }
    }
    return Some(Some(false));
  }

  method HasActiveTracker(ts: seq<AccountTracker>, address: Address) returns (r: bool)
    ensures r == HasActive(AccountViews(ts), address)
  {
    for i := 0 to |ts|
      invariant forall j :: 0 <= j < i ==>
        var a := ts[j].View(); !(a.address == address && IsActive(a.tracker) && !CurrentFrameMatched(a.tracker))
    {
      var active := ts[i].tracker.IsActiveNow();
      var matched := ts[i].tracker.CurrentFrameIsAlreadyMatched();
      if ts[i].address == address && active && !matched {
        assert AccountViews(ts)[i].address == address;
        return true;
      }
    }
    return false;
  }

  /** The trailing loop of a pop: what is left of the vector. */
  method WithoutOutOfScope(ts: seq<InvokerTracker>) returns (r: seq<InvokerTracker>)
    ensures r <= ts && InvokerViews(r) == DropOutOfScope(InvokerViews(ts))
  {
    r := ts;
    while r != [] && r[|r| - 1].tracker.matchStack == []
      invariant r <= ts && DropOutOfScope(InvokerViews(r)) == DropOutOfScope(InvokerViews(ts))
      decreases |r|
    {
      assert InvokerViews(r[..|r| - 1]) == InvokerViews(r)[..|r| - 1];
      r := r[..|r| - 1];
    }
  }

  /** One new tracker for each entry, up to the first that does not decode. */
  method WithNewInvokers(ts: seq<InvokerTracker>, contract: Address, entries: seq<Option<Pattern>>)
    returns (ok: bool, r: seq<InvokerTracker>)
    requires SeparateInvokers(ts)
    ensures ts <= r && SeparateInvokers(r) && |r| - |ts| <= |entries|
    ensures forall k :: 0 <= k < |r| - |ts| ==>
      entries[k].Some? && r[|ts| + k].View() == Invoker(contract, NewTracker(entries[k].value))
    ensures forall i :: |ts| <= i < |r| ==> fresh(r[i].tracker)
    ensures if ok then |r| - |ts| == |entries| else |r| - |ts| < |entries| && entries[|r| - |ts|].None?
  {
    r := ts;
    for i := 0 to |entries|
      invariant ts <= r && SeparateInvokers(r) && |r| == |ts| + i
      invariant forall k :: 0 <= k < i ==>
        entries[k].Some? && r[|ts| + k].View() == Invoker(contract, NewTracker(entries[k].value))
      invariant forall j :: |ts| <= j < |r| ==> fresh(r[j].tracker)
    {
      if entries[i].None? { return false, r; }
      var matcher := new InvocationTracker(entries[i].value);
      r := r + [InvokerTracker(contract, matcher)];
    }
    ok := true;
  }
}
