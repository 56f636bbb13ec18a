/** One-shot use of the trees that contracts authorize on the fly for the next call they make. */
module AuthDelegation {
  import opened Common
  import opened AuthTree
  import opened AuthTracker
  import opened AuthManager
  import opened AuthManagerRuns
  import opened AuthManagerTheorems
  import opened AuthDiscipline

  /** What an auditor keeps for one delegated entry: the entry, and the calls it authorized that no rollback undid. */
  datatype Delegated = Delegated(entry: Pattern, granted: seq<AuthorizedFunction>)

  function First(logs: seq<Delegated>, n: nat): seq<Delegated> {
    if n <= |logs| then logs[..n] else logs
  }

  /** The entries that decode before the first malformed one, none of them used. */
  function NewLogs(entries: seq<Option<Pattern>>): (logs: seq<Delegated>)
    ensures |logs| == Decoded(entries)
  {
    if entries == [] || entries[0].None? then [] else [Delegated(entries[0].value, [])] + NewLogs(entries[1..])
  }

  function LoggedRequire(m: Manager, address: Address, args: seq<Val>, logs: seq<Delegated>): seq<Delegated> {
    if |m.callStack| < 2 || DirectInvoker(m, address) then logs
    else match SearchInvokers(m.invokers, address, CurrentFunction(m, args), 0)
      case Found(i, _) =>
        if i < |logs| then logs[i := logs[i].(granted := logs[i].granted + [CurrentFunction(m, args)])] else logs
      case _ => logs
  }

  /** The logs after an action, one for each tracker left; a failed call leaves those before it. */
  function LoggedStep(m: Manager, a: Action, logs: seq<Delegated>): seq<Delegated>
    requires !Step(m, a).Internal?
    decreases a, 1
  {
    match a
    case Require(address, args, authentic) => LoggedRequire(m, address, args, logs)
    case Delegate(entries) =>
      if m.callStack != [] && m.callStack[|m.callStack| - 1].ContractFrame? then logs + NewLogs(entries) else logs
    case Call(contract, name, body, _, _) =>
      if BodyFails(m, a) then First(logs, |Step(m, a).m.invokers|)
      else First(LoggedBody(PushFrame(m, ContractFrame(contract, name)), body, logs), |Step(m, a).m.invokers|)
    case Create(preimage, inner) =>
      First(LoggedBody(PushFrame(m, CreateContractFrame(preimage)), inner, logs), |Step(m, a).m.invokers|)
  }

  function LoggedBody(m: Manager, body: seq<Action>, logs: seq<Delegated>): seq<Delegated>
    requires !Exec(m, body).Internal?
    decreases body, 0
  {
    if body == [] then logs
    else
      var after := LoggedStep(m, body[0], logs);
      match Step(m, body[0]) case Done(b) => LoggedBody(b, body[1..], after) case _ => after
  }

  /** The tree is the delegated entry, and its used nodes are one distinct node for each call it authorized. */
  ghost predicate LogOk(i: Invoker, log: Delegated) {
    Erase(i.tracker.root) == log.entry && exists paths :: UsedExactlyFor(i.tracker.root, log.granted, paths)
  }

  /** One log for each tracker, in order. */
  ghost predicate LogsOk(s: seq<Invoker>, logs: seq<Delegated>) {
    |logs| == |s| && forall k :: 0 <= k < |s| ==> LogOk(s[k], logs[k])
  }

  // ---------- each step ----------

  lemma SameTreesSameLogs(s: seq<Invoker>, u: seq<Invoker>, logs: seq<Delegated>)
    requires LogsOk(s, logs) && |u| <= |s|
    requires forall k :: 0 <= k < |u| ==> u[k].tracker.root == s[k].tracker.root
    ensures LogsOk(u, First(logs, |u|))
  {
    forall k | 0 <= k < |u| ensures LogOk(u[k], logs[k]) { assert LogOk(s[k], logs[k]); }
  }

  lemma PushKeepsLogs(s: seq<Invoker>, logs: seq<Delegated>)
    requires LogsOk(s, logs)
    ensures LogsOk(PushInvokers(s), logs)
  {
    SameTreesSameLogs(s, PushInvokers(s), logs);
    assert logs[..|logs|] == logs;
  }

  /** One more authorized call uses one more node. */
  lemma {:induction false} OneMoreUse(root: Invocation, granted: seq<AuthorizedFunction>, paths: seq<Path>, p: Path)
    requires UsedExactlyFor(root, granted, paths) && ValidPath(root, p) && !At(root, p).exhausted
    ensures UsedExactlyFor(Exhaust(root, p), granted + [At(root, p).fn], paths + [p])
  {
    var used, all, after := granted + [At(root, p).fn], paths + [p], Exhaust(root, p);
    ExhaustSetsOneFlag(root, p);
    ExhaustCounts(root, p);
    forall k | 0 <= k < |all| ensures IsExhausted(after, all[k]) && At(after, all[k]).fn == used[k] {
      EraseDeterminesPaths(root, after, all[k]);
    }
    forall q | IsExhausted(after, q) ensures q in all {
      if q == p { assert all[|paths|] == q; } else { assert q in paths; }
    }
  }

  lemma {:induction false} RequireKeepsLogs(
    m: Manager, address: Address, args: seq<Val>, authentic: bool, logs: seq<Delegated>)
    requires ManagerInv(m) && LogsOk(m.invokers, logs) && !RequireAuth(m, address, args, authentic).Internal?
    ensures LogsOk(RequireAuth(m, address, args, authentic).m.invokers, LoggedRequire(m, address, args, logs))
  {
    var f, s := CurrentFunction(m, args), m.invokers;
    if |m.callStack| >= 2 && !DirectInvoker(m, address) && SearchInvokers(s, address, f, 0).Found? {
      var found := SearchInvokers(s, address, f, 0);
      var i := found.index;
      FoundInvoker(s, address, f, 0);
      UseKeepsLog(s[i], f, found.invoker, logs[i]);
    }
  }

  lemma {:induction false} UseKeepsLog(i: Invoker, f: AuthorizedFunction, u: Invoker, log: Delegated)
    requires Inv(i.tracker) && LogOk(i, log) && Extend(i.tracker, f, true) == Matched(u.tracker)
    ensures LogOk(u, log.(granted := log.granted + [f]))
  {
    var t, p := i.tracker, Indices(u.tracker.stack);
    ExtendInv(t, f, true);
    ExhaustSetsOneFlag(t.root, p);
    var paths :| UsedExactlyFor(t.root, log.granted, paths);
    OneMoreUse(t.root, log.granted, paths, p);
  }

  lemma {:induction false} DelegateKeepsLogs(m: Manager, entries: seq<Option<Pattern>>, logs: seq<Delegated>)
    requires LogsOk(m.invokers, logs) && m.callStack != [] && m.callStack[|m.callStack| - 1].ContractFrame?
    ensures LogsOk(AuthorizeAsCurrent(m, entries).m.invokers, logs + NewLogs(entries))
    decreases |entries|
  {
    if entries == [] || entries[0].None? {
      assert logs + [] == logs;
    } else {
      var b, log := Created(m, entries[0].value), Delegated(entries[0].value, []);
      NewLogOk(b.invokers[|m.invokers|], entries[0].value);
      DelegateKeepsLogs(b, entries[1..], logs + [log]);
      assert logs + [log] + NewLogs(entries[1..]) == logs + NewLogs(entries);
    }
  }

  lemma {:induction false} NewLogOk(i: Invoker, p: Pattern)
    requires i.tracker == NewTracker(p)
    ensures LogOk(i, Delegated(p, []))
  {
    NewIsUnused(p);
    forall q ensures !IsExhausted(New(p), q) { UnusedNowhere(New(p), q); }
    assert UsedExactlyFor(New(p), [], []);
  }

  /** What is left after a frame is popped without a rollback is a front part of the trackers inside it. */
  lemma {:induction false} CommitKeepsLogs(b: Manager, logs: seq<Delegated>)
    requires LogsOk(b.invokers, logs) && b.callStack != []
    ensures PopFrame(b, None).Some?
    ensures var u := PopFrame(b, None).value.invokers; LogsOk(u, First(logs, |u|))
  {
    DropKeepsPrefix(PopInvokers(b.invokers));
    SameTreesSameLogs(b.invokers, PopFrame(b, None).value.invokers, logs);
  }

  lemma {:induction false} UndoneKeepsLogs(m: Manager, logs: seq<Delegated>)
    requires LogsOk(m.invokers, logs)
    ensures var u := CallUndone(m).invokers; LogsOk(u, First(logs, |u|))
  {
    DropKeepsPrefix(m.invokers);
    SameTreesSameLogs(m.invokers, CallUndone(m).invokers, logs);
  }

  // ---------- runs ----------

  lemma {:induction false} StepKeepsLogs(m: Manager, a: Action, logs: seq<Delegated>)
    requires ManagerInv(m) && LogsOk(m.invokers, logs) && !Step(m, a).Internal?
    ensures LogsOk(Step(m, a).m.invokers, LoggedStep(m, a, logs))
    decreases a, 1
  {
    match a
    case Require(address, args, authentic) => RequireKeepsLogs(m, address, args, authentic, logs);
    case Delegate(entries) =>
      if m.callStack != [] && m.callStack[|m.callStack| - 1].ContractFrame? { DelegateKeepsLogs(m, entries, logs); }
    case Call(contract, name, body, _, _) =>
      if BodyFails(m, a) {
        StepSound(m, a);
        UndoneKeepsLogs(m, logs);
      } else {
        InnerKeepsLogs(m, ContractFrame(contract, name), body, logs);
      }
    case Create(preimage, inner) => InnerKeepsLogs(m, CreateContractFrame(preimage), inner, logs);
  }

  lemma {:induction false} InnerKeepsLogs(m: Manager, f: StackFrame, body: seq<Action>, logs: seq<Delegated>)
    requires ManagerInv(m) && LogsOk(m.invokers, logs) && !Exec(PushFrame(m, f), body).Internal?
    ensures var c := PopFrame(Exec(PushFrame(m, f), body).m, None);
      c.Some? && LogsOk(c.value.invokers, First(LoggedBody(PushFrame(m, f), body, logs), |c.value.invokers|))
    decreases body, 1
  {
    var e := PushFrame(m, f);
    EnterManager(m, f);
    PushKeepsLogs(m.invokers, logs);
    BodyKeepsLogs(e, body, logs);
    assert Exec(e, body).m.callStack == e.callStack by { ExecSound(e, body); }
    CommitKeepsLogs(Exec(e, body).m, LoggedBody(e, body, logs));
  }

  lemma {:induction false} BodyKeepsLogs(m: Manager, body: seq<Action>, logs: seq<Delegated>)
    requires ManagerInv(m) && LogsOk(m.invokers, logs) && !Exec(m, body).Internal?
    ensures LogsOk(Exec(m, body).m.invokers, LoggedBody(m, body, logs))
    decreases body, 0
  {
    if body != [] {
      StepKeepsLogs(m, body[0], logs);
      if Step(m, body[0]).Done? {
        StepSound(m, body[0]);
        BodyKeepsLogs(Step(m, body[0]).m, body[1..], LoggedStep(m, body[0], logs));
      }
    }
  }

  /** The logs of a transaction stopped somewhere inside. */
  function LoggedOpen(m: Manager, levels: seq<Level>, last: seq<Action>, logs: seq<Delegated>): seq<Delegated>
    requires !ExecOpen(m, levels, last).Internal?
    decreases |levels|
  {
    if levels == [] then LoggedBody(m, last, logs)
    else
      var after := LoggedBody(m, levels[0].body, logs);
      match Exec(m, levels[0].body)
      case Done(b) => LoggedOpen(PushFrame(b, levels[0].next), levels[1..], last, after)
      case _ => after
  }

  lemma {:induction false} OpenKeepsLogs(m: Manager, levels: seq<Level>, last: seq<Action>, logs: seq<Delegated>)
    requires ManagerInv(m) && LogsOk(m.invokers, logs) && !ExecOpen(m, levels, last).Internal?
    ensures LogsOk(ExecOpen(m, levels, last).m.invokers, LoggedOpen(m, levels, last, logs))
    decreases |levels|
  {
    if levels == [] {
      BodyKeepsLogs(m, last, logs);
    } else {
      var r, after := Exec(m, levels[0].body), LoggedBody(m, levels[0].body, logs);
      BodyKeepsLogs(m, levels[0].body, logs);
      if r.Done? {
        ExecSound(m, levels[0].body);
        EnterManager(r.m, levels[0].next);
        PushKeepsLogs(r.m.invokers, after);
        OpenKeepsLogs(PushFrame(r.m, levels[0].next), levels[1..], last, after);
      }
    }
  }

  /**
    * No delegated entry is used twice: at every point of every transaction, the used nodes of each delegated entry
    * still in force are one distinct node for each call it authorized and no rollback undid, and only its flags have
    * changed.
    */
  lemma {:induction false} DelegationUsesEachNodeOnce(
    entries: seq<(Address, Pattern)>, levels: seq<Level>, last: seq<Action>)
    requires !ExecOpen(NewManager(entries), levels, last).Internal?
    ensures var m := NewManager(entries); LogsOk(ExecOpen(m, levels, last).m.invokers, LoggedOpen(m, levels, last, []))
  {
    NewManagerInv(entries);
    OpenKeepsLogs(NewManager(entries), levels, last, []);
  }
}
