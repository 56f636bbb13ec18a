/** Whole runs of one account's tracker: nested frames, each kept or rolled back, and matches inside them. */
module AuthRuns {
  import opened Common
  import opened AuthTree
  import opened AuthTracker
  import opened AuthAccount

  datatype Act =
    | Try(f: AuthorizedFunction, allowRoot: bool, authentic: bool)
    | Frame(body: seq<Act>, commit: bool)

  /** One use of an authorization: which node, for which invocation. */
  datatype Match = Match(path: Path, fn: AuthorizedFunction)

  /**
    * An account with the history an auditor would keep: the matches not undone so far, oldest first, and for each
    * open frame the function matched in it. A match is a grant, unless authentication was refused; then it stays until
    * the failing frame is rolled back.
    */
  datatype Audited = Audited(account: Account, matches: seq<Match>, frames: seq<Option<AuthorizedFunction>>)

  function Fresh(address: Address, p: Pattern): Audited {
    Audited(Account(address, NewTracker(p), false), [], [])
  }

  function Enter(a: Audited): Audited {
    a.(account := PushAccount(a.account), frames := a.frames + [None])
  }

  function Leave(a: Audited): Audited {
    a.(account := PopAccount(a.account), frames := if a.frames == [] then [] else a.frames[..|a.frames| - 1])
  }

  /** Back to the snapshot; the matches made since are undone. */
  function Undo(a: Audited, s: AccountSnapshot, matches: nat): Option<Audited> {
    match RollbackAccount(a.account, s)
    case None => None
    case Some(b) => if matches <= |a.matches| then Some(a.(account := b, matches := a.matches[..matches])) else None
  }

  function RunTry(a: Audited, f: AuthorizedFunction, allowRoot: bool, authentic: bool): Option<Audited> {
    match Authorize(a.account, f, allowRoot, authentic)
    case Fault => None
    case NotFound => Some(a)
    case Granted(b) => Some(Recorded(a, b, f))
    case Refused(b) => Some(Recorded(a, b, f))
  }

  function Recorded(a: Audited, b: Account, f: AuthorizedFunction): Audited {
    Audited(b, a.matches + [Match(Indices(b.tracker.stack), f)],
            if a.frames == [] then [] else a.frames[|a.frames| - 1 := Some(f)])
  }

  function RunAct(a: Audited, act: Act): Option<Audited>
    decreases act, 1
  {
    match act
    case Try(f, allowRoot, authentic) => RunTry(a, f, allowRoot, authentic)
    case Frame(body, commit) =>
      match Run(Enter(a), body)
      case None => None
      case Some(b) =>
        if commit then Some(Leave(b))
        else match Undo(b, SnapshotAccount(Enter(a).account), |a.matches|)
          case None => None
          case Some(c) => Some(Leave(c))
  }

  function Run(a: Audited, body: seq<Act>): Option<Audited>
    decreases body, 0
  {
    if body == [] then Some(a)
    else match RunAct(a, body[0])
      case None => None
      case Some(b) => Run(b, body[1..])
  }

  // ---------- what every run keeps ----------

  /** The functions matched in the open frames, outermost first. */
  function Spelled(frames: seq<Option<AuthorizedFunction>>): seq<AuthorizedFunction> {
    if frames == [] then []
    else Spelled(frames[..|frames| - 1]) +
         match frames[|frames| - 1] case None => [] case Some(f) => [f]
  }

  ghost predicate MatchesAreExhaustedNodes(root: Invocation, matches: seq<Match>) {
    && (forall i :: 0 <= i < |matches| ==>
          IsExhausted(root, matches[i].path) && At(root, matches[i].path).fn == matches[i].fn)
    && (forall p :: IsExhausted(root, p) ==> exists i :: 0 <= i < |matches| && matches[i].path == p)
    && (forall i, j :: 0 <= i < j < |matches| ==> matches[i].path != matches[j].path)
    && |matches| == CountExhausted(root)
  }

  ghost predicate FramesMatchStack(t: Tracker, frames: seq<Option<AuthorizedFunction>>) {
    && |frames| == |t.stack|
    && (forall i :: 0 <= i < |frames| ==> (frames[i].None? <==> t.stack[i] == Unmatched))
    && (if HasRoot(t.stack) then
          ValidPath(t.root, Indices(t.stack)) && Spelled(frames) == FunctionsAlong(t.root, Indices(t.stack))
        else Spelled(frames) == [])
  }

  ghost predicate AuditInv(a: Audited) {
    && Inv(a.account.tracker)
    && MatchesAreExhaustedNodes(a.account.tracker.root, a.matches)
    && FramesMatchStack(a.account.tracker, a.frames)
  }

  /** `b` is reached from `a` inside `a`'s top frame. */
  ghost predicate Within(a: Audited, b: Audited) {
    && a.account.address == b.account.address
    && Inside(a.account.tracker, b.account.tracker)
    && |a.frames| == |b.frames|
    && (a.frames != [] ==> a.frames[..|a.frames| - 1] == b.frames[..|a.frames| - 1])
    && a.matches <= b.matches
  }

  /** Outside every frame nothing is matched. */
  predicate Runnable(a: Audited, body: seq<Act>) {
    a.account.tracker.stack != [] || forall i :: 0 <= i < |body| ==> body[i].Frame?
  }

  lemma FreshInv(address: Address, p: Pattern)
    ensures AuditInv(Fresh(address, p))
  {
    NewIsUnused(p);
    NewTrackerInv(p);
    forall q ensures !IsExhausted(New(p), q) { UnusedNowhere(New(p), q); }
  }

  lemma EnterInv(a: Audited)
    requires AuditInv(a)
    ensures AuditInv(Enter(a))
  {
    PushInv(a.account.tracker);
    var fs := Enter(a).frames;
    assert fs[..|fs| - 1] == a.frames;
  }

  /** What popping a frame does to the matched path and to the functions along it. */
  lemma {:induction false} LeaveSpelled(t: Tracker, frames: seq<Option<AuthorizedFunction>>)
    requires Inv(t) && FramesMatchStack(t, frames) && t.stack != []
    ensures var rest, fs := t.stack[..|t.stack| - 1], frames[..|t.stack| - 1];
      if HasRoot(rest) then ValidPath(t.root, Indices(rest)) && Spelled(fs) == FunctionsAlong(t.root, Indices(rest))
      else Spelled(fs) == []
  {
    var rest, top := t.stack[..|t.stack| - 1], t.stack[|t.stack| - 1];
    var fs := frames[..|t.stack| - 1];
    match top
    case SubMatch(k) =>
      PrefixPath(t.root, Indices(rest), k);
      FunctionsAlongStep(t.root, Indices(rest), k);
      assert Spelled(frames) == Spelled(fs) + [frames[|fs|].value];
      assert Spelled(fs) == Spelled(frames)[..|Spelled(fs)|];
    case RootMatch =>
      NoRootNoIndices(rest);
      assert Spelled(frames) == Spelled(fs) + [frames[|fs|].value];
      assert |FunctionsAlong(t.root, [])| == 1;
    case Unmatched =>
      assert Indices(t.stack) == Indices(rest);
      assert Spelled(frames) == Spelled(fs);
  }

  lemma {:induction false} LeaveInv(a: Audited)
    requires AuditInv(a)
    ensures AuditInv(Leave(a))
  {
    var t := a.account.tracker;
    PopInv(t);
    if t.stack != [] {
      LeaveSpelled(t, a.frames);
      assert Pop(t).stack == t.stack[..|t.stack| - 1] && Leave(a).frames == a.frames[..|t.stack| - 1];
    }
  }

  /** One more match, on a node that was unused. */
  lemma {:induction false} MatchAdded(root: Invocation, matches: seq<Match>, p: Path)
    requires MatchesAreExhaustedNodes(root, matches) && ValidPath(root, p) && !At(root, p).exhausted
    ensures MatchesAreExhaustedNodes(Exhaust(root, p), matches + [Match(p, At(root, p).fn)])
  {
    var m, all := Exhaust(root, p), matches + [Match(p, At(root, p).fn)];
    ExhaustSetsOneFlag(root, p);
    ExhaustCounts(root, p);
    forall i | 0 <= i < |all| ensures IsExhausted(m, all[i].path) && At(m, all[i].path).fn == all[i].fn {
      EraseDeterminesPaths(root, m, all[i].path);
    }
    forall q | IsExhausted(m, q) ensures exists i :: 0 <= i < |all| && all[i].path == q {
      if q == p {
        assert all[|matches|].path == q;
      } else {
        var i :| 0 <= i < |matches| && matches[i].path == q;
        assert all[i].path == q;
      }
    }
  }

  /** What a match writes into the history keeps the audit invariant. */
  lemma {:induction false} RecordedInv(a: Audited, b: Account, f: AuthorizedFunction)
    requires AuditInv(a) && Inv(b.tracker) && b.address == a.account.address
    requires Extends(a.account.tracker, f, b.tracker, Indices(b.tracker.stack))
    ensures AuditInv(Recorded(a, b, f)) && Within(a, Recorded(a, b, f))
  {
    var t, u, p := a.account.tracker, b.tracker, Indices(b.tracker.stack);
    MatchAdded(t.root, a.matches, p);
    ExhaustSetsOneFlag(t.root, p);
    EraseDeterminesPaths(t.root, u.root, p);
    ExtendInside(t, f, u, p);
    FrameMatched(t, u, a.frames, f);
  }

  lemma {:induction false} SpelledTop(frames: seq<Option<AuthorizedFunction>>, f: AuthorizedFunction)
    requires frames != [] && frames[|frames| - 1].None?
    ensures Spelled(frames[|frames| - 1 := Some(f)]) == Spelled(frames) + [f]
  {
    var top := |frames| - 1;
    assert frames[top := Some(f)][..top] == frames[..top];
    assert Spelled(frames) == Spelled(frames[..top]) + [];
  }

  lemma MarksFollow(t: Tracker, u: Tracker, frames: seq<Option<AuthorizedFunction>>, f: AuthorizedFunction)
    requires |frames| == |t.stack| == |u.stack| > 0
    requires var top := |frames| - 1; u.stack[..top] == t.stack[..top] && u.stack[top] != Unmatched
    requires forall i :: 0 <= i < |frames| ==> (frames[i].None? <==> t.stack[i] == Unmatched)
    ensures var after := frames[|frames| - 1 := Some(f)];
      forall i :: 0 <= i < |frames| ==> (after[i].None? <==> u.stack[i] == Unmatched)
  {
    var top := |frames| - 1;
    forall i | 0 <= i < top ensures u.stack[i] == t.stack[i] {
      assert u.stack[..top][i] == t.stack[..top][i];
    }
  }

  lemma {:induction false} FrameMatched(
    t: Tracker, u: Tracker, frames: seq<Option<AuthorizedFunction>>, f: AuthorizedFunction)
    requires Inv(t) && Inv(u) && FramesMatchStack(t, frames) && Extends(t, f, u, Indices(u.stack))
    requires ValidPath(u.root, Indices(u.stack))
    requires FunctionsAlong(u.root, Indices(u.stack)) == FunctionsAlong(t.root, Indices(u.stack))
    ensures FramesMatchStack(u, frames[|frames| - 1 := Some(f)])
  {
    SpelledTop(frames, f);
    MarksFollow(t, u, frames, f);
  }

  /** Rolling back a frame and leaving it returns exactly to the state before it was entered. */
  lemma {:induction false} UndoExact(a: Audited, b: Audited)
    requires AuditInv(a) && AuditInv(b) && Within(Enter(a), b)
    ensures var r := Undo(b, SnapshotAccount(Enter(a).account), |a.matches|);
            r.Some? && Leave(r.value) == a
  {
    RollbackPopExact(a.account.tracker, b.account.tracker);
    assert Enter(a).frames[..|a.frames|] == a.frames;
    assert b.matches[..|a.matches|] == a.matches;
  }

  lemma {:induction false} WithinAfterLeave(a: Audited, b: Audited)
    requires AuditInv(a) && AuditInv(b) && Within(Enter(a), b)
    ensures Within(a, Leave(b))
  {
    InsidePop(a.account.tracker, b.account.tracker);
    assert Enter(a).frames[..|a.frames|] == a.frames;
  }

  lemma WithinTrans(a: Audited, b: Audited, c: Audited)
    requires Within(a, b) && Within(b, c)
    ensures Within(a, c)
  {
    InsideTrans(a.account.tracker, b.account.tracker, c.account.tracker);
  }

  lemma {:induction false} TrySound(a: Audited, f: AuthorizedFunction, allowRoot: bool, authentic: bool)
    requires AuditInv(a) && a.account.tracker.stack != []
    ensures var r := RunTry(a, f, allowRoot, authentic); r.Some? && AuditInv(r.value) && Within(a, r.value)
  {
    AuthorizeMatches(a.account, f, allowRoot, authentic);
    var r := Authorize(a.account, f, allowRoot, authentic);
    if r.Granted? || r.Refused? { RecordedInv(a, r.account, f); }
  }

  /**
    * Every run, however frames nest and fail, meets no internal error, keeps the audit invariant, and a frame that
    * is rolled back leaves no trace.
    */
  lemma {:induction false} RunActSound(a: Audited, act: Act)
    requires AuditInv(a) && Runnable(a, [act])
    ensures RunAct(a, act).Some? && AuditInv(RunAct(a, act).value) && Within(a, RunAct(a, act).value)
    ensures act.Frame? && !act.commit ==> RunAct(a, act).value == a
    decreases act, 1
  {
    match act
    case Try(f, allowRoot, authentic) =>
      assert [act][0].Try?;
      TrySound(a, f, allowRoot, authentic);
    case Frame(body, commit) =>
      EnterInv(a);
      RunSound(Enter(a), body);
      var b := Run(Enter(a), body).value;
      if commit {
        LeaveInv(b);
        WithinAfterLeave(a, b);
      } else {
        UndoExact(a, b);
      }
  }

  lemma {:induction false} RunSound(a: Audited, body: seq<Act>)
    requires AuditInv(a) && Runnable(a, body)
    ensures Run(a, body).Some? && AuditInv(Run(a, body).value) && Within(a, Run(a, body).value)
    decreases body, 0
  {
    if body != [] {
      RunActSound(a, body[0]);
      var b := RunAct(a, body[0]).value;
      RunSound(b, body[1..]);
      WithinTrans(a, b, Run(a, body).value);
    }
  }

  // ---------- every boundary of every run ----------

  /** A run stopped somewhere inside: `levels[i]` has been executed in the i-th open frame. */
  function RunOpen(a: Audited, levels: seq<seq<Act>>): Option<Audited>
    decreases |levels|
  {
    if levels == [] then Some(a)
    else match Run(a, levels[0])
      case None => None
      case Some(b) => if |levels| == 1 then Some(b) else RunOpen(Enter(b), levels[1..])
  }

  lemma {:induction false} RunOpenSound(a: Audited, levels: seq<seq<Act>>)
    requires AuditInv(a) && (levels != [] ==> Runnable(a, levels[0]))
    ensures RunOpen(a, levels).Some? && AuditInv(RunOpen(a, levels).value)
    ensures Erase(RunOpen(a, levels).value.account.tracker.root) == Erase(a.account.tracker.root)
    decreases |levels|
  {
    if levels != [] {
      RunSound(a, levels[0]);
      var b := Run(a, levels[0]).value;
      if |levels| > 1 {
        EnterInv(b);
        RunOpenSound(Enter(b), levels[1..]);
      }
    }
  }

  lemma {:induction false} BoundaryShape(t: Tracker)
    requires Inv(t)
    ensures forall i :: 0 <= i < |t.stack| && t.stack[i] == RootMatch ==>
              && t.rootFrame == Some(i)
              && (forall j :: 0 <= j < i ==> t.stack[j] == Unmatched)
              && (forall j :: i < j < |t.stack| ==> t.stack[j] != RootMatch)
    ensures RootMatch !in t.stack ==> forall j :: 0 <= j < |t.stack| ==> t.stack[j] == Unmatched
    ensures IsActive(t) <==> RootMatch in t.stack
  {
    ShapeByPosition(t.stack);
    ActiveIff(t);
  }

  lemma {:induction false} BoundaryWalk(b: Audited)
    requires AuditInv(b)
    ensures var t := b.account.tracker;
      && !Walk(t.root, t.stack).WalkError?
      && (Walk(t.root, t.stack).Node? ==>
            && IsExhausted(t.root, Walk(t.root, t.stack).path)
            && FunctionsAlong(t.root, Walk(t.root, t.stack).path) == Spelled(b.frames))
      && (Walk(t.root, t.stack).NoRoot? ==> Spelled(b.frames) == [])
  {
    var t := b.account.tracker;
    if !HasRoot(t.stack) { NoRootNoIndices(t.stack); }
    WalkFollowsIndices(t.root, t.stack);
  }

  /**
    * At every point of every run of a fresh tracker: no internal error has occurred; the stack has the documented
    * shape; its matched entries lead from the root to a used node through the functions matched in the open frames,
    * in order; and the tracker is active exactly while its root match is on the stack.
    */
  lemma {:induction false} StackAtEveryBoundary(address: Address, p: Pattern, levels: seq<seq<Act>>)
    requires levels != [] ==> Runnable(Fresh(address, p), levels[0])
    ensures RunOpen(Fresh(address, p), levels).Some?
    ensures
      var b := RunOpen(Fresh(address, p), levels).value;
      var t := b.account.tracker;
      && (forall i :: 0 <= i < |t.stack| && t.stack[i] == RootMatch ==>
            && t.rootFrame == Some(i)
            && (forall j :: 0 <= j < i ==> t.stack[j] == Unmatched)
            && (forall j :: i < j < |t.stack| ==> t.stack[j] != RootMatch))
      && (RootMatch !in t.stack ==> forall j :: 0 <= j < |t.stack| ==> t.stack[j] == Unmatched)
      && !Walk(t.root, t.stack).WalkError?
      && (Walk(t.root, t.stack).Node? ==>
            && IsExhausted(t.root, Walk(t.root, t.stack).path)
            && FunctionsAlong(t.root, Walk(t.root, t.stack).path) == Spelled(b.frames))
      && (Walk(t.root, t.stack).NoRoot? ==> Spelled(b.frames) == [])
      && (IsActive(t) <==> RootMatch in t.stack)
  {
    FreshInv(address, p);
    RunOpenSound(Fresh(address, p), levels);
    var b := RunOpen(Fresh(address, p), levels).value;
    BoundaryShape(b.account.tracker);
    BoundaryWalk(b);
  }

  /**
    * No authorization is used twice: at every point of every run the used nodes are exactly the nodes of the matches
    * not undone by a rollback, one node a match, each for the function the node authorizes; a used node's ancestors
    * are used; and nothing but the flags has changed.
    */
  lemma {:induction false} NoAuthorizationUsedTwice(address: Address, p: Pattern, levels: seq<seq<Act>>)
    requires levels != [] ==> Runnable(Fresh(address, p), levels[0])
    ensures RunOpen(Fresh(address, p), levels).Some?
    ensures
      var b := RunOpen(Fresh(address, p), levels).value;
      var root := b.account.tracker.root;
      && CountExhausted(root) == |b.matches|
      && (forall i, j :: 0 <= i < j < |b.matches| ==> b.matches[i].path != b.matches[j].path)
      && (forall i :: 0 <= i < |b.matches| ==>
            IsExhausted(root, b.matches[i].path) && At(root, b.matches[i].path).fn == b.matches[i].fn)
      && (forall q :: IsExhausted(root, q) ==> exists i :: 0 <= i < |b.matches| && b.matches[i].path == q)
      && (forall q, r :: IsExhausted(root, q + r) ==> IsExhausted(root, q))
      && Erase(root) == p
  {
    FreshInv(address, p);
    RunOpenSound(Fresh(address, p), levels);
    NewIsUnused(p);
    var root := RunOpen(Fresh(address, p), levels).value.account.tracker.root;
    forall q, r | IsExhausted(root, q + r) ensures IsExhausted(root, q) { AncestorsExhausted(root, q, r); }
  }

  /**
    * Rolling a frame back is exact: from any point of any run, entering a frame, running anything in it, rolling back
    * and leaving gives back the whole state - flags, stack, root frame, both status flags, and the matches.
    */
  lemma {:induction false} FrameRollbackExact(address: Address, p: Pattern, levels: seq<seq<Act>>, body: seq<Act>)
    requires levels != [] ==> Runnable(Fresh(address, p), levels[0])
    ensures RunOpen(Fresh(address, p), levels).Some?
    ensures var b := RunOpen(Fresh(address, p), levels).value; RunAct(b, Frame(body, false)) == Some(b)
  {
    FreshInv(address, p);
    RunOpenSound(Fresh(address, p), levels);
    RunActSound(RunOpen(Fresh(address, p), levels).value, Frame(body, false));
  }
}
