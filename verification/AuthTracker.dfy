/** One incremental matcher of an authorized tree against the call stack, as state and transitions. */
module AuthTracker {
  import opened Common
  import opened AuthTree

  datatype MatchState = Unmatched | RootMatch | SubMatch(indexInParent: nat)

  /** `stack` has one entry for each frame of the call stack. */
  datatype Tracker = Tracker(
    root: Invocation, stack: seq<MatchState>, rootFrame: Option<nat>, processed: bool)

  datatype WalkResult = NoRoot | Node(path: Path) | WalkError

  datatype ExtendResult = NoMatch | Matched(tracker: Tracker) | InternalError

  function NewTracker(p: Pattern): Tracker {
    Tracker(New(p), [], None, false)
  }

  function Push(t: Tracker): Tracker {
    t.(stack := t.stack + [Unmatched])
  }

  function Pop(t: Tracker): Tracker {
    var rest := if t.stack == [] then [] else t.stack[..|t.stack| - 1];
    t.(stack := rest, processed := t.processed || (t.rootFrame.Some? && t.rootFrame.value >= |rest|))
  }

  predicate IsActive(t: Tracker) {
    t.root.exhausted && !t.processed
  }

  predicate CurrentFrameMatched(t: Tracker) {
    t.stack != [] && t.stack[|t.stack| - 1] != Unmatched
  }

  /** The walk below the root match: sub-matches name children, unmatched frames are passed over. */
  function WalkBelow(n: Invocation, s: seq<MatchState>): WalkResult {
    if s == [] then Node([])
    else match s[0]
      case Unmatched => WalkBelow(n, s[1..])
      case RootMatch => WalkError
      case SubMatch(k) =>
        if k < |n.subs| then
          match WalkBelow(n.subs[k], s[1..])
          case Node(p) => Node([k] + p)
          case e => e
        else WalkError
  }

  function Walk(n: Invocation, s: seq<MatchState>): WalkResult {
    if s == [] then NoRoot
    else match s[0]
      case Unmatched => Walk(n, s[1..])
      case RootMatch => WalkBelow(n, s[1..])
      case SubMatch(_) => WalkError
  }

  predicate Usable(n: Invocation, f: AuthorizedFunction) {
    !n.exhausted && n.fn == f
  }

  /** The first child that is unused and authorizes `f`. */
  function FirstUsable(ns: seq<Invocation>, f: AuthorizedFunction): (r: Option<nat>)
    ensures r.Some? ==> r.value < |ns| && Usable(ns[r.value], f) && forall j :: 0 <= j < r.value ==> !Usable(ns[j], f)
    ensures r.None? ==> forall j :: 0 <= j < |ns| ==> !Usable(ns[j], f)
  {
    if ns == [] then None
    else if Usable(ns[0], f) then Some(0)
    else match FirstUsable(ns[1..], f)
      case None => None
      case Some(k) => Some(k + 1)
  }

  lemma {:induction false} WalkEndsInTree(n: Invocation, s: seq<MatchState>)
    ensures WalkBelow(n, s).Node? ==> ValidPath(n, WalkBelow(n, s).path)
    ensures Walk(n, s).Node? ==> ValidPath(n, Walk(n, s).path)
    ensures !WalkBelow(n, s).NoRoot?
  {
    if s != [] {
      WalkEndsInTree(n, s[1..]);
      if s[0].SubMatch? && s[0].indexInParent < |n.subs| { WalkEndsInTree(n.subs[s[0].indexInParent], s[1..]); }
    }
  }

  /**
    * Tries to match `f`: below the deepest matched node when there is one, at the root otherwise.
    * A root match on an empty stack has no entry to record it in; that is the internal error.
    */
  function Extend(t: Tracker, f: AuthorizedFunction, allowRoot: bool): ExtendResult {
    if CurrentFrameMatched(t) then NoMatch
    else
      var top := |t.stack| - 1;
      match Walk(t.root, t.stack)
      case WalkError => InternalError
      case NoRoot =>
        if t.root.exhausted || !allowRoot || t.root.fn != f then NoMatch
        else if t.stack == [] then InternalError
        else Matched(t.(root := t.root.(exhausted := true), rootFrame := Some(top), stack := t.stack[top := RootMatch]))
      case Node(p) =>
        WalkEndsInTree(t.root, t.stack);
        match FirstUsable(At(t.root, p).subs, f)
        case None => NoMatch
        case Some(k) =>
          ChildPath(t.root, p, k);
          Matched(t.(root := Exhaust(t.root, p + [k]), stack := t.stack[top := SubMatch(k)]))
  }

  lemma {:induction false} ChildPath(n: Invocation, p: Path, k: nat)
    requires ValidPath(n, p) && k < |At(n, p).subs|
    ensures ValidPath(n, p + [k])
  {
    FunctionsAlongStep(n, p, k);
  }

  /** `None` is the internal error for a snapshot of another shape. */
  function Rollback(t: Tracker, s: Snapshot): Option<Tracker> {
    if !Fits(t.root, s) then None
    else
      var root := Restore(t.root, s);
      if root.exhausted then Some(t.(root := root))
      else Some(t.(root := root, rootFrame := None, processed := false))
  }

  // ---------- the invariant at operation boundaries ----------

  predicate HasRoot(s: seq<MatchState>) {
    s != [] && (s[|s| - 1] == RootMatch || HasRoot(s[..|s| - 1]))
  }

  /** Where the root match sits. */
  function RootIndex(s: seq<MatchState>): (r: nat)
    requires HasRoot(s)
    ensures r < |s| && s[r] == RootMatch
  {
    if s[|s| - 1] == RootMatch then |s| - 1 else RootIndex(s[..|s| - 1])
  }

  /** `Unmatched*`, or `Unmatched* RootMatch (SubMatch | Unmatched)*`. */
  predicate WellShaped(s: seq<MatchState>) {
    s == [] ||
    var rest := s[..|s| - 1];
    WellShaped(rest) &&
    match s[|s| - 1]
    case Unmatched => true
    case RootMatch => !HasRoot(rest)
    case SubMatch(_) => HasRoot(rest)
  }

  /** The child indices recorded on the stack. */
  function Indices(s: seq<MatchState>): Path {
    if s == [] then []
    else Indices(s[..|s| - 1]) + match s[|s| - 1] case SubMatch(k) => [k] case _ => []
  }

  predicate Inv(t: Tracker) {
    && WellShaped(t.stack)
    && ParentClosed(t.root)
    && if HasRoot(t.stack) then
         && t.rootFrame == Some(RootIndex(t.stack))
         && !t.processed
         && IsExhausted(t.root, Indices(t.stack))
       else if t.root.exhausted then t.processed && t.rootFrame.Some?
       else !t.processed && t.rootFrame.None?
  }

  lemma {:induction false} NewTrackerInv(p: Pattern)
    ensures Inv(NewTracker(p))
  {
    NewIsUnused(p);
  }

  // ---------- the shape of the stack, read off position by position ----------

  lemma {:induction false} ShapeByPosition(s: seq<MatchState>)
    ensures WellShaped(s) <==>
              || (!HasRoot(s) && forall i :: 0 <= i < |s| ==> s[i] == Unmatched)
              || (HasRoot(s) && s[RootIndex(s)] == RootMatch
                  && (forall i :: 0 <= i < RootIndex(s) ==> s[i] == Unmatched)
                  && (forall i :: RootIndex(s) < i < |s| ==> s[i] != RootMatch))
  {
    if s != [] {
      var rest, m := s[..|s| - 1], s[|s| - 1];
      ShapeByPosition(rest);
      assert forall i :: 0 <= i < |rest| ==> s[i] == rest[i];
      if HasRoot(rest) {
        assert s[RootIndex(rest)] == RootMatch;
        assert m != RootMatch ==> RootIndex(s) == RootIndex(rest);
        assert m == RootMatch ==> RootIndex(s) == |s| - 1 && !WellShaped(s);
      } else {
        assert HasRoot(s) <==> m == RootMatch;
        assert m == RootMatch ==> RootIndex(s) == |s| - 1;
        assert m.SubMatch? ==> !WellShaped(s);
      }
    }
  }

  // ---------- the walk never fails, and follows the recorded indices ----------

  lemma {:induction false} WalkBelowAppend(n: Invocation, s: seq<MatchState>, m: MatchState)
    requires WalkBelow(n, s).Node?
    ensures ValidPath(n, WalkBelow(n, s).path)
    ensures m.Unmatched? ==> WalkBelow(n, s + [m]) == WalkBelow(n, s)
    ensures m.SubMatch? && m.indexInParent < |At(n, WalkBelow(n, s).path).subs| ==>
              WalkBelow(n, s + [m]) == Node(WalkBelow(n, s).path + [m.indexInParent])
  {
    WalkEndsInTree(n, s);
    if s == [] {
      assert (s + [m])[1..] == [];
    } else {
      assert (s + [m])[1..] == s[1..] + [m];
      match s[0]
      case Unmatched => WalkBelowAppend(n, s[1..], m);
      case SubMatch(k) => WalkBelowAppend(n.subs[k], s[1..], m);
    }
  }

  lemma {:induction false} WalkAppend(n: Invocation, s: seq<MatchState>, m: MatchState)
    ensures Walk(n, s) == NoRoot && m.Unmatched? ==> Walk(n, s + [m]) == NoRoot
    ensures Walk(n, s) == NoRoot && m.RootMatch? ==> Walk(n, s + [m]) == Node([])
    ensures Walk(n, s).Node? ==> ValidPath(n, Walk(n, s).path)
    ensures Walk(n, s).Node? && m.Unmatched? ==> Walk(n, s + [m]) == Walk(n, s)
    ensures Walk(n, s).Node? && m.SubMatch? && m.indexInParent < |At(n, Walk(n, s).path).subs| ==>
              Walk(n, s + [m]) == Node(Walk(n, s).path + [m.indexInParent])
  {
    if s == [] {
      assert (s + [m])[1..] == [];
    } else {
      assert (s + [m])[1..] == s[1..] + [m];
      WalkAppend(n, s[1..], m);
      WalkEndsInTree(n, s[1..]);
      if s[0].RootMatch? && Walk(n, s).Node? {
        WalkBelowAppend(n, s[1..], m);
      }
    }
  }

  /** The walk depends on the recorded indices alone, and fails on no stack that names a node. */
  lemma {:induction false} WalkFollowsIndices(n: Invocation, s: seq<MatchState>)
    requires WellShaped(s) && ValidPath(n, Indices(s))
    ensures Walk(n, s) == if HasRoot(s) then Node(Indices(s)) else NoRoot
    ensures !HasRoot(s) ==> Indices(s) == []
  {
    if s != [] {
      var rest, m := s[..|s| - 1], s[|s| - 1];
      assert s == rest + [m];
      if m.SubMatch? {
        PrefixPath(n, Indices(rest), m.indexInParent);
      } else {
        assert Indices(s) == Indices(rest);
      }
      WalkFollowsIndices(n, rest);
      WalkAppend(n, rest, m);
    }
  }

  lemma {:induction false} PrefixPath(n: Invocation, p: Path, k: nat)
    requires ValidPath(n, p + [k])
    ensures ValidPath(n, p) && k < |At(n, p).subs|
  {
    if p != [] {
      assert (p + [k])[1..] == p[1..] + [k];
      PrefixPath(n.subs[p[0]], p[1..], k);
    }
  }

  lemma NoRootNoIndices(s: seq<MatchState>)
    requires WellShaped(s) && !HasRoot(s)
    ensures Indices(s) == []
  {
  }

  // ---------- every transition keeps the invariant ----------

  lemma PushInv(t: Tracker)
    requires Inv(t)
    ensures Inv(Push(t))
    ensures HasRoot(Push(t).stack) == HasRoot(t.stack) && Indices(Push(t).stack) == Indices(t.stack)
  {
    var s := Push(t).stack;
    assert s[..|s| - 1] == t.stack;
    assert Indices(s) == Indices(t.stack) + [] == Indices(t.stack);
    assert HasRoot(t.stack) ==> RootIndex(s) == RootIndex(t.stack);
  }

  lemma {:induction false} PopInv(t: Tracker)
    requires Inv(t)
    ensures Inv(Pop(t))
  {
    if t.stack != [] {
      var rest, m := t.stack[..|t.stack| - 1], t.stack[|t.stack| - 1];
      if HasRoot(rest) {
        assert RootIndex(t.stack) == RootIndex(rest);
        if m.SubMatch? {
          AncestorsExhausted(t.root, Indices(rest), [m.indexInParent]);
        } else {
          assert Indices(t.stack) == Indices(rest);
        }
      } else if HasRoot(t.stack) {
        NoRootNoIndices(rest);
        UnusedHasNoExhausted(t.root, Indices(t.stack));
      }
    } else {
    }
  }

  /** What a successful match does: the top frame gets it, one unused node becomes used. */
  ghost predicate Extends(t: Tracker, f: AuthorizedFunction, u: Tracker, p: Path) {
    && |t.stack| == |u.stack| > 0
    && t.stack[|t.stack| - 1] == Unmatched
    && u.stack[..|t.stack| - 1] == t.stack[..|t.stack| - 1]
    && HasRoot(u.stack) && Indices(u.stack) == p
    && ValidPath(t.root, p)
    && !At(t.root, p).exhausted
    && At(t.root, p).fn == f
    && u.root == Exhaust(t.root, p)
    && (t.root.exhausted ==> u.rootFrame == t.rootFrame && HasRoot(t.stack))
    && u.processed == t.processed
    && FunctionsAlong(t.root, p) == (if HasRoot(t.stack) && ValidPath(t.root, Indices(t.stack))
                                     then FunctionsAlong(t.root, Indices(t.stack)) else []) + [f]
  }

  lemma {:induction false} ExtendBelowInv(t: Tracker, f: AuthorizedFunction, allowRoot: bool)
    requires Inv(t) && HasRoot(t.stack) && Extend(t, f, allowRoot).Matched?
    ensures var u := Extend(t, f, allowRoot).tracker; Inv(u) && Extends(t, f, u, Indices(u.stack))
  {
    var u := Extend(t, f, allowRoot).tracker;
    var top := |t.stack| - 1;
    var rest, p := t.stack[..top], Indices(t.stack);
    WalkFollowsIndices(t.root, t.stack);
    var k := u.stack[top].indexInParent;
    assert u.stack[..top] == rest && p == Indices(rest) && HasRoot(rest);
    assert Indices(u.stack) == p + [k] && RootIndex(u.stack) == RootIndex(rest) == RootIndex(t.stack);
    FunctionsAlongStep(t.root, p, k);
    ExhaustSetsOneFlag(t.root, p + [k]);
    assert ParentClosed(u.root) by { ExhaustKeepsParentClosed(t.root, p, k); }
    assert t.root.exhausted by { UnusedHasNoExhausted(t.root, p); }
  }

  lemma {:induction false} ExtendRootInv(t: Tracker, f: AuthorizedFunction, allowRoot: bool)
    requires Inv(t) && !HasRoot(t.stack) && Extend(t, f, allowRoot).Matched?
    ensures var u := Extend(t, f, allowRoot).tracker; Inv(u) && Extends(t, f, u, Indices(u.stack))
  {
    var u := Extend(t, f, allowRoot).tracker;
    NoRootNoIndices(t.stack);
    assert Walk(t.root, t.stack) == NoRoot by { WalkFollowsIndices(t.root, t.stack); }
    var top := |t.stack| - 1;
    var rest := t.stack[..top];
    assert u.stack[..top] == rest && t.stack == rest + [Unmatched] && !HasRoot(rest);
    NoRootNoIndices(rest);
    assert Indices(u.stack) == [];
    forall i | 0 <= i < |t.root.subs| ensures ParentClosed(t.root.subs[i]) { UnusedIsParentClosed(t.root.subs[i]); }
    assert u.root == Exhaust(t.root, []);
    assert IsExhausted(u.root, []);
  }

  lemma {:induction false} ExtendInv(t: Tracker, f: AuthorizedFunction, allowRoot: bool)
    requires Inv(t)
    ensures Extend(t, f, allowRoot).Matched? ==>
              var u := Extend(t, f, allowRoot).tracker;
              Inv(u) && Extends(t, f, u, Indices(u.stack))
  {
    if Extend(t, f, allowRoot).Matched? {
      if HasRoot(t.stack) { ExtendBelowInv(t, f, allowRoot); } else { ExtendRootInv(t, f, allowRoot); }
    }
  }

  /** The only internal error of a match: the root would match while the stack is empty. */
  lemma {:induction false} ExtendErrorIff(t: Tracker, f: AuthorizedFunction, allowRoot: bool)
    requires Inv(t)
    ensures Extend(t, f, allowRoot).InternalError? <==> t.stack == [] && allowRoot && Usable(t.root, f)
    ensures !Walk(t.root, t.stack).WalkError?
  {
    if HasRoot(t.stack) {
      WalkFollowsIndices(t.root, t.stack);
    } else {
      NoRootNoIndices(t.stack);
      WalkFollowsIndices(t.root, t.stack);
    }
  }

  /** A tracker is active exactly while its root match is on the stack, at the frame it recorded. */
  lemma {:induction false} ActiveIff(t: Tracker)
    requires Inv(t)
    ensures IsActive(t) <==>
              t.rootFrame.Some? && t.rootFrame.value < |t.stack| && t.stack[t.rootFrame.value] == RootMatch
    ensures IsActive(t) <==> RootMatch in t.stack
  {
    ShapeByPosition(t.stack);
    if HasRoot(t.stack) {
      UnusedHasNoExhausted(t.root, Indices(t.stack));
      assert t.stack[RootIndex(t.stack)] == RootMatch;
    }
  }

  // ---------- what cannot change while a frame is on top ----------

  /** `u` is reached from `t` inside `t`'s top frame. */
  ghost predicate Inside(t: Tracker, u: Tracker) {
    && |t.stack| == |u.stack|
    && (t.stack != [] ==> t.stack[..|t.stack| - 1] == u.stack[..|t.stack| - 1])
    && Erase(t.root) == Erase(u.root)
    && (t.root.exhausted ==> u.root.exhausted && u.rootFrame == t.rootFrame && HasRoot(u.stack) == HasRoot(t.stack))
  }

  lemma InsideTrans(t: Tracker, u: Tracker, v: Tracker)
    requires Inside(t, u) && Inside(u, v)
    ensures Inside(t, v)
  {
  }

  lemma {:induction false} ExtendInside(t: Tracker, f: AuthorizedFunction, u: Tracker, p: Path)
    requires Inv(t) && Inv(u) && Extends(t, f, u, p)
    ensures Inside(t, u)
  {
    ExhaustSetsOneFlag(t.root, p);
    UnusedCannotMatch(t);
    UnusedCannotMatch(u);
  }

  lemma UnusedCannotMatch(t: Tracker)
    requires Inv(t)
    ensures HasRoot(t.stack) ==> t.root.exhausted
    ensures t.root.exhausted ==> (t.processed <==> !HasRoot(t.stack))
  {
    if HasRoot(t.stack) { UnusedHasNoExhausted(t.root, Indices(t.stack)); }
  }

  lemma {:induction false} InsidePop(t: Tracker, u: Tracker)
    requires Inv(t) && Inv(u) && Inside(Push(t), u)
    ensures Pop(u).stack == t.stack && Inside(t, Pop(u))
  {
    assert Push(t).stack[..|t.stack|] == t.stack;
    PushInv(t);
  }

  /** Rolling back to the snapshot taken on entry, then leaving, gives back the tracker before the entry. */
  lemma {:induction false} RollbackPopExact(t: Tracker, u: Tracker)
    requires Inv(t) && Inv(u) && Inside(Push(t), u)
    ensures Rollback(u, TakeSnapshot(Push(t).root)).Some?
    ensures Pop(Rollback(u, TakeSnapshot(Push(t).root)).value) == t
  {
    RestoreExact(t.root, u.root);
    InsidePop(t, u);
    PushInv(t);
    UnusedCannotMatch(t);
    UnusedCannotMatch(u);
  }
}
