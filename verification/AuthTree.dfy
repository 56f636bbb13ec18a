/** Trees of authorized invocations: what an address signed, and which of its nodes have been used. */
module AuthTree {

  datatype Address = AccountId(key: nat) | ContractId(hash: nat)
  type Symbol = string
  type Val = int

  /** The invocation a node authorizes; equality plays the role of the host's `compare`. */
  datatype AuthorizedFunction =
    | ContractFn(contract: Address, name: Symbol, args: seq<Val>)
    | CreateContractHostFn(preimage: Val)

  /** The tree as an authorization entry lists it, before any of it is used. */
  datatype Pattern = Pattern(fn: AuthorizedFunction, subs: seq<Pattern>)

  datatype Invocation = Invocation(fn: AuthorizedFunction, subs: seq<Invocation>, exhausted: bool)

  /** The mutable part of an `Invocation`. */
  datatype Snapshot = Snapshot(exhausted: bool, subs: seq<Snapshot>)

  /** A node of a tree, named by the child indices leading to it from the root. */
  type Path = seq<nat>

  function New(p: Pattern): Invocation {
    Invocation(p.fn, seq(|p.subs|, i requires 0 <= i < |p.subs| => New(p.subs[i])), false)
  }

  /** The tree without its flags. */
  function Erase(n: Invocation): Pattern {
    Pattern(n.fn, seq(|n.subs|, i requires 0 <= i < |n.subs| => Erase(n.subs[i])))
  }

  function TakeSnapshot(n: Invocation): Snapshot {
    Snapshot(n.exhausted, seq(|n.subs|, i requires 0 <= i < |n.subs| => TakeSnapshot(n.subs[i])))
  }

  /** The tree and the snapshot have the same shape; otherwise `rollback` reports an internal error. */
  predicate Fits(n: Invocation, s: Snapshot) {
    |n.subs| == |s.subs| && forall i :: 0 <= i < |n.subs| ==> Fits(n.subs[i], s.subs[i])
  }

  function Restore(n: Invocation, s: Snapshot): Invocation
    requires Fits(n, s)
  {
    Invocation(
      n.fn,
      seq(|n.subs|, i requires 0 <= i < |n.subs| => Restore(n.subs[i], s.subs[i])),
      s.exhausted)
  }

  predicate ValidPath(n: Invocation, p: Path) {
    p == [] || (p[0] < |n.subs| && ValidPath(n.subs[p[0]], p[1..]))
  }

  function At(n: Invocation, p: Path): Invocation
    requires ValidPath(n, p)
  {
    if p == [] then n else At(n.subs[p[0]], p[1..])
  }

  predicate IsExhausted(n: Invocation, p: Path) {
    ValidPath(n, p) && At(n, p).exhausted
  }

  /** Marks the node at `p` as used. */
  function Exhaust(n: Invocation, p: Path): Invocation
    requires ValidPath(n, p)
  {
    if p == [] then n.(exhausted := true)
    else n.(subs := n.subs[p[0] := Exhaust(n.subs[p[0]], p[1..])])
  }

  /** No node of the tree has been used. */
  predicate Unused(n: Invocation) {
    !n.exhausted && forall i :: 0 <= i < |n.subs| ==> Unused(n.subs[i])
  }

  /** A used node has a used parent. */
  predicate ParentClosed(n: Invocation) {
    if n.exhausted then forall i :: 0 <= i < |n.subs| ==> ParentClosed(n.subs[i]) else Unused(n)
  }

  function CountExhausted(n: Invocation): nat {
    (if n.exhausted then 1 else 0) + CountAll(n.subs)
  }

  function CountAll(ns: seq<Invocation>): nat {
    if ns == [] then 0 else CountExhausted(ns[0]) + CountAll(ns[1..])
  }

  /** The functions of the nodes visited from the root down to `p`. */
  function FunctionsAlong(n: Invocation, p: Path): seq<AuthorizedFunction>
    requires ValidPath(n, p)
  {
    [n.fn] + if p == [] then [] else FunctionsAlong(n.subs[p[0]], p[1..])
  }

  // ---------- flags and shape ----------

  lemma {:induction false} NewIsUnused(p: Pattern)
    ensures Unused(New(p)) && ParentClosed(New(p)) && Erase(New(p)) == p && CountExhausted(New(p)) == 0
  {
    forall i | 0 <= i < |p.subs| ensures
        Unused(New(p.subs[i])) && Erase(New(p.subs[i])) == p.subs[i] && CountExhausted(New(p.subs[i])) == 0 {
      NewIsUnused(p.subs[i]);
    }
    assert Erase(New(p)).subs == p.subs;
    CountAllZero(New(p).subs);
  }

  lemma {:induction false} CountAllZero(ns: seq<Invocation>)
    requires forall i :: 0 <= i < |ns| ==> CountExhausted(ns[i]) == 0
    ensures CountAll(ns) == 0
  {
    if ns != [] { CountAllZero(ns[1..]); }
  }

  /** A snapshot undoes every change of flags: only the shape of the tree matters. */
  lemma {:induction false} RestoreExact(n: Invocation, m: Invocation)
    requires Erase(n) == Erase(m)
    ensures Fits(m, TakeSnapshot(n)) && Restore(m, TakeSnapshot(n)) == n
  {
    assert |Erase(n).subs| == |Erase(m).subs|;
    forall i | 0 <= i < |n.subs|
      ensures Fits(m.subs[i], TakeSnapshot(n.subs[i])) && Restore(m.subs[i], TakeSnapshot(n.subs[i])) == n.subs[i]
    {
      assert Erase(n).subs[i] == Erase(m).subs[i];
      RestoreExact(n.subs[i], m.subs[i]);
    }
    assert Restore(m, TakeSnapshot(n)).subs == n.subs;
  }

  lemma {:induction false} EraseDeterminesPaths(n: Invocation, m: Invocation, p: Path)
    requires Erase(n) == Erase(m) && ValidPath(n, p)
    ensures ValidPath(m, p) && Erase(At(n, p)) == Erase(At(m, p))
    ensures FunctionsAlong(n, p) == FunctionsAlong(m, p)
  {
    assert |Erase(n).subs| == |Erase(m).subs|;
    if p != [] {
      assert Erase(n).subs[p[0]] == Erase(m).subs[p[0]];
      EraseDeterminesPaths(n.subs[p[0]], m.subs[p[0]], p[1..]);
    }
  }

  // ---------- marking one node ----------

  lemma {:induction false} ExhaustSetsOneFlag(n: Invocation, p: Path)
    requires ValidPath(n, p)
    ensures Erase(Exhaust(n, p)) == Erase(n)
    ensures forall q :: IsExhausted(Exhaust(n, p), q) <==> q == p || IsExhausted(n, q)
  {
    var m := Exhaust(n, p);
    if p == [] {
      assert Erase(m).subs == Erase(n).subs;
      forall q: Path ensures IsExhausted(m, q) <==> q == p || IsExhausted(n, q) {
        if q != [] {
          assert m.subs == n.subs;
          if q[0] < |n.subs| { assert IsExhausted(m, q) == IsExhausted(n.subs[q[0]], q[1..]) == IsExhausted(n, q); }
        }
      }
    } else {
      ExhaustSetsOneFlag(n.subs[p[0]], p[1..]);
      assert Erase(m).subs == Erase(n).subs;
      forall q: Path ensures IsExhausted(m, q) <==> q == p || IsExhausted(n, q) {
        if q == [] {
        } else if q[0] == p[0] {
          assert IsExhausted(m, q) == IsExhausted(Exhaust(n.subs[p[0]], p[1..]), q[1..]);
          assert IsExhausted(n, q) == IsExhausted(n.subs[p[0]], q[1..]);
          assert q == [q[0]] + q[1..] && p == [p[0]] + p[1..];
        } else if q[0] < |n.subs| {
          assert m.subs[q[0]] == n.subs[q[0]];
          assert IsExhausted(m, q) == IsExhausted(n, q);
        }
      }
    }
  }

  lemma {:induction false} ExhaustCounts(n: Invocation, p: Path)
    requires ValidPath(n, p) && !At(n, p).exhausted
    ensures CountExhausted(Exhaust(n, p)) == CountExhausted(n) + 1
  {
    if p != [] {
      ExhaustCounts(n.subs[p[0]], p[1..]);
      CountAllUpdate(n.subs, p[0], Exhaust(n.subs[p[0]], p[1..]));
    }
  }

  lemma {:induction false} CountAllUpdate(ns: seq<Invocation>, k: nat, n: Invocation)
    requires k < |ns|
    ensures CountAll(ns[k := n]) == CountAll(ns) - CountExhausted(ns[k]) + CountExhausted(n)
  {
    if k > 0 {
      CountAllUpdate(ns[1..], k - 1, n);
      assert ns[k := n][1..] == ns[1..][k - 1 := n];
    } else {
      assert ns[k := n][1..] == ns[1..];
    }
  }

  /** Marking a child of a used node keeps the used nodes closed under parents. */
  lemma {:induction false} ExhaustKeepsParentClosed(n: Invocation, p: Path, k: nat)
    requires ParentClosed(n) && IsExhausted(n, p) && k < |At(n, p).subs|
    ensures ValidPath(n, p + [k]) && At(n, p + [k]) == At(n, p).subs[k]
    ensures ParentClosed(Exhaust(n, p + [k]))
  {
    if p == [] {
      assert [k][1..] == [];
      var c := n.subs[k];
      assert ParentClosed(c.(exhausted := true)) by {
        if !c.exhausted {
          forall i | 0 <= i < |c.subs| ensures ParentClosed(c.subs[i]) { UnusedIsParentClosed(c.subs[i]); }
        }
      }
    } else {
      UnusedHasNoExhausted(n, p);
      assert (p + [k])[1..] == p[1..] + [k];
      ExhaustKeepsParentClosed(n.subs[p[0]], p[1..], k);
    }
  }

  lemma UnusedIsParentClosed(n: Invocation)
    requires Unused(n)
    ensures ParentClosed(n)
  {
  }

  lemma {:induction false} UnusedHasNoExhausted(n: Invocation, p: Path)
    requires ParentClosed(n) && IsExhausted(n, p)
    ensures n.exhausted
  {
    if !n.exhausted { UnusedNowhere(n, p); }
  }

  lemma {:induction false} UnusedNowhere(n: Invocation, p: Path)
    requires Unused(n)
    ensures !IsExhausted(n, p)
  {
    if p != [] && p[0] < |n.subs| { UnusedNowhere(n.subs[p[0]], p[1..]); }
  }

  /** In a parent-closed tree every ancestor of a used node has been used. */
  lemma {:induction false} AncestorsExhausted(n: Invocation, p: Path, q: Path)
    requires ParentClosed(n) && IsExhausted(n, p + q)
    ensures IsExhausted(n, p)
  {
    UnusedHasNoExhausted(n, p + q);
    if p != [] {
      assert (p + q)[1..] == p[1..] + q;
      AncestorsExhausted(n.subs[p[0]], p[1..], q);
    }
  }

  lemma {:induction false} FunctionsAlongStep(n: Invocation, p: Path, k: nat)
    requires ValidPath(n, p) && k < |At(n, p).subs|
    ensures ValidPath(n, p + [k]) && At(n, p + [k]) == At(n, p).subs[k]
    ensures FunctionsAlong(n, p + [k]) == FunctionsAlong(n, p) + [At(n, p).subs[k].fn]
  {
    if p == [] {
      assert [k][1..] == [];
    } else {
      assert (p + [k])[1..] == p[1..] + [k];
      FunctionsAlongStep(n.subs[p[0]], p[1..], k);
    }
  }
}
