/** Fairness, capacity and lifecycle of the queue over whole runs, and what its events tell. */
module QueueProofs {
  import opened Common
  import opened Queue

  // ---------- the invariant ----------

  /** Positions 1 to n that occupy a capacity slot. */
  function CountActive(positions: map<nat, Position>, n: nat): nat {
    if n == 0 then 0
    else CountActive(positions, n - 1) + if n in positions && positions[n].status != Cancelled then 1 else 0
  }

  /** The ids are 1 to n - 1, and a position tells when it was advanced exactly when it was. */
  ghost predicate PositionsOk(p: map<nat, Position>, n: nat) {
    && (forall id :: id in p <==> 1 <= id < n)
    && (forall id :: id in p ==> p[id].id == id)
    && (forall id :: id in p ==> (p[id].status == Advanced <==> p[id].advancedAt.Some?))
  }

  /** Nothing up to the cursor is pending, and nothing beyond it is advanced. */
  ghost predicate CursorOk(p: map<nat, Position>, idx: nat) {
    && (forall id :: id in p && id <= idx ==> p[id].status != Pending)
    && (forall id :: id in p && id > idx ==> p[id].status != Advanced)
  }

  ghost predicate Inv(s: State) {
    && s.nextId >= 1
    && PositionsOk(s.positions, s.nextId)
    && s.idx < s.nextId
    && CursorOk(s.positions, s.idx)
    && s.activeCount == CountActive(s.positions, s.nextId - 1)
    && s.activeCount <= s.config.maxPositions
    && (s.config.status == Draft || s.config.status == EnrollmentOpen ==> s.idx == 0)
  }

  lemma {:induction false} CountActiveSame(p: map<nat, Position>, q: map<nat, Position>, n: nat)
    requires forall id :: 1 <= id <= n ==>
      (id in p && p[id].status != Cancelled <==> id in q && q[id].status != Cancelled)
    ensures CountActive(p, n) == CountActive(q, n)
  {
    if n > 0 { CountActiveSame(p, q, n - 1); }
  }

  lemma {:induction false} CountActiveCancel(p: map<nat, Position>, id: nat, n: nat)
    requires id in p && p[id].status != Cancelled && 1 <= id
    ensures CountActive(p[id := p[id].(status := Cancelled)], n) == CountActive(p, n) - if id <= n then 1 else 0
  {
    if n > 0 { CountActiveCancel(p, id, n - 1); }
  }

  // ---------- how positions may change ----------

  function Rank(s: QueueStatus): nat {
    match s
    case Draft => 0
    case EnrollmentOpen => 1
    case EnrollmentClosed => 2
    case AdvancementActive => 3
    case Closed => 4
  }

  /** The same participant at the same place; only a pending position may change its status. */
  ghost predicate SamePlace(p: Position, q: Position) {
    p.id == q.id && p.identity == q.identity && p.enrolledAt == q.enrolledAt && (p.status != Pending ==> q == p)
  }

  /** `t` is a later state than `s`. */
  ghost predicate Evolves(s: State, t: State) {
    && t.config.maxPositions == s.config.maxPositions && t.config.rule == s.config.rule
    && Rank(s.config.status) <= Rank(t.config.status)
    && s.nextId <= t.nextId && s.idx <= t.idx
    && (Rank(s.config.status) >= 2 ==> t.nextId == s.nextId)
    && (forall id :: id in s.positions ==> id in t.positions && SamePlace(s.positions[id], t.positions[id]))
  }

  // ---------- the scan ----------

  /** What the scan does to a well-formed queue: it serves exactly the pending positions it passes. */
  lemma {:induction false} ScanServes(p: map<nat, Position>, idx: nat, total: nat, batch: nat, now: nat)
    requires idx <= total && forall id :: 1 <= id <= total ==> id in p
    ensures var r := ScanFrom(p, idx, total, batch, now);
      && r.idx == (if idx + batch <= total then idx + batch else total)
      && r.positions.Keys == p.Keys
      && (forall id :: id in p ==>
            r.positions[id] ==
              if idx < id <= r.idx && p[id].status == Pending then AdvancePosition(p[id], now) else p[id])
      && (forall id :: id in r.advanced <==> idx < id <= r.idx && p[id].status == Pending)
      && (forall id :: id in r.skipped <==> idx < id <= r.idx && p[id].status == Cancelled)
    decreases batch
  {
    if batch > 0 && idx < total {
      var id := idx + 1;
      var q := if p[id].status == Pending then p[id := AdvancePosition(p[id], now)] else p;
      ScanServes(q, id, total, batch - 1, now);
      var r, rest := ScanFrom(p, idx, total, batch, now), ScanFrom(q, id, total, batch - 1, now);
      assert r.positions == rest.positions && r.idx == rest.idx;
    }
  }

  ghost predicate IncreasingAbove(ids: seq<nat>, low: nat) {
    && (forall i :: 0 <= i < |ids| ==> low < ids[i])
    && (forall i, j :: 0 <= i < j < |ids| ==> ids[i] < ids[j])
  }

  lemma {:induction false} ScanIncreases(p: map<nat, Position>, idx: nat, total: nat, batch: nat, now: nat)
    ensures IncreasingAbove(ScanFrom(p, idx, total, batch, now).advanced, idx)
    decreases batch
  {
    if batch > 0 && idx < total && idx + 1 in p {
      var id := idx + 1;
      var q := if p[id].status == Pending then p[id := AdvancePosition(p[id], now)] else p;
      ScanIncreases(q, id, total, batch - 1, now);
      IncreasingCons(ScanFrom(q, id, total, batch - 1, now).advanced, id);
    }
  }

  lemma IncreasingCons(ids: seq<nat>, id: nat)
    requires id > 0 && IncreasingAbove(ids, id)
    ensures IncreasingAbove(ids, id - 1) && IncreasingAbove([id] + ids, id - 1)
  {
  }

  lemma {:induction false} ScanSplits(p: map<nat, Position>, idx: nat, total: nat, a: nat, b: nat, now: nat)
    ensures var r := ScanFrom(p, idx, total, a, now);
      var t := ScanFrom(r.positions, r.idx, total, b, now);
      ScanFrom(p, idx, total, a + b, now) == Scan(t.positions, t.idx, r.advanced + t.advanced, r.skipped + t.skipped)
    decreases a
  {
    if a == 0 {
    } else if idx >= total || idx + 1 !in p {
    } else {
      var id := idx + 1;
      match p[id].status
      case Pending =>
        var q := p[id := AdvancePosition(p[id], now)];
        ScanSplits(q, id, total, a - 1, b, now);
        var r := ScanFrom(q, id, total, a - 1, now);
        var t := ScanFrom(r.positions, r.idx, total, b, now);
        assert [id] + r.advanced + t.advanced == [id] + (r.advanced + t.advanced);
      case Cancelled =>
        ScanSplits(p, id, total, a - 1, b, now);
        var r := ScanFrom(p, id, total, a - 1, now);
        var t := ScanFrom(r.positions, r.idx, total, b, now);
        assert [id] + r.skipped + t.skipped == [id] + (r.skipped + t.skipped);
      case _ => ScanSplits(p, id, total, a - 1, b, now);
    }
  }

  // ---------- every call keeps the invariant ----------

  lemma {:induction false} ScanKeepsPositions(p: map<nat, Position>, idx: nat, total: nat, batch: nat, now: nat)
    requires PositionsOk(p, total + 1) && CursorOk(p, idx) && idx <= total
    ensures var r := ScanFrom(p, idx, total, batch, now);
      && r.idx <= total && PositionsOk(r.positions, total + 1) && CursorOk(r.positions, r.idx)
      && CountActive(r.positions, total) == CountActive(p, total)
  {
    ScanServes(p, idx, total, batch, now);
    CountActiveSame(p, ScanFrom(p, idx, total, batch, now).positions, total);
  }

  lemma {:induction false} AdvanceKeepsInv(s: State, caller: Address, batchSize: nat, now: nat)
    requires Inv(s) && DoAdvance(s, caller, batchSize, now).Ok?
    ensures Inv(DoAdvance(s, caller, batchSize, now).value.state)
  {
    ScanKeepsPositions(s.positions, s.idx, s.nextId - 1, batchSize, now);
  }

  lemma ScanKeepsPlaces(p: map<nat, Position>, idx: nat, total: nat, batch: nat, now: nat)
    requires PositionsOk(p, total + 1) && idx <= total
    ensures var r := ScanFrom(p, idx, total, batch, now);
      idx <= r.idx && forall id :: id in p ==> id in r.positions && SamePlace(p[id], r.positions[id])
  {
    ScanServes(p, idx, total, batch, now);
  }

  lemma {:induction false} AdvanceInv(s: State, caller: Address, batchSize: nat, now: nat)
    requires Inv(s) && DoAdvance(s, caller, batchSize, now).Ok?
    ensures var t := DoAdvance(s, caller, batchSize, now).value.state; Inv(t) && Evolves(s, t)
  {
    AdvanceKeepsInv(s, caller, batchSize, now);
    ScanKeepsPlaces(s.positions, s.idx, s.nextId - 1, batchSize, now);
  }

  lemma {:induction false} EnrollInv(s: State, identity: Address, now: nat)
    requires Inv(s) && DoEnroll(s, identity, now).Ok?
    ensures var t := DoEnroll(s, identity, now).value.state; Inv(t) && Evolves(s, t)
  {
    var t := DoEnroll(s, identity, now).value.state;
    CountActiveSame(s.positions, t.positions, s.nextId - 1);
  }

  /** The count is never at zero when a position is cancelled. */
  lemma {:induction false} CancelInv(s: State, identity: Address, id: nat, now: nat)
    requires Inv(s) && DoCancel(s, identity, id, now).Ok?
    ensures var t := DoCancel(s, identity, id, now).value.state;
      Inv(t) && Evolves(s, t) && t.activeCount == s.activeCount - 1
  {
    CountActiveCancel(s.positions, id, s.nextId - 1);
  }

  /** A batch succeeds exactly when its ids are distinct and all pending; then all of them, and no others, expire. */
  lemma {:induction false} ExpireAllIff(p: map<nat, Position>, ids: seq<nat>)
    ensures ExpireAll(p, ids).Ok? <==>
              && (forall i :: 0 <= i < |ids| ==> ids[i] in p && p[ids[i]].status == Pending)
              && (forall i, j :: 0 <= i < j < |ids| ==> ids[i] != ids[j])
    ensures ExpireAll(p, ids).Ok? ==>
              ExpireAll(p, ids).value == map id | id in p :: if id in ids then p[id].(status := Expired) else p[id]
  {
    if ids != [] && ids[0] in p && p[ids[0]].status == Pending {
      var q := p[ids[0] := p[ids[0]].(status := Expired)];
      ExpireAllIff(q, ids[1..]);
      assert ids == [ids[0]] + ids[1..];
      if ids[0] in ids[1..] {
        var j :| 0 <= j < |ids[1..]| && ids[1..][j] == ids[0];
        assert q[ids[1..][j]].status == Expired;
      }
    }
  }

  lemma {:induction false} ExpireInv(s: State, caller: Address, ids: seq<nat>, now: nat)
    requires Inv(s) && DoExpireBatch(s, caller, ids, now).Ok?
    ensures var t := DoExpireBatch(s, caller, ids, now).value.state; Inv(t) && Evolves(s, t)
  {
    var t := DoExpireBatch(s, caller, ids, now).value.state;
    ExpireAllIff(s.positions, ids);
    CountActiveSame(s.positions, t.positions, s.nextId - 1);
  }

  lemma {:induction false} StepInv(s: State, op: Op, now: nat)
    requires Inv(s) && Step(s, op, now).Ok?
    ensures Inv(Step(s, op, now).value.state) && Evolves(s, Step(s, op, now).value.state)
  {
    match op
    case Enroll(identity) => EnrollInv(s, identity, now);
    case Cancel(identity, id) => CancelInv(s, identity, id, now);
    case Advance(caller, batchSize) => AdvanceInv(s, caller, batchSize, now);
    case Expire(caller, id) => ExpireInv(s, caller, [id], now);
    case ExpireBatch(caller, ids) => ExpireInv(s, caller, ids, now);
    case _ =>
  }

  lemma EvolvesTrans(s: State, t: State, u: State)
    requires Evolves(s, t) && Evolves(t, u)
    ensures Evolves(s, u)
  {
  }

  lemma {:induction false} RunInv(s: State, calls: seq<Call>)
    requires Inv(s)
    ensures Inv(Run(s, calls).state) && Evolves(s, Run(s, calls).state)
    decreases |calls|
  {
    if calls != [] {
      var r := Step(s, calls[0].op, calls[0].at);
      if r.Ok? {
        StepInv(s, calls[0].op, calls[0].at);
        RunInv(r.value.state, calls[1..]);
        EvolvesTrans(s, r.value.state, Run(s, calls).state);
      } else {
        RunInv(s, calls[1..]);
      }
    }
  }

  lemma InitialInv(config: Config)
    ensures Inv(Initial(config))
  {
  }

  /** Initializing again keeps the storage consistent exactly when no position has been created yet. */
  lemma {:induction false} InitializeAgainIff(s: State, admin: Address, config: Config)
    requires Inv(s)
    ensures DoInitialize(s, admin, config).Ok? <==> config.admin == admin
    ensures config.admin == admin ==> (Inv(DoInitialize(s, admin, config).value) <==> s.positions == map[])
  {
    if config.admin == admin && s.positions != map[] {
      assert 1 in s.positions;
      assert !PositionsOk(DoInitialize(s, admin, config).value.positions, 1);
    }
  }

  // ---------- capacity and lifecycle ----------

  ghost function ActiveIds(p: map<nat, Position>): set<nat> {
    set id | id in p && p[id].status != Cancelled
  }

  lemma {:induction false} CreatedIsSize(p: map<nat, Position>, n: nat)
    requires n >= 1 && forall id :: id in p <==> 1 <= id < n
    ensures |p| == n - 1
  {
    if n > 1 {
      var q := p - {n - 1};
      CreatedIsSize(q, n - 1);
      assert q.Keys == p.Keys - {n - 1} && |p.Keys| == |p| && |q.Keys| == |q|;
    } else {
      assert p == map[];
    }
  }

  lemma ActiveIdsWithout(p: map<nat, Position>, id: nat)
    requires id in p
    ensures |ActiveIds(p)| == |ActiveIds(p - {id})| + if p[id].status != Cancelled then 1 else 0
  {
    assert ActiveIds(p - {id}) == ActiveIds(p) - {id};
  }

  /** Counting the positions one by one gives the number of those not cancelled. */
  lemma {:induction false} ActiveIsSize(p: map<nat, Position>, n: nat)
    requires n >= 1 && forall id :: id in p <==> 1 <= id < n
    ensures CountActive(p, n - 1) == |ActiveIds(p)|
  {
    if n > 1 {
      var q := p - {n - 1};
      ActiveIsSize(q, n - 1);
      CountActiveSame(p, q, n - 2);
      ActiveIdsWithout(p, n - 1);
    } else {
      assert ActiveIds(p) == {};
    }
  }

  /**
    * In every reachable state ids are exactly 1 to next_id - 1, the active count is the number of positions that are
    * not cancelled and within capacity.
    */
  lemma {:induction false} CapacityBound(config: Config, calls: seq<Call>)
    ensures var s := Run(Initial(config), calls).state;
      && s.nextId >= 1
      && (forall id :: id in s.positions <==> 1 <= id < s.nextId)
      && s.activeCount == CountActive(s.positions, s.nextId - 1) <= config.maxPositions
  {
    InitialInv(config);
    RunInv(Initial(config), calls);
  }

  /**
    * From any reachable state on: the status never moves backwards, every position keeps its participant and enrolment
    * time, one that has left Pending never changes again, and after enrollment closes nobody joins.
    */
  lemma {:induction false} Lifecycle(config: Config, before: seq<Call>, later: seq<Call>)
    ensures var s := Run(Initial(config), before).state; var t := Run(s, later).state;
      && Rank(s.config.status) <= Rank(t.config.status)
      && (forall id :: id in s.positions ==>
            && id in t.positions
            && t.positions[id].identity == s.positions[id].identity
            && t.positions[id].enrolledAt == s.positions[id].enrolledAt
            && (s.positions[id].status != Pending ==> t.positions[id] == s.positions[id]))
      && (Rank(s.config.status) >= 2 ==> t.positions.Keys == s.positions.Keys)
  {
    InitialInv(config);
    RunInv(Initial(config), before);
    RunInv(Run(Initial(config), before).state, later);
  }

  // ---------- first in, first out ----------

  /** `served` is what all calls of `advance` so far have returned. */
  ghost predicate ServedInOrder(s: State, served: seq<nat>) {
    && (forall i, j :: 0 <= i < j < |served| ==> served[i] < served[j])
    && ServedExactly(s.positions, served)
  }

  ghost predicate ServedExactly(p: map<nat, Position>, served: seq<nat>) {
    forall id :: id in served <==> id in p && p[id].status == Advanced
  }

  lemma IncreasingAppend(a: seq<nat>, b: seq<nat>, low: nat)
    requires forall i, j :: 0 <= i < j < |a| ==> a[i] < a[j]
    requires (forall i :: 0 <= i < |a| ==> a[i] <= low) && IncreasingAbove(b, low)
    ensures forall i, j :: 0 <= i < j < |a + b| ==> (a + b)[i] < (a + b)[j]
  {
  }

  lemma ScanAddsServed(s: State, batchSize: nat, now: nat, served: seq<nat>)
    requires Inv(s) && ServedInOrder(s, served)
    ensures var r := ScanFrom(s.positions, s.idx, s.nextId - 1, batchSize, now);
      ServedExactly(r.positions, served + r.advanced)
  {
    ScanServes(s.positions, s.idx, s.nextId - 1, batchSize, now);
  }

  lemma {:induction false} AdvanceServes(s: State, caller: Address, batchSize: nat, now: nat, served: seq<nat>)
    requires Inv(s) && ServedInOrder(s, served) && DoAdvance(s, caller, batchSize, now).Ok?
    ensures var r := DoAdvance(s, caller, batchSize, now).value; ServedInOrder(r.state, served + r.ids)
  {
    var r := DoAdvance(s, caller, batchSize, now).value;
    var scan := ScanFrom(s.positions, s.idx, s.nextId - 1, batchSize, now);
    assert r.ids == scan.advanced && r.state.positions == scan.positions;
    ScanAddsServed(s, batchSize, now, served);
    ScanIncreases(s.positions, s.idx, s.nextId - 1, batchSize, now);
    forall i | 0 <= i < |served| ensures served[i] <= s.idx { assert served[i] in served; }
    IncreasingAppend(served, r.ids, s.idx);
  }

  lemma {:induction false} ExpireServesNobody(s: State, caller: Address, ids: seq<nat>, now: nat, served: seq<nat>)
    requires ServedInOrder(s, served) && DoExpireBatch(s, caller, ids, now).Ok?
    ensures ServedInOrder(DoExpireBatch(s, caller, ids, now).value.state, served)
  {
    ExpireAllIff(s.positions, ids);
  }

  lemma {:induction false} OthersServeNobody(s: State, op: Op, now: nat, served: seq<nat>)
    requires Inv(s) && ServedInOrder(s, served) && !op.Advance? && Step(s, op, now).Ok?
    ensures ServedInOrder(Step(s, op, now).value.state, served)
  {
    match op
    case Expire(caller, id) => ExpireServesNobody(s, caller, [id], now, served);
    case ExpireBatch(caller, ids) => ExpireServesNobody(s, caller, ids, now, served);
    case _ =>
  }

  lemma {:induction false} StepServes(s: State, op: Op, now: nat, served: seq<nat>)
    requires Inv(s) && ServedInOrder(s, served) && Step(s, op, now).Ok?
    ensures var r := Step(s, op, now).value; ServedInOrder(r.state, served + if op.Advance? then r.ids else [])
  {
    if op.Advance? {
      AdvanceServes(s, op.caller, op.batchSize, now, served);
    } else {
      OthersServeNobody(s, op, now, served);
      assert served + [] == served;
    }
  }

  lemma RunHead(s: State, calls: seq<Call>, ids: seq<nat>)
    requires calls != [] && Step(s, calls[0].op, calls[0].at).Ok?
    requires ids == if calls[0].op.Advance? then Step(s, calls[0].op, calls[0].at).value.ids else []
    ensures var r := Step(s, calls[0].op, calls[0].at).value; var rest := Run(r.state, calls[1..]);
      Run(s, calls) == RunResult(rest.state, ids + rest.served, r.events + rest.events)
  {
  }

  lemma RunPanicked(s: State, calls: seq<Call>)
    requires calls != [] && Step(s, calls[0].op, calls[0].at).Panic?
    ensures Run(s, calls) == Run(s, calls[1..])
  {
  }

  lemma ServedThen(s: State, served: seq<nat>, ids: seq<nat>, more: seq<nat>)
    requires ServedInOrder(s, served + ids + more)
    ensures ServedInOrder(s, served + (ids + more))
  {
    assert served + ids + more == served + (ids + more);
  }

  lemma {:induction false} RunServes(s: State, calls: seq<Call>, served: seq<nat>)
    requires Inv(s) && ServedInOrder(s, served)
    ensures ServedInOrder(Run(s, calls).state, served + Run(s, calls).served)
    decreases |calls|
  {
    if calls == [] {
      assert served + [] == served;
    } else {
      var op, at := calls[0].op, calls[0].at;
      var r := Step(s, op, at);
      if r.Panic? {
        RunPanicked(s, calls);
        RunServes(s, calls[1..], served);
      } else {
        var t, ids := r.value.state, if op.Advance? then r.value.ids else [];
        StepInv(s, op, at);
        StepServes(s, op, at, served);
        RunServes(t, calls[1..], served + ids);
        RunHead(s, calls, ids);
        ServedThen(Run(t, calls[1..]).state, served, ids, Run(t, calls[1..]).served);
      }
    }
  }

  /**
    * Over any run, the ids returned by all calls of `advance`, taken together, strictly increase and are exactly the
    * advanced positions; nobody is advanced while somebody with a lower id is pending; nothing up to the cursor is
    * pending and nothing beyond it is advanced.
    */
  lemma {:induction false} FirstInFirstOut(config: Config, calls: seq<Call>)
    ensures var r := Run(Initial(config), calls); var p := r.state.positions;
      && (forall i, j :: 0 <= i < j < |r.served| ==> r.served[i] < r.served[j])
      && (forall id :: id in r.served <==> id in p && p[id].status == Advanced)
      && (forall lower, id :: lower in p && id in p && lower < id && p[id].status == Advanced ==>
            p[lower].status != Pending)
      && (forall id :: id in p && id <= r.state.idx ==> p[id].status != Pending)
      && (forall id :: id in p && id > r.state.idx ==> p[id].status != Advanced)
  {
    InitialInv(config);
    RunInv(Initial(config), calls);
    RunServes(Initial(config), calls, []);
    assert [] + Run(Initial(config), calls).served == Run(Initial(config), calls).served;
  }

  // ---------- batches ----------

  /** Within one ledger, advancing `a` and then `b` is advancing `a + b`. */
  lemma {:induction false} AdvanceSplits(s: State, caller: Address, a: nat, b: nat, now: nat)
    requires 1 <= a && 1 <= b && a + b <= U32_MAX
    ensures DoAdvance(s, caller, a + b, now).Ok? <==> DoAdvance(s, caller, a, now).Ok?
    ensures DoAdvance(s, caller, a, now).Ok? ==>
      var first := DoAdvance(s, caller, a, now).value;
      var second := DoAdvance(first.state, caller, b, now);
      var both := DoAdvance(s, caller, a + b, now).value;
      second.Ok? && second.value.state == both.state && first.ids + second.value.ids == both.ids
  {
    ScanSplits(s.positions, s.idx, if s.nextId == 0 then 0 else s.nextId - 1, a, b, now);
  }

  predicate CanAdvance(s: State, caller: Address) {
    s.config.admin == caller && s.config.rule == Fifo && s.config.status in {EnrollmentClosed, AdvancementActive}
  }

  function AdvanceCalls(caller: Address, batchSize: nat, times: seq<nat>): seq<Call> {
    seq(|times|, i requires 0 <= i < |times| => Call(Advance(caller, batchSize), times[i]))
  }

  lemma ScanCursor(p: map<nat, Position>, idx: nat, total: nat, batch: nat, now: nat)
    requires PositionsOk(p, total + 1) && idx <= total
    ensures ScanFrom(p, idx, total, batch, now).idx == Min(idx + batch, total)
  {
    ScanServes(p, idx, total, batch, now);
  }

  lemma {:induction false} AdvanceMovesCursor(s: State, caller: Address, batchSize: nat, now: nat)
    requires Inv(s) && CanAdvance(s, caller) && batchSize >= 1
    ensures DoAdvance(s, caller, batchSize, now).Ok?
    ensures var t := DoAdvance(s, caller, batchSize, now).value.state;
      Inv(t) && CanAdvance(t, caller) && t.nextId == s.nextId && t.idx == Min(s.idx + batchSize, s.nextId - 1)
  {
    AdvanceKeepsInv(s, caller, batchSize, now);
    ScanCursor(s.positions, s.idx, s.nextId - 1, batchSize, now);
  }

  lemma OneMoreTime(n: nat, b: nat)
    requires n >= 1
    ensures n * b == b + (n - 1) * b && (n - 1) * b >= 0
  {
  }

  lemma {:induction false} AdvancesMoveCursor(s: State, caller: Address, batchSize: nat, times: seq<nat>)
    requires Inv(s) && CanAdvance(s, caller) && batchSize >= 1
    ensures var t := Run(s, AdvanceCalls(caller, batchSize, times)).state;
      Inv(t) && t.nextId == s.nextId && t.idx == Min(s.idx + |times| * batchSize, s.nextId - 1)
    decreases |times|
  {
    if times != [] {
      var calls := AdvanceCalls(caller, batchSize, times);
      AdvanceMovesCursor(s, caller, batchSize, times[0]);
      var t := DoAdvance(s, caller, batchSize, times[0]).value.state;
      AdvancesMoveCursor(t, caller, batchSize, times[1..]);
      assert calls[1..] == AdvanceCalls(caller, batchSize, times[1..]);
      RunHead(s, calls, DoAdvance(s, caller, batchSize, times[0]).value.ids);
      OneMoreTime(|times|, batchSize);
    }
  }

  /** Enough batches, at whatever times, leave nobody pending: as many as cover the positions after the cursor. */
  lemma {:induction false} BatchesDrainQueue(s: State, caller: Address, batchSize: nat, times: seq<nat>)
    requires Inv(s) && CanAdvance(s, caller) && batchSize >= 1
    requires |times| * batchSize >= s.nextId - 1 - s.idx
    ensures var t := Run(s, AdvanceCalls(caller, batchSize, times)).state;
      forall id :: id in t.positions ==> t.positions[id].status != Pending
  {
    AdvancesMoveCursor(s, caller, batchSize, times);
  }

  // ---------- what the events tell ----------

  /** The part of the storage an auditor can keep from events alone. */
  datatype History = History(
    admin: Address, status: QueueStatus, nextId: nat, activeCount: int, positions: map<nat, Position>)

  function Recorded(s: State): History {
    History(s.config.admin, s.config.status, s.nextId, s.activeCount, s.positions)
  }

  function Mark(h: History, id: nat, status: PositionStatus, at: Option<nat>): History {
    if id !in h.positions then h
    else h.(positions := h.positions[id := h.positions[id].(status := status, advancedAt := at)])
  }

  function Apply(h: History, e: Event): History {
    match e
    case InitializedEvent(_) => h
    case OwnershipTransferred(_, admin) => h.(admin := admin)
    case EnrollmentOpenedEvent(_, _) => h.(status := EnrollmentOpen)
    case EnrollmentClosedEvent(_, _) => h.(status := EnrollmentClosed)
    case QueueClosedEvent(_, _) => h.(status := Closed)
    case EnrolledEvent(id, identity, at) =>
      h.(nextId := id + 1, activeCount := h.activeCount + 1,
         positions := h.positions[id := Position(id, at, identity, Pending, None)])
    case CancelledEvent(id, _, _) => Mark(h, id, Cancelled, None).(activeCount := h.activeCount - 1)
    case SkippedEvent(_, _, _) => h
    case AdvancedEvent(id, _, at) => Mark(h, id, Advanced, Some(at)).(status := AdvancementActive)
    case ExpiredEvent(id, _, _) => Mark(h, id, Expired, None)
  }

  function Replay(h: History, events: seq<Event>): History
    decreases |events|
  {
    if events == [] then h else Replay(Apply(h, events[0]), events[1..])
  }

  lemma {:induction false} ReplayConcat(h: History, a: seq<Event>, b: seq<Event>)
    ensures Replay(h, a + b) == Replay(Replay(h, a), b)
    decreases |a|
  {
    if a == [] {
      assert a + b == b;
    } else {
      assert (a + b)[1..] == a[1..] + b;
      ReplayConcat(Apply(h, a[0]), a[1..], b);
    }
  }

  lemma {:induction false} ReplaySkipped(h: History, ids: seq<nat>, admin: Address, now: nat)
    ensures Replay(h, SkippedEvents(ids, admin, now)) == h
    decreases |ids|
  {
    if ids != [] {
      assert SkippedEvents(ids, admin, now)[1..] == SkippedEvents(ids[1..], admin, now);
      ReplaySkipped(h, ids[1..], admin, now);
    }
  }

  lemma {:induction false} ReplayAdvanced(h: History, idx: nat, total: nat, batch: nat, admin: Address, now: nat)
    ensures var r := ScanFrom(h.positions, idx, total, batch, now);
      Replay(h, AdvancedEvents(r.advanced, admin, now)) ==
        h.(positions := r.positions, status := if r.advanced == [] then h.status else AdvancementActive)
    decreases batch
  {
    var r := ScanFrom(h.positions, idx, total, batch, now);
    if batch > 0 && idx < total && idx + 1 in h.positions {
      var id := idx + 1;
      if h.positions[id].status == Pending {
        var g := Apply(h, AdvancedEvent(id, admin, now));
        ReplayAdvanced(g, id, total, batch - 1, admin, now);
        var rest := ScanFrom(g.positions, id, total, batch - 1, now);
        assert g.positions == h.positions[id := AdvancePosition(h.positions[id], now)];
        assert AdvancedEvents(r.advanced, admin, now)[1..] == AdvancedEvents(rest.advanced, admin, now);
      } else {
        ReplayAdvanced(h, id, total, batch - 1, admin, now);
      }
    }
  }

  lemma {:induction false} ReplayExpired(h: History, ids: seq<nat>, admin: Address, now: nat)
    requires ExpireAll(h.positions, ids).Ok?
    requires forall id :: id in h.positions && h.positions[id].status == Pending ==> h.positions[id].advancedAt.None?
    ensures Replay(h, ExpiredEvents(ids, admin, now)) == h.(positions := ExpireAll(h.positions, ids).value)
    decreases |ids|
  {
    if ids != [] {
      var g := Apply(h, ExpiredEvent(ids[0], admin, now));
      assert g.positions == h.positions[ids[0] := h.positions[ids[0]].(status := Expired)];
      assert ExpiredEvents(ids, admin, now)[1..] == ExpiredEvents(ids[1..], admin, now);
      ReplayExpired(g, ids[1..], admin, now);
    }
  }

  lemma {:induction false} AdvanceReplays(s: State, caller: Address, batchSize: nat, now: nat)
    requires Inv(s) && DoAdvance(s, caller, batchSize, now).Ok?
    ensures var r := DoAdvance(s, caller, batchSize, now).value; Replay(Recorded(s), r.events) == Recorded(r.state)
  {
    var scan := ScanFrom(s.positions, s.idx, s.nextId - 1, batchSize, now);
    ReplayConcat(Recorded(s), SkippedEvents(scan.skipped, caller, now), AdvancedEvents(scan.advanced, caller, now));
    ReplaySkipped(Recorded(s), scan.skipped, caller, now);
    ReplayAdvanced(Recorded(s), s.idx, s.nextId - 1, batchSize, caller, now);
  }

  lemma ReplayOne(h: History, e: Event)
    ensures Replay(h, [e]) == Apply(h, e)
  {
    assert [e][1..] == [];
  }

  lemma {:induction false} OthersReplay(s: State, op: Op, now: nat)
    requires !op.Advance? && !op.Expire? && !op.ExpireBatch? && !op.Cancel? && Step(s, op, now).Ok?
    ensures var r := Step(s, op, now).value; Replay(Recorded(s), r.events) == Recorded(r.state)
  {
    if !op.ProposeAdmin? { ReplayOne(Recorded(s), Step(s, op, now).value.events[0]); }
  }

  lemma {:induction false} StepReplays(s: State, op: Op, now: nat)
    requires Inv(s) && Step(s, op, now).Ok?
    ensures var r := Step(s, op, now).value; Replay(Recorded(s), r.events) == Recorded(r.state)
  {
    var r := Step(s, op, now).value;
    match op
    case Advance(caller, batchSize) => AdvanceReplays(s, caller, batchSize, now);
    case Expire(caller, id) => ReplayExpired(Recorded(s), [id], caller, now);
    case ExpireBatch(caller, ids) => ReplayExpired(Recorded(s), ids, caller, now);
    case Cancel(identity, id) =>
      CancelInv(s, identity, id, now);
      ReplayOne(Recorded(s), r.events[0]);
    case _ => OthersReplay(s, op, now);
  }

  /**
    * An auditor who replays the published events from the initial configuration gets back every position, the status,
    * the next id, the active count and the admin.
    */
  lemma {:induction false} EventsRebuildQueue(s: State, calls: seq<Call>)
    requires Inv(s)
    ensures Replay(Recorded(s), Run(s, calls).events) == Recorded(Run(s, calls).state)
    decreases |calls|
  {
    if calls != [] {
      var r := Step(s, calls[0].op, calls[0].at);
      if r.Ok? {
        StepInv(s, calls[0].op, calls[0].at);
        StepReplays(s, calls[0].op, calls[0].at);
        EventsRebuildQueue(r.value.state, calls[1..]);
        ReplayConcat(Recorded(s), r.value.events, Run(r.value.state, calls[1..]).events);
      } else {
        EventsRebuildQueue(s, calls[1..]);
      }
    }
  }

  /** Positions after the one cursor and up to the other that have expired. */
  function CountExpired(p: map<nat, Position>, from: nat, to: nat): nat {
    if to <= from then 0
    else CountExpired(p, from, to - 1) + if to in p && p[to].status == Expired then 1 else 0
  }

  /**
    * A call moves the cursor past expired positions without a word: its Advanced and Skipped events are as many as the
    * positions passed exactly when none of those had expired.
    */
  lemma {:induction false} CursorNotInEvents(s: State, caller: Address, batchSize: nat, now: nat)
    requires Inv(s) && DoAdvance(s, caller, batchSize, now).Ok?
    ensures var r := DoAdvance(s, caller, batchSize, now).value;
      && s.idx <= r.state.idx < s.nextId
      && r.state.idx - s.idx == |r.events| + CountExpired(s.positions, s.idx, r.state.idx)
      && (r.state.idx - s.idx == |r.events| <==>
            forall id :: s.idx < id <= r.state.idx ==> id in s.positions && s.positions[id].status != Expired)
  {
    assert DoAdvance(s, caller, batchSize, now).value.state.idx < s.nextId by {
      ScanServes(s.positions, s.idx, s.nextId - 1, batchSize, now);
    }
    ScanCounts(s.positions, s.idx, s.nextId - 1, batchSize, now);
    NoneExpired(s.positions, s.idx, DoAdvance(s, caller, batchSize, now).value.state.idx);
  }

  lemma EventsThen(a: seq<Event>, b: seq<Event>, c: seq<Event>)
    ensures a + (b + c) == a + b + c
  {
  }

  lemma {:induction false} RunSnoc(s: State, calls: seq<Call>, c: Call)
    requires Step(Run(s, calls).state, c.op, c.at).Ok?
    ensures var before, r := Run(s, calls), Step(Run(s, calls).state, c.op, c.at).value;
      Run(s, calls + [c]).state == r.state && Run(s, calls + [c]).events == before.events + r.events
    decreases |calls|
  {
    if calls == [] {
      assert [] + [c] == [c] && [c][1..] == [];
    } else {
      var all, first := calls + [c], Step(s, calls[0].op, calls[0].at);
      assert all[0] == calls[0] && all[1..] == calls[1..] + [c];
      if first.Panic? {
        RunPanicked(s, calls);
        RunPanicked(s, all);
        RunSnoc(s, calls[1..], c);
      } else {
        var t, ids := first.value.state, if calls[0].op.Advance? then first.value.ids else [];
        RunHead(s, calls, ids);
        RunHead(s, all, ids);
        RunSnoc(t, calls[1..], c);
        EventsThen(first.value.events, Run(t, calls[1..]).events, Step(Run(s, calls).state, c.op, c.at).value.events);
      }
    }
  }

  /** One participant advanced, another expired: the cursor stands before the expired position. */
  lemma {:induction false} ExpiredRun(config: Config, who: Address) returns (calls: seq<Call>)
    requires config.status == Draft && config.rule == Fifo && config.maxPositions >= 2
    ensures Inv(Run(Initial(config), calls).state)
    ensures var s := Run(Initial(config), calls).state;
      s.nextId == 3 && s.idx == 1 && s.config == config.(status := AdvancementActive)
      && s.positions[2].status == Expired
  {
    var a := config.admin;
    var s0 := Initial(config);
    var c1 := [] + [Call(OpenEnrollment(a), 0)];
    RunSnoc(s0, [], Call(OpenEnrollment(a), 0));
    var c2 := c1 + [Call(Enroll(who), 0)];
    RunSnoc(s0, c1, Call(Enroll(who), 0));
    var c3 := c2 + [Call(Enroll(who), 0)];
    RunSnoc(s0, c2, Call(Enroll(who), 0));
    var c4 := c3 + [Call(CloseEnrollment(a), 0)];
    RunSnoc(s0, c3, Call(CloseEnrollment(a), 0));
    var p, s4 := Position(1, 0, who, Pending, None), Run(s0, c4).state;
    assert s4 == State(config.(status := EnrollmentClosed), None, 3, 2, 0, map[1 := p, 2 := p.(id := 2)]);
    var c5 := c4 + [Call(Advance(a, 1), 0)];
    assert ScanFrom(s4.positions, 0, 2, 1, 0) == Scan(s4.positions[1 := AdvancePosition(p, 0)], 1, [1], []);
    RunSnoc(s0, c4, Call(Advance(a, 1), 0));
    calls := c5 + [Call(Expire(a, 2), 0)];
    var s5 := Run(s0, c5).state;
    assert [2][1..] == [] && s5.positions[2].status == Pending;
    assert ExpireAll(s5.positions, [2]) == Ok(s5.positions[2 := s5.positions[2].(status := Expired)]);
    RunSnoc(s0, c5, Call(Expire(a, 2), 0));
    InitialInv(config);
    RunInv(s0, calls);
  }

  /** Two runs of one queue can publish the same events and leave the cursor in different places. */
  lemma {:induction false} SameEventsTwoCursors(config: Config, who: Address)
    requires config.status == Draft && config.rule == Fifo && config.maxPositions >= 2
    ensures exists calls, longer :: var r, t := Run(Initial(config), calls), Run(Initial(config), longer);
      r.events == t.events && r.state.positions == t.state.positions && r.state.idx < t.state.idx
  {
    var calls := ExpiredRun(config, who);
    var s, last := Run(Initial(config), calls).state, Call(Advance(config.admin, 1), 0);
    assert ScanFrom(s.positions, 1, 2, 1, 0) == Scan(s.positions, 2, [], []);
    RunSnoc(Initial(config), calls, last);
    assert Run(Initial(config), calls).events + [] == Run(Initial(config), calls).events;
    assert Run(Initial(config), calls + [last]).state.idx == 2;
  }

  lemma {:induction false} NoneExpired(p: map<nat, Position>, from: nat, to: nat)
    requires forall id :: from < id <= to ==> id in p
    ensures (CountExpired(p, from, to) == 0) <==> (forall id :: from < id <= to ==> p[id].status != Expired)
  {
    if to > from { NoneExpired(p, from, to - 1); }
  }

  lemma {:induction false} CountExpiredFirst(p: map<nat, Position>, q: map<nat, Position>, from: nat, to: nat)
    requires from < to
    requires forall id :: from + 1 < id <= to ==>
      (id in p && p[id].status == Expired <==> id in q && q[id].status == Expired)
    ensures CountExpired(p, from, to) ==
      (if from + 1 in p && p[from + 1].status == Expired then 1 else 0) + CountExpired(q, from + 1, to)
  {
    if to > from + 1 { CountExpiredFirst(p, q, from, to - 1); }
  }

  lemma {:induction false} ScanCounts(p: map<nat, Position>, idx: nat, total: nat, batch: nat, now: nat)
    requires idx <= total && forall id :: 1 <= id <= total ==> id in p
    requires forall id :: idx < id <= total ==> p[id].status != Advanced
    ensures var r := ScanFrom(p, idx, total, batch, now);
      idx <= r.idx && r.idx - idx == |r.advanced| + |r.skipped| + CountExpired(p, idx, r.idx)
    decreases batch
  {
    if batch > 0 && idx < total {
      var id := idx + 1;
      var q := if p[id].status == Pending then p[id := AdvancePosition(p[id], now)] else p;
      ScanCounts(q, id, total, batch - 1, now);
      CountExpiredFirst(p, q, idx, ScanFrom(p, idx, total, batch, now).idx);
    }
  }
}
