/** Who may call the queue and when, and what the calls of a run, taken by themselves, make of it. */
module QueueCalls {
  import opened Common
  import opened Queue
  import opened QueueProofs

  // ---------- exactly which calls succeed ----------

  ghost predicate PendingAt(p: map<nat, Position>, id: nat) {
    id in p && p[id].status == Pending
  }

  predicate IsDistinct(ids: seq<nat>) {
    forall i, j :: 0 <= i < j < |ids| ==> ids[i] != ids[j]
  }

  /** The caller, the state of the queue and the arguments that a call needs. */
  ghost predicate Permitted(s: State, op: Op) {
    var admin, status, p := s.config.admin, s.config.status, s.positions;
    match op
    case ProposeAdmin(caller, _) => caller == admin
    case AcceptAdmin(caller) => s.pendingAdmin == Some(caller)
    case OpenEnrollment(caller) => caller == admin && status == Draft
    case CloseEnrollment(caller) => caller == admin && status == EnrollmentOpen
    case Enroll(_) => status == EnrollmentOpen && |ActiveIds(p)| < s.config.maxPositions && |p| < U32_MAX - 1
    case Cancel(identity, id) => PendingAt(p, id) && p[id].identity == identity
    case Advance(caller, batchSize) => batchSize >= 1 && CanAdvance(s, caller)
    case Expire(caller, id) => caller == admin && status in {AdvancementActive, Closed} && PendingAt(p, id)
    case ExpireBatch(caller, ids) =>
      && caller == admin && status in {AdvancementActive, Closed}
      && IsDistinct(ids) && forall i :: 0 <= i < |ids| ==> PendingAt(p, ids[i])
    case Close(caller) => caller == admin && status != Closed
  }

  /** Only the admin advances a queue, in batches of at least one, first in, first out and after enrollment closed. */
  lemma {:induction false} AdvanceOkIff(s: State, caller: Address, batchSize: nat, now: nat)
    ensures DoAdvance(s, caller, batchSize, now).Ok? <==> batchSize >= 1 && CanAdvance(s, caller)
  {
  }

  lemma {:induction false} ExpireOkIff(s: State, caller: Address, ids: seq<nat>, now: nat)
    ensures DoExpireBatch(s, caller, ids, now).Ok? <==>
              && caller == s.config.admin && s.config.status in {AdvancementActive, Closed}
              && IsDistinct(ids) && forall i :: 0 <= i < |ids| ==> PendingAt(s.positions, ids[i])
  {
    ExpireAllIff(s.positions, ids);
  }

  lemma Sizes(s: State)
    requires Inv(s)
    ensures s.activeCount == |ActiveIds(s.positions)| && s.nextId - 1 == |s.positions|
  {
    CreatedIsSize(s.positions, s.nextId);
    ActiveIsSize(s.positions, s.nextId);
  }

  lemma {:induction false} StepOkIff(s: State, op: Op, now: nat)
    requires Inv(s)
    ensures Step(s, op, now).Ok? <==> Permitted(s, op)
  {
    match op
    case Enroll(_) => Sizes(s);
    case Advance(caller, batchSize) => AdvanceOkIff(s, caller, batchSize, now);
    case Expire(caller, id) => ExpireOkIff(s, caller, [id], now);
    case ExpireBatch(caller, ids) => ExpireOkIff(s, caller, ids, now);
    case _ =>
  }

  /** After any run, a call succeeds exactly when it is permitted. */
  lemma {:induction false} CallSucceedsIff(config: Config, before: seq<Call>, op: Op, now: nat)
    ensures var s := Run(Initial(config), before).state; Step(s, op, now).Ok? <==> Permitted(s, op)
  {
    InitialInv(config);
    RunInv(Initial(config), before);
    StepOkIff(Run(Initial(config), before).state, op, now);
  }

  // ---------- the calls of a run ----------

  /** A call that succeeded, with what it left behind. */
  datatype Made = Made(call: Call, reply: Reply)

  function Trace(s: State, calls: seq<Call>): seq<Made>
    decreases |calls|
  {
    if calls == [] then []
    else match Step(s, calls[0].op, calls[0].at)
      case Panic(_) => Trace(s, calls[1..])
      case Ok(r) => [Made(calls[0], r)] + Trace(r.state, calls[1..])
  }

  function AdminCaller(op: Op): Option<Address> {
    match op
    case ProposeAdmin(caller, _) => Some(caller)
    case OpenEnrollment(caller) => Some(caller)
    case CloseEnrollment(caller) => Some(caller)
    case Advance(caller, _) => Some(caller)
    case Expire(caller, _) => Some(caller)
    case ExpireBatch(caller, _) => Some(caller)
    case Close(caller) => Some(caller)
    case _ => None
  }

  function EventAdmin(e: Event): Option<Address> {
    match e
    case OwnershipTransferred(previous, _) => Some(previous)
    case EnrolledEvent(_, _, _) => None
    case CancelledEvent(_, _, _) => None
    case _ => Some(e.admin)
  }

  function EventTime(e: Event): Option<nat> {
    if e.InitializedEvent? || e.OwnershipTransferred? then None else Some(e.at)
  }

  /** The configuration that one successful call leaves. */
  function Reconfigured(config: Config, m: Made): Config {
    match m.call.op
    case AcceptAdmin(caller) => config.(admin := caller)
    case OpenEnrollment(_) => config.(status := EnrollmentOpen)
    case CloseEnrollment(_) => config.(status := EnrollmentClosed)
    case Close(_) => config.(status := Closed)
    case Advance(_, _) => if m.reply.ids == [] then config else config.(status := AdvancementActive)
    case _ => config
  }

  function ConfigAfter(config: Config, made: seq<Made>): Config
    decreases |made|
  {
    if made == [] then config else ConfigAfter(Reconfigured(config, made[0]), made[1..])
  }

  /** The proposal that stands: the last one made, unless it has been accepted since. */
  function Standing(pending: Option<Address>, made: seq<Made>): Option<Address>
    decreases |made|
  {
    if made == [] then pending
    else Standing(match made[0].call.op
                  case ProposeAdmin(_, proposed) => Some(proposed)
                  case AcceptAdmin(_) => None
                  case _ => pending, made[1..])
  }

  /** What a call says agrees with the admin, the proposal and the time in force when it was made. */
  ghost predicate Signed(admin: Address, pending: Option<Address>, m: Made) {
    && (AdminCaller(m.call.op).Some? ==> AdminCaller(m.call.op) == Some(admin))
    && (m.call.op.AcceptAdmin? ==>
          pending == Some(m.call.op.caller) && m.reply.events == [OwnershipTransferred(admin, m.call.op.caller)])
    && (forall e :: e in m.reply.events && EventAdmin(e).Some? ==> EventAdmin(e) == Some(admin))
    && (forall e :: e in m.reply.events && EventTime(e).Some? ==> EventTime(e) == Some(m.call.at))
  }

  lemma {:induction false} StepReconfigures(s: State, op: Op, now: nat)
    requires Step(s, op, now).Ok?
    ensures var r := Step(s, op, now).value; var m := Made(Call(op, now), r);
      r.state.config == Reconfigured(s.config, m) && r.state.pendingAdmin == Standing(s.pendingAdmin, [m])
  {
  }

  lemma AdvanceSigned(s: State, caller: Address, batchSize: nat, now: nat)
    requires DoAdvance(s, caller, batchSize, now).Ok?
    ensures var r := DoAdvance(s, caller, batchSize, now).value;
      Signed(s.config.admin, s.pendingAdmin, Made(Call(Advance(caller, batchSize), now), r))
  {
    forall e | e in DoAdvance(s, caller, batchSize, now).value.events
      ensures EventAdmin(e) == Some(caller) && EventTime(e) == Some(now)
    {
    }
  }

  lemma {:induction false} StepSigned(s: State, op: Op, now: nat)
    requires Step(s, op, now).Ok?
    ensures Signed(s.config.admin, s.pendingAdmin, Made(Call(op, now), Step(s, op, now).value))
  {
    match op
    case Advance(caller, batchSize) => AdvanceSigned(s, caller, batchSize, now);
    case _ =>
  }

  lemma {:induction false} RunReconfigures(s: State, calls: seq<Call>)
    ensures var t := Run(s, calls).state; var made := Trace(s, calls);
      t.config == ConfigAfter(s.config, made) && t.pendingAdmin == Standing(s.pendingAdmin, made)
    decreases |calls|
  {
    if calls != [] {
      var r := Step(s, calls[0].op, calls[0].at);
      if r.Ok? {
        StepReconfigures(s, calls[0].op, calls[0].at);
        RunReconfigures(r.value.state, calls[1..]);
      } else {
        RunReconfigures(s, calls[1..]);
      }
    }
  }

  lemma {:induction false} RunSigned(s: State, calls: seq<Call>, i: nat)
    requires i < |Trace(s, calls)|
    ensures var made := Trace(s, calls);
      Signed(ConfigAfter(s.config, made[..i]).admin, Standing(s.pendingAdmin, made[..i]), made[i])
    decreases |calls|
  {
    var r := Step(s, calls[0].op, calls[0].at);
    if r.Ok? {
      if i == 0 {
        StepSigned(s, calls[0].op, calls[0].at);
      } else {
        StepReconfigures(s, calls[0].op, calls[0].at);
        RunSigned(r.value.state, calls[1..], i - 1);
        assert Trace(s, calls)[..i][1..] == Trace(r.value.state, calls[1..])[..i - 1];
      }
    } else {
      RunSigned(s, calls[1..], i);
    }
  }

  /**
    * Over any run, every admin call was made by the admin in force at that moment, every event names that admin and the
    * time of its call, ownership passes only to the address whose proposal stood, and the configuration is what the
    * successful calls made of it.
    */
  lemma {:induction false} OnlyTheAdminActs(config: Config, calls: seq<Call>)
    ensures var made := Trace(Initial(config), calls);
      && (forall i :: 0 <= i < |made| ==>
            Signed(ConfigAfter(config, made[..i]).admin, Standing(None, made[..i]), made[i]))
      && Run(Initial(config), calls).state.config == ConfigAfter(config, made)
  {
    var made := Trace(Initial(config), calls);
    RunReconfigures(Initial(config), calls);
    forall i | 0 <= i < |made|
      ensures Signed(ConfigAfter(config, made[..i]).admin, Standing(None, made[..i]), made[i])
    {
      RunSigned(Initial(config), calls, i);
    }
  }

  // ---------- what became of each position ----------

  /** The call that ended the waiting of a position this way. */
  ghost predicate Ends(m: Made, id: nat, status: PositionStatus) {
    match status
    case Pending => false
    case Advanced => m.call.op.Advance? && id in m.reply.ids
    case Expired => (m.call.op.Expire? && m.call.op.id == id) || (m.call.op.ExpireBatch? && id in m.call.op.ids)
    case Cancelled => m.call.op.Cancel? && m.call.op.id == id
  }

  /** An advanced position carries the time of the call, a cancelled one belongs to the caller. */
  ghost predicate Fits(m: Made, p: Position) {
    && (m.call.op.Advance? ==> p.advancedAt == Some(m.call.at))
    && (m.call.op.Cancel? ==> p.identity == m.call.op.identity)
  }

  ghost predicate Has(s: State, id: nat, status: PositionStatus) {
    id in s.positions && s.positions[id].status == status
  }

  lemma ScanEnds(p: map<nat, Position>, idx: nat, total: nat, batch: nat, now: nat, id: nat)
    requires PositionsOk(p, total + 1) && idx <= total
    ensures var r := ScanFrom(p, idx, total, batch, now);
      && (id in r.positions <==> id in p)
      && (id in r.advanced ==> id in p && r.positions[id] == AdvancePosition(p[id], now))
      && (id !in r.advanced && id in p ==> r.positions[id] == p[id])
      && (id in r.advanced ==> p[id].status == Pending)
  {
    ScanServes(p, idx, total, batch, now);
  }

  lemma {:induction false} AdvanceEnds(s: State, caller: Address, batchSize: nat, now: nat, id: nat,
                                       status: PositionStatus)
    requires Inv(s) && DoAdvance(s, caller, batchSize, now).Ok? && status != Pending
    ensures var r := DoAdvance(s, caller, batchSize, now).value;
      var m := Made(Call(Advance(caller, batchSize), now), r);
      && (Has(r.state, id, status) <==> Has(s, id, status) || Ends(m, id, status))
      && (Ends(m, id, status) ==> Has(r.state, id, status) && Fits(m, r.state.positions[id]))
  {
    ScanEnds(s.positions, s.idx, s.nextId - 1, batchSize, now, id);
  }

  lemma {:induction false} ExpireEnds(s: State, op: Op, ids: seq<nat>, now: nat, id: nat, status: PositionStatus)
    requires (op.ExpireBatch? && ids == op.ids) || (op.Expire? && ids == [op.id])
    requires DoExpireBatch(s, op.caller, ids, now).Ok? && status != Pending
    ensures var r := DoExpireBatch(s, op.caller, ids, now).value; var m := Made(Call(op, now), r);
      && (Has(r.state, id, status) <==> Has(s, id, status) || Ends(m, id, status))
      && (Ends(m, id, status) ==> Has(r.state, id, status) && Fits(m, r.state.positions[id]))
  {
    ExpireAllIff(s.positions, ids);
    if Ends(Made(Call(op, now), DoExpireBatch(s, op.caller, ids, now).value), id, status) {
      var i :| 0 <= i < |ids| && ids[i] == id;
    }
  }

  lemma {:induction false} StepEnds(s: State, op: Op, now: nat, id: nat, status: PositionStatus)
    requires Inv(s) && Step(s, op, now).Ok? && status != Pending
    ensures var r := Step(s, op, now).value; var m := Made(Call(op, now), r);
      && (Has(r.state, id, status) <==> Has(s, id, status) || Ends(m, id, status))
      && (Ends(m, id, status) ==> Has(r.state, id, status) && Fits(m, r.state.positions[id]))
  {
    match op
    case Advance(caller, batchSize) => AdvanceEnds(s, caller, batchSize, now, id, status);
    case Expire(_, one) => ExpireEnds(s, op, [one], now, id, status);
    case ExpireBatch(_, ids) => ExpireEnds(s, op, ids, now, id, status);
    case _ =>
  }

  ghost predicate SomeEnds(made: seq<Made>, id: nat, status: PositionStatus) {
    exists i :: 0 <= i < |made| && Ends(made[i], id, status)
  }

  lemma SomeEndsCons(m: Made, rest: seq<Made>, id: nat, status: PositionStatus)
    ensures SomeEnds([m] + rest, id, status) <==> Ends(m, id, status) || SomeEnds(rest, id, status)
  {
    var all := [m] + rest;
    if Ends(m, id, status) { assert Ends(all[0], id, status); }
    if SomeEnds(rest, id, status) {
      var i :| 0 <= i < |rest| && Ends(rest[i], id, status);
      assert Ends(all[i + 1], id, status);
    }
    if SomeEnds(all, id, status) {
      var i :| 0 <= i < |all| && Ends(all[i], id, status);
      if i > 0 { assert Ends(rest[i - 1], id, status); }
    }
  }

  lemma {:induction false} RunEnds(s: State, calls: seq<Call>, id: nat, status: PositionStatus)
    requires Inv(s) && status != Pending
    ensures Has(Run(s, calls).state, id, status) <==> Has(s, id, status) || SomeEnds(Trace(s, calls), id, status)
    decreases |calls|
  {
    if calls != [] {
      var r := Step(s, calls[0].op, calls[0].at);
      if r.Ok? {
        StepInv(s, calls[0].op, calls[0].at);
        StepEnds(s, calls[0].op, calls[0].at, id, status);
        RunEnds(r.value.state, calls[1..], id, status);
        SomeEndsCons(Made(calls[0], r.value), Trace(r.value.state, calls[1..]), id, status);
      } else {
        RunEnds(s, calls[1..], id, status);
      }
    }
  }

  lemma {:induction false} EndedForGood(s: State, calls: seq<Call>, id: nat)
    requires Inv(s) && id in s.positions && s.positions[id].status != Pending
    ensures var t := Run(s, calls).state; id in t.positions && t.positions[id] == s.positions[id]
  {
    RunInv(s, calls);
    assert SamePlace(s.positions[id], Run(s, calls).state.positions[id]);
  }

  lemma {:induction false} FirstFits(s: State, calls: seq<Call>, id: nat, status: PositionStatus)
    requires Inv(s) && calls != [] && Step(s, calls[0].op, calls[0].at).Ok?
    requires Ends(Made(calls[0], Step(s, calls[0].op, calls[0].at).value), id, status)
    ensures var r := Step(s, calls[0].op, calls[0].at).value; var t := Run(r.state, calls[1..]).state;
      id in t.positions && Fits(Made(calls[0], r), t.positions[id])
  {
    StepInv(s, calls[0].op, calls[0].at);
    StepEnds(s, calls[0].op, calls[0].at, id, status);
    EndedForGood(Step(s, calls[0].op, calls[0].at).value.state, calls[1..], id);
  }

  /** Whatever ended a position during the run fits what the run left of it. */
  ghost predicate AllFit(made: seq<Made>, p: map<nat, Position>, id: nat, status: PositionStatus) {
    forall i :: 0 <= i < |made| && Ends(made[i], id, status) ==> id in p && Fits(made[i], p[id])
  }

  lemma AllFitCons(m: Made, rest: seq<Made>, p: map<nat, Position>, id: nat, status: PositionStatus)
    requires AllFit(rest, p, id, status) && (Ends(m, id, status) ==> id in p && Fits(m, p[id]))
    ensures AllFit([m] + rest, p, id, status)
  {
  }

  lemma {:induction false} RunFits(s: State, calls: seq<Call>, id: nat, status: PositionStatus)
    requires Inv(s)
    ensures AllFit(Trace(s, calls), Run(s, calls).state.positions, id, status)
    decreases |calls|
  {
    if calls != [] {
      var r := Step(s, calls[0].op, calls[0].at);
      if r.Ok? {
        var t, m := r.value.state, Made(calls[0], r.value);
        StepInv(s, calls[0].op, calls[0].at);
        RunFits(t, calls[1..], id, status);
        if Ends(m, id, status) { FirstFits(s, calls, id, status); }
        AllFitCons(m, Trace(t, calls[1..]), Run(t, calls[1..]).state.positions, id, status);
      } else {
        RunFits(s, calls[1..], id, status);
      }
    }
  }

  /**
    * After any run a position is advanced, expired or cancelled exactly when a successful call of the run did it: an
    * `advance` that returned it and whose time it carries, an expiry that listed it, or a cancellation by its owner.
    */
  lemma {:induction false} EveryEndHasItsCall(config: Config, calls: seq<Call>, id: nat, status: PositionStatus)
    requires status != Pending
    ensures var s := Run(Initial(config), calls).state; var made := Trace(Initial(config), calls);
      && ((id in s.positions && s.positions[id].status == status) <==>
            exists i :: 0 <= i < |made| && Ends(made[i], id, status))
      && (forall i :: 0 <= i < |made| && Ends(made[i], id, status) ==> Fits(made[i], s.positions[id]))
  {
    InitialInv(config);
    RunEnds(Initial(config), calls, id, status);
    RunFits(Initial(config), calls, id, status);
  }

  // ---------- who has which position ----------

  function Enrolls(made: seq<Made>): seq<Made> {
    if made == [] then []
    else (if made[0].call.op.Enroll? then [made[0]] else []) + Enrolls(made[1..])
  }

  /** The k-th enrolment holds this position. */
  ghost predicate Holds(p: map<nat, Position>, id: nat, m: Made) {
    && m.call.op.Enroll? && m.reply.ids == [id]
    && id in p && p[id].identity == m.call.op.identity && p[id].enrolledAt == m.call.at
  }

  lemma {:induction false} StepEnrolls(s: State, op: Op, now: nat)
    requires Inv(s) && Step(s, op, now).Ok?
    ensures var r := Step(s, op, now).value;
      if op.Enroll? then r.state.nextId == s.nextId + 1 && Holds(r.state.positions, s.nextId, Made(Call(op, now), r))
      else r.state.nextId == s.nextId
  {
  }

  ghost predicate HoldFrom(p: map<nat, Position>, first: nat, e: seq<Made>) {
    forall k :: 0 <= k < |e| ==> Holds(p, first + k, e[k])
  }

  lemma HoldsFirst(p: map<nat, Position>, first: nat, m: Made, later: seq<Made>)
    requires Holds(p, first, m) && HoldFrom(p, first + 1, later)
    ensures HoldFrom(p, first, [m] + later)
  {
    var e := [m] + later;
    forall k | 0 <= k < |e| ensures Holds(p, first + k, e[k]) {
      if k > 0 { assert Holds(p, first + 1 + (k - 1), later[k - 1]); }
    }
  }

  lemma {:induction false} StillHolds(s: State, calls: seq<Call>, id: nat, m: Made)
    requires Inv(s) && Holds(s.positions, id, m)
    ensures Holds(Run(s, calls).state.positions, id, m)
  {
    RunInv(s, calls);
  }

  lemma {:induction false} RunEnrolls(s: State, calls: seq<Call>)
    requires Inv(s)
    ensures var t := Run(s, calls).state; var e := Enrolls(Trace(s, calls));
      t.nextId == s.nextId + |e| && HoldFrom(t.positions, s.nextId, e)
    decreases |calls|
  {
    if calls != [] {
      var op, at := calls[0].op, calls[0].at;
      var r := Step(s, op, at);
      if r.Ok? {
        StepInv(s, op, at);
        StepEnrolls(s, op, at);
        RunEnrolls(r.value.state, calls[1..]);
        var later := Enrolls(Trace(r.value.state, calls[1..]));
        assert Trace(s, calls)[1..] == Trace(r.value.state, calls[1..]);
        if op.Enroll? {
          StillHolds(r.value.state, calls[1..], s.nextId, Made(calls[0], r.value));
          HoldsFirst(Run(s, calls).state.positions, s.nextId, Made(calls[0], r.value), later);
        } else {
          assert [] + later == later;
        }
      } else {
        RunEnrolls(s, calls[1..]);
      }
    }
  }

  /** The positions of a queue are its successful enrolments, numbered from one in the order they were made. */
  lemma {:induction false} PositionsAreEnrolments(config: Config, calls: seq<Call>)
    ensures var s := Run(Initial(config), calls).state; var e := Enrolls(Trace(Initial(config), calls));
      && (forall id :: id in s.positions <==> 1 <= id <= |e|)
      && (forall k :: 0 <= k < |e| ==> Holds(s.positions, 1 + k, e[k]))
  {
    InitialInv(config);
    RunInv(Initial(config), calls);
    RunEnrolls(Initial(config), calls);
  }
}
