/** The queue contract: its storage as a value and each entry point as a transition. */
module Queue {
  import opened Common

  const U32_MAX: nat := 0xffff_ffff

  type Address = nat

  datatype AdvancementRule = Fifo | PriorityTier | VerifiableRandomness
  datatype QueueStatus = Draft | EnrollmentOpen | EnrollmentClosed | AdvancementActive | Closed
  datatype PositionStatus = Pending | Advanced | Expired | Cancelled

  datatype Config = Config(admin: Address, maxPositions: nat, status: QueueStatus, rule: AdvancementRule)

  datatype Position = Position(
    id: nat, enrolledAt: nat, identity: Address, status: PositionStatus, advancedAt: Option<nat>)

  datatype State = State(
    config: Config, pendingAdmin: Option<Address>,
    nextId: nat, activeCount: nat, idx: nat, positions: map<nat, Position>)

  datatype Event =
    | InitializedEvent(admin: Address)
    | OwnershipTransferred(previous: Address, admin: Address)
    | EnrollmentOpenedEvent(admin: Address, at: nat)
    | EnrollmentClosedEvent(admin: Address, at: nat)
    | EnrolledEvent(id: nat, identity: Address, at: nat)
    | CancelledEvent(id: nat, identity: Address, at: nat)
    | SkippedEvent(id: nat, admin: Address, at: nat)
    | AdvancedEvent(id: nat, admin: Address, at: nat)
    | ExpiredEvent(id: nat, admin: Address, at: nat)
    | QueueClosedEvent(admin: Address, at: nat)

  datatype Op =
    | ProposeAdmin(caller: Address, proposed: Address)
    | AcceptAdmin(caller: Address)
    | OpenEnrollment(caller: Address)
    | CloseEnrollment(caller: Address)
    | Enroll(identity: Address)
    | Cancel(identity: Address, id: nat)
    | Advance(caller: Address, batchSize: nat)
    | Expire(caller: Address, id: nat)
    | ExpireBatch(caller: Address, ids: seq<nat>)
    | Close(caller: Address)

  /** What a call that does not panic leaves behind: the storage, the ids it returns, the events it publishes. */
  datatype Reply = Reply(state: State, ids: seq<nat>, events: seq<Event>)

  function Initial(config: Config): State {
    State(config, None, 1, 0, 0, map[])
  }

  /** A second `initialize` is not refused: it replaces the configuration and restarts the counters. */
  function DoInitialize(s: State, admin: Address, config: Config): Result<State> {
    if config.admin != admin then Panic("not_admin")
    else Ok(s.(config := config, nextId := 1, activeCount := 0, idx := 0))
  }

  // ---------- the scan of `advance` ----------

  datatype Scan = Scan(positions: map<nat, Position>, idx: nat, advanced: seq<nat>, skipped: seq<nat>)

  function AdvancePosition(p: Position, now: nat): Position {
    p.(status := Advanced, advancedAt := Some(now))
  }

  /** Examines up to `batch` positions after the cursor, in id order. */
  function ScanFrom(positions: map<nat, Position>, idx: nat, total: nat, batch: nat, now: nat): Scan
    decreases batch
  {
    if batch == 0 || idx >= total || idx + 1 !in positions then Scan(positions, idx, [], [])
    else
      var id := idx + 1;
      match positions[id].status
      case Pending =>
        var rest := ScanFrom(positions[id := AdvancePosition(positions[id], now)], id, total, batch - 1, now);
        rest.(advanced := [id] + rest.advanced)
      case Cancelled =>
        var rest := ScanFrom(positions, id, total, batch - 1, now);
        rest.(skipped := [id] + rest.skipped)
      case _ => ScanFrom(positions, id, total, batch - 1, now)
  }

  function SkippedEvents(ids: seq<nat>, admin: Address, now: nat): seq<Event> {
    seq(|ids|, i requires 0 <= i < |ids| => SkippedEvent(ids[i], admin, now))
  }

  function AdvancedEvents(ids: seq<nat>, admin: Address, now: nat): seq<Event> {
    seq(|ids|, i requires 0 <= i < |ids| => AdvancedEvent(ids[i], admin, now))
  }

  function ExpiredEvents(ids: seq<nat>, admin: Address, now: nat): seq<Event> {
    seq(|ids|, i requires 0 <= i < |ids| => ExpiredEvent(ids[i], admin, now))
  }

  // ---------- the entry points ----------

  function DoAdvance(s: State, caller: Address, batchSize: nat, now: nat): Result<Reply> {
    if batchSize == 0 then Panic("batch_size_must_be_positive")
    else if s.config.admin != caller then Panic("not_admin")
    else if s.config.status == Closed then Panic("queue is closed")
    else if s.config.status != EnrollmentClosed && s.config.status != AdvancementActive then
      Panic("enrollment must be closed before advancing")
    else match s.config.rule
      case PriorityTier => Panic("priority_tier_not_implemented")
      case VerifiableRandomness => Panic("vrf_not_implemented")
      case Fifo =>
        var scan := ScanFrom(s.positions, s.idx, if s.nextId == 0 then 0 else s.nextId - 1, batchSize, now);
        var status := if scan.advanced != [] then AdvancementActive else s.config.status;
        Ok(Reply(
          s.(positions := scan.positions, idx := scan.idx, config := s.config.(status := status)),
          scan.advanced,
          SkippedEvents(scan.skipped, caller, now) + AdvancedEvents(scan.advanced, caller, now)))
  }

  function DoEnroll(s: State, identity: Address, now: nat): Result<Reply> {
    if s.config.status != EnrollmentOpen then Panic("enrollment is not open")
    else if s.activeCount >= s.config.maxPositions then Panic("queue is full")
    else if s.nextId >= U32_MAX then Panic("attempt to add with overflow")
    else Ok(Reply(
      s.(positions := s.positions[s.nextId := Position(s.nextId, now, identity, Pending, None)],
         nextId := s.nextId + 1, activeCount := s.activeCount + 1),
      [s.nextId], [EnrolledEvent(s.nextId, identity, now)]))
  }

  function DoCancel(s: State, identity: Address, id: nat, now: nat): Result<Reply> {
    if id !in s.positions then Panic("position not found")
    else if s.positions[id].identity != identity then Panic("not your position")
    else if s.positions[id].status != Pending then Panic("only pending positions can be cancelled")
    else Ok(Reply(
      s.(positions := s.positions[id := s.positions[id].(status := Cancelled)],
         activeCount := if s.activeCount == 0 then 0 else s.activeCount - 1),
      [], [CancelledEvent(id, identity, now)]))
  }

  /** Expires the listed positions one after another; the first that is not pending stops everything. */
  function ExpireAll(positions: map<nat, Position>, ids: seq<nat>): Result<map<nat, Position>> {
    if ids == [] then Ok(positions)
    else if ids[0] !in positions then Panic("position not found")
    else if positions[ids[0]].status != Pending then Panic("only pending positions can be expired")
    else ExpireAll(positions[ids[0] := positions[ids[0]].(status := Expired)], ids[1..])
  }

  function DoExpireBatch(s: State, caller: Address, ids: seq<nat>, now: nat): Result<Reply> {
    if s.config.admin != caller then Panic("not_admin")
    else if s.config.status != AdvancementActive && s.config.status != Closed then
      Panic("queue must be in advancement or closed state")
    else match ExpireAll(s.positions, ids)
      case Panic(reason) => Panic(reason)
      case Ok(positions) => Ok(Reply(s.(positions := positions), [], ExpiredEvents(ids, caller, now)))
  }

  function SetStatus(s: State, status: QueueStatus): State {
    s.(config := s.config.(status := status))
  }

  function Step(s: State, op: Op, now: nat): Result<Reply> {
    match op
    case ProposeAdmin(caller, proposed) =>
      if s.config.admin != caller then Panic("not_admin") else Ok(Reply(s.(pendingAdmin := Some(proposed)), [], []))
    case AcceptAdmin(caller) =>
      if s.pendingAdmin != Some(caller) then Panic("not_pending_admin")
      else Ok(Reply(s.(config := s.config.(admin := caller), pendingAdmin := None), [],
                    [OwnershipTransferred(s.config.admin, caller)]))
    case OpenEnrollment(caller) =>
      if s.config.admin != caller then Panic("not_admin")
      else if s.config.status != Draft then Panic("enrollment can only be opened from draft state")
      else Ok(Reply(SetStatus(s, EnrollmentOpen), [], [EnrollmentOpenedEvent(caller, now)]))
    case CloseEnrollment(caller) =>
      if s.config.admin != caller then Panic("not_admin")
      else if s.config.status != EnrollmentOpen then Panic("enrollment can only be closed from enrollment_open state")
      else Ok(Reply(SetStatus(s, EnrollmentClosed), [], [EnrollmentClosedEvent(caller, now)]))
    case Enroll(identity) => DoEnroll(s, identity, now)
    case Cancel(identity, id) => DoCancel(s, identity, id, now)
    case Advance(caller, batchSize) => DoAdvance(s, caller, batchSize, now)
    case Expire(caller, id) => DoExpireBatch(s, caller, [id], now)
    case ExpireBatch(caller, ids) => DoExpireBatch(s, caller, ids, now)
    case Close(caller) =>
      if s.config.admin != caller then Panic("not_admin")
      else if s.config.status == Closed then Panic("queue is closed")
      else Ok(Reply(SetStatus(s, Closed), [], [QueueClosedEvent(caller, now)]))
  }

  // ---------- runs ----------

  datatype Call = Call(op: Op, at: nat)

  /** `served` concatenates what every `advance` returned. */
  datatype RunResult = RunResult(state: State, served: seq<nat>, events: seq<Event>)

  /** A call that panics has no effect. */
  function Run(s: State, calls: seq<Call>): RunResult
    decreases |calls|
  {
    if calls == [] then RunResult(s, [], [])
    else match Step(s, calls[0].op, calls[0].at)
      case Panic(_) => Run(s, calls[1..])
      case Ok(r) =>
        var rest := Run(r.state, calls[1..]);
        RunResult(rest.state, (if calls[0].op.Advance? then r.ids else []) + rest.served, r.events + rest.events)
  }
}
