/** The queue contract over its persistent storage; a call that panics returns without having changed anything. */
module QueueContract {
  import opened Common
  import opened Queue
  import opened QueueProofs

  class QueueContract {
    var config: Config
    var pendingAdmin: Option<Address>
    var nextId: nat
    var activeCount: nat
    var idx: nat
    var pos: map<nat, Position>
    var events: seq<Event>

    ghost function View(): State
      reads this
    {
      State(config, pendingAdmin, nextId, activeCount, idx, pos)
    }

    constructor (config: Config)
      ensures View() == Initial(config) && events == [InitializedEvent(config.admin)]
    {
      this.config := config;
      pendingAdmin := None;
      nextId, activeCount, idx := 1, 0, 0;
      pos := map[];
      events := [InitializedEvent(config.admin)];
    }

    /** The first call on empty storage. */
    static method Initialize(admin: Address, config: Config) returns (r: Result<QueueContract>)
      ensures r.Ok? <==> config.admin == admin
      ensures r.Panic? ==> r.reason == "not_admin"
      ensures r.Ok? ==>
        && fresh(r.value) && r.value.View() == Initial(config) && Inv(r.value.View())
        && r.value.events == [InitializedEvent(admin)]
    {
      if config.admin != admin { return Panic("not_admin"); }
      InitialInv(config);
      var contract := new QueueContract(config);
      return Ok(contract);
    }

    /** Any later call: nothing refuses it. */
    method InitializeAgain(admin: Address, config: Config) returns (r: Result<()>)
      modifies this
      ensures match DoInitialize(old(View()), admin, config)
              case Panic(reason) => r == Panic(reason) && View() == old(View()) && events == old(events)
              case Ok(s) => r == Ok(()) && View() == s && events == old(events) + [InitializedEvent(admin)]
    {
      if config.admin != admin { return Panic("not_admin"); }
      this.config := config;
      nextId, activeCount, idx := 1, 0, 0;
      events := events + [InitializedEvent(admin)];
      return Ok(());
    }

    /** The call did what the transition says, and published its events; a panic left everything alone. */
    twostate predicate Performed(op: Op, now: nat, new r: Result<seq<nat>>)
      reads this
    {
      match Step(old(View()), op, now)
      case Panic(reason) => r == Panic(reason) && View() == old(View()) && events == old(events)
      case Ok(reply) => r == Ok(reply.ids) && View() == reply.state && events == old(events) + reply.events
    }

    method ProposeAdmin(caller: Address, proposed: Address) returns (r: Result<seq<nat>>)
      modifies this
      ensures Performed(Op.ProposeAdmin(caller, proposed), 0, r)
    {
      if config.admin != caller { return Panic("not_admin"); }
      pendingAdmin := Some(proposed);
      assert events == events + [];
      return Ok([]);
    }

    method AcceptAdmin(caller: Address) returns (r: Result<seq<nat>>)
      modifies this
      ensures Performed(Op.AcceptAdmin(caller), 0, r)
    {
      if pendingAdmin != Some(caller) { return Panic("not_pending_admin"); }
      var previous := config.admin;
      config := config.(admin := caller);
      pendingAdmin := None;
      events := events + [OwnershipTransferred(previous, caller)];
      return Ok([]);
    }

    method OpenEnrollment(caller: Address, now: nat) returns (r: Result<seq<nat>>)
      modifies this
      ensures Performed(Op.OpenEnrollment(caller), now, r)
    {
      if config.admin != caller { return Panic("not_admin"); }
      if config.status != Draft { return Panic("enrollment can only be opened from draft state"); }
      config := config.(status := EnrollmentOpen);
      events := events + [EnrollmentOpenedEvent(caller, now)];
      return Ok([]);
    }

    method CloseEnrollment(caller: Address, now: nat) returns (r: Result<seq<nat>>)
      modifies this
      ensures Performed(Op.CloseEnrollment(caller), now, r)
    {
      if config.admin != caller { return Panic("not_admin"); }
      if config.status != EnrollmentOpen {
        return Panic("enrollment can only be closed from enrollment_open state");
      }
      config := config.(status := EnrollmentClosed);
      events := events + [EnrollmentClosedEvent(caller, now)];
      return Ok([]);
    }

    method EnrollPosition(identity: Address, now: nat) returns (r: Result<seq<nat>>)
      modifies this
      ensures Performed(Op.Enroll(identity), now, r)
    {
      if config.status != EnrollmentOpen { return Panic("enrollment is not open"); }
      if activeCount >= config.maxPositions { return Panic("queue is full"); }
      if nextId >= U32_MAX { return Panic("attempt to add with overflow"); }
      var id := nextId;
      pos := pos[id := Position(id, now, identity, Pending, None)];
      nextId := id + 1;
      activeCount := activeCount + 1;
      events := events + [EnrolledEvent(id, identity, now)];
      return Ok([id]);
    }

    method CancelPosition(identity: Address, id: nat, now: nat) returns (r: Result<seq<nat>>)
      modifies this
      ensures Performed(Op.Cancel(identity, id), now, r)
    {
      if id !in pos { return Panic("position not found"); }
      var p := pos[id];
      if p.identity != identity { return Panic("not your position"); }
      if p.status != Pending { return Panic("only pending positions can be cancelled"); }
      pos := pos[id := p.(status := Cancelled)];
      activeCount := if activeCount == 0 then 0 else activeCount - 1;
      events := events + [CancelledEvent(id, identity, now)];
      return Ok([]);
    }

    /** The scan: examines up to `batchSize` positions, advancing the pending ones where they are stored. */
    method ScanPositions(caller: Address, batchSize: nat, now: nat)
      returns (cursor: nat, advanced: seq<nat>, published: seq<Event>)
      modifies this`pos
      ensures var scan := ScanFrom(old(pos), idx, if nextId == 0 then 0 else nextId - 1, batchSize, now);
        && pos == scan.positions && cursor == scan.idx && advanced == scan.advanced
        && published == SkippedEvents(scan.skipped, caller, now)
    {
      advanced, published, cursor := [], [], idx;
      ghost var skipped: seq<nat> := [];
      var totalCreated: nat := if nextId == 0 then 0 else nextId - 1;
      ghost var scan := ScanFrom(pos, idx, totalCreated, batchSize, now);
      var left: nat := batchSize;
      while left > 0
        invariant left <= batchSize
        invariant var rest := ScanFrom(pos, cursor, totalCreated, left, now);
          scan == Scan(rest.positions, rest.idx, advanced + rest.advanced, skipped + rest.skipped)
        invariant published == SkippedEvents(skipped, caller, now)
      {
        if cursor >= totalCreated { break; }
        var id := cursor + 1;
        if id !in pos { break; }
        ScanTurn(pos, cursor, totalCreated, left, now, advanced, skipped);
        var p := pos[id];
        if p.status == Pending {
          pos := pos[id := p.(status := Advanced, advancedAt := Some(now))];
          advanced := advanced + [id];
        } else if p.status == Cancelled {
          published := published + [SkippedEvent(id, caller, now)];
          skipped := skipped + [id];
        }
        cursor := id;
        left := left - 1;
      }
      assert advanced + [] == advanced && skipped + [] == skipped;
    }

    method AdvancePositions(caller: Address, batchSize: nat, now: nat) returns (r: Result<seq<nat>>)
      modifies this
      ensures Performed(Op.Advance(caller, batchSize), now, r)
    {
      if batchSize == 0 { return Panic("batch_size_must_be_positive"); }
      if config.admin != caller { return Panic("not_admin"); }
      if config.status == Closed { return Panic("queue is closed"); }
      if config.status != EnrollmentClosed && config.status != AdvancementActive {
        return Panic("enrollment must be closed before advancing");
      }
      match config.rule {
        case PriorityTier => return Panic("priority_tier_not_implemented");
        case VerifiableRandomness => return Panic("vrf_not_implemented");
        case Fifo =>
      }
      var cursor, advanced, published := ScanPositions(caller, batchSize, now);
      idx := cursor;
      if advanced != [] && config.status == EnrollmentClosed {
        config := config.(status := AdvancementActive);
      }
      var served := PublishAdvanced(advanced, caller, now);
      events := events + (published + served);
      return Ok(advanced);
    }

    static method PublishAdvanced(ids: seq<nat>, caller: Address, now: nat) returns (published: seq<Event>)
      ensures published == AdvancedEvents(ids, caller, now)
    {
      published := [];
      for i := 0 to |ids|
        invariant published == AdvancedEvents(ids[..i], caller, now)
      {
        published := published + [AdvancedEvent(ids[i], caller, now)];
      }
      assert ids[..|ids|] == ids;
    }

    method ExpirePosition(caller: Address, id: nat, now: nat) returns (r: Result<seq<nat>>)
      modifies this
      ensures Performed(Op.Expire(caller, id), now, r)
    {
      if config.admin != caller { return Panic("not_admin"); }
      if config.status != AdvancementActive && config.status != Closed {
        return Panic("queue must be in advancement or closed state");
      }
      ExpireOne(pos, id);
      if id !in pos { return Panic("position not found"); }
      var p := pos[id];
      if p.status != Pending { return Panic("only pending positions can be expired"); }
      pos := pos[id := p.(status := Expired)];
      events := events + [ExpiredEvent(id, caller, now)];
      assert [ExpiredEvent(id, caller, now)] == ExpiredEvents([id], caller, now);
      return Ok([]);
    }

    /** The batch works on the storage it read; a panic halfway throws that work away. */
    method ExpirePositionsBatch(caller: Address, ids: seq<nat>, now: nat) returns (r: Result<seq<nat>>)
      modifies this
      ensures Performed(Op.ExpireBatch(caller, ids), now, r)
    {
      if config.admin != caller { return Panic("not_admin"); }
      if config.status != AdvancementActive && config.status != Closed {
        return Panic("queue must be in advancement or closed state");
      }
      var positions, published := pos, events;
      for i := 0 to |ids|
        invariant ExpireAll(pos, ids) == ExpireAll(positions, ids[i..])
        invariant published == events + ExpiredEvents(ids[..i], caller, now)
      {
        var id := ids[i];
        assert ids[i..][1..] == ids[i + 1..];
        if id !in positions { return Panic("position not found"); }
        var p := positions[id];
        if p.status != Pending { return Panic("only pending positions can be expired"); }
        positions := positions[id := p.(status := Expired)];
        published := published + [ExpiredEvent(id, caller, now)];
        assert ids[..i + 1] == ids[..i] + [id];
      }
      assert ids[..|ids|] == ids;
      pos, events := positions, published;
      return Ok([]);
    }

    method Close(caller: Address, now: nat) returns (r: Result<seq<nat>>)
      modifies this
      ensures Performed(Op.Close(caller), now, r)
    {
      if config.admin != caller { return Panic("not_admin"); }
      if config.status == Closed { return Panic("queue is closed"); }
      config := config.(status := Closed);
      events := events + [QueueClosedEvent(caller, now)];
      return Ok([]);
    }

    /** All positions ever created, cancelled ones included; their ids are 1 to n. */
    method TotalEnrolled() returns (n: nat)
      ensures Inv(View()) ==> n == |pos| && forall id :: id in pos <==> 1 <= id <= n
    {
      n := if nextId == 0 then 0 else nextId - 1;
      if Inv(View()) { CreatedIsSize(pos, nextId); }
    }

    /** The positions that occupy a capacity slot. */
    method ActiveEnrolled() returns (n: nat)
      ensures Inv(View()) ==> n == |ActiveIds(pos)| <= config.maxPositions
    {
      n := activeCount;
      if Inv(View()) { ActiveIsSize(pos, nextId); }
    }
  }

  /** One turn of the scan, with what has been collected before it. */
  lemma ScanTurn(
    p: map<nat, Position>, idx: nat, total: nat, left: nat, now: nat, advanced: seq<nat>, skipped: seq<nat>)
    requires left > 0 && idx < total && idx + 1 in p
    ensures
      var id, status := idx + 1, p[idx + 1].status;
      var q := if status == Pending then p[id := AdvancePosition(p[id], now)] else p;
      var scan, rest := ScanFrom(p, idx, total, left, now), ScanFrom(q, id, total, left - 1, now);
      && scan.positions == rest.positions && scan.idx == rest.idx
      && advanced + scan.advanced == (if status == Pending then advanced + [id] else advanced) + rest.advanced
      && skipped + scan.skipped == (if status == Cancelled then skipped + [id] else skipped) + rest.skipped
  {
  }

  lemma ExpireOne(positions: map<nat, Position>, id: nat)
    ensures ExpireAll(positions, [id]) ==
      if id !in positions then Panic("position not found")
      else if positions[id].status != Pending then Panic("only pending positions can be expired")
      else Ok(positions[id := positions[id].(status := Expired)])
  {
    assert [id][1..] == [];
  }
}
