/** The escrow contract over its persistent storage; a call that panics returns without having changed anything. */
module EscrowContract {
  import opened Common
  import opened Escrow

  class EscrowContract {
    var records: map<Key, Record>
    var totals: map<Symbol, int>
    var configs: map<Symbol, Config>
    var events: seq<Event>

    ghost function View(): State
      reads this
    {
      State(records, totals, configs)
    }

    constructor ()
      ensures View() == State(map[], map[], map[]) && events == []
    {
      records, totals, configs, events := map[], map[], map[], [];
    }

    twostate predicate Performed(op: Op, now: nat, new r: Result<()>)
      reads this
    {
      match Step(old(View()), op, now)
      case Panic(reason) => r == Panic(reason) && View() == old(View()) && events == old(events)
      case Ok(reply) => r == Ok(()) && View() == reply.state && events == old(events) + reply.events
    }

    method GetTotalHeld(queue: Symbol) returns (total: int)
      ensures total == TotalHeld(View(), queue)
    {
      total := if queue in totals then totals[queue] else 0;
    }

    method SetConfig(queue: Symbol, config: Config) returns (r: Result<()>)
      modifies this
      ensures Performed(Op.SetConfig(queue, config), 0, r)
    {
      if config.minDeposit > config.maxDeposit { return Panic("min_deposit_exceeds_max"); }
      if config.holdPeriodDays == 0 { return Panic("hold_period_must_be_positive"); }
      configs := configs[queue := config];
      assert events == events + [];
      return Ok(());
    }

    method Deposit(key: Key, amount: int, asset: Address, now: nat) returns (r: Result<()>)
      modifies this
      ensures Performed(Op.Deposit(key, amount, asset), now, r)
    {
      if amount <= 0 { return Panic("amount must be positive"); }
      if key in records { return Panic("existing escrow record"); }
      if key.queue !in configs { return Panic("escrow_not_configured"); }
      var config := configs[key.queue];
      if amount < config.minDeposit || amount > config.maxDeposit {
        return Panic("amount outside configured bounds");
      }
      var hold := config.holdPeriodDays * SECONDS_PER_DAY;
      if hold > U64_MAX { return Panic("attempt to multiply with overflow"); }
      if now + hold > U64_MAX { return Panic("attempt to add with overflow"); }
      var current := GetTotalHeld(key.queue);
      if current + amount > I128_MAX { return Panic("attempt to add with overflow"); }
      records := records[key := Record(amount, asset, Active, now, now + hold, None)];
      totals := totals[key.queue := current + amount];
      events := events + [DepositedEvent(key, amount)];
      return Ok(());
    }

    method DecrementTotal(queue: Symbol, amount: int)
      modifies this`totals
      ensures totals == old(totals)[queue := TotalHeld(old(View()), queue) - amount]
    {
      var current := GetTotalHeld(queue);
      totals := totals[queue := current - amount];
    }

    method Release(key: Key, now: nat) returns (r: Result<()>)
      modifies this
      ensures Performed(Op.Release(key), now, r)
    {
      if key !in records { return Panic("escrow record not found"); }
      var record := records[key];
      if record.status != Active { return Panic("escrow not active"); }
      records := records[key := record.(status := Released, releasedAt := Some(now))];
      DecrementTotal(key.queue, record.amount);
      events := events + [ReleasedEvent(key, record.amount)];
      return Ok(());
    }

    method Refund(key: Key, now: nat) returns (r: Result<()>)
      modifies this
      ensures Performed(Op.Refund(key), now, r)
    {
      if key !in records { return Panic("escrow record not found"); }
      var record := records[key];
      if record.status != Active { return Panic("escrow not active"); }
      records := records[key := record.(status := Refunded, releasedAt := Some(now))];
      DecrementTotal(key.queue, record.amount);
      events := events + [RefundedEvent(key, record.amount)];
      return Ok(());
    }

    method Expire(key: Key, now: nat) returns (r: Result<()>)
      modifies this
      ensures Performed(Op.Expire(key), now, r)
    {
      if key !in records { return Panic("escrow record not found"); }
      var record := records[key];
      if now < record.expiresAt { return Panic("not expired"); }
      if record.status != Active { return Panic("escrow not active"); }
      records := records[key := record.(status := Expired, releasedAt := Some(now))];
      DecrementTotal(key.queue, record.amount);
      events := events + [ExpiredEvent(key, record.amount)];
      return Ok(());
    }
  }
}
