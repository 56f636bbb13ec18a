/** The escrow contract: its storage as a value and each entry point as a transition. */
module Escrow {
  import opened Common

  const I128_MAX: int := 0x7fff_ffff_ffff_ffff_ffff_ffff_ffff_ffff
  const U64_MAX: int := 0xffff_ffff_ffff_ffff
  const SECONDS_PER_DAY: int := 86400

  type Address = nat
  type Symbol = string

  datatype EscrowStatus = Active | Released | Refunded | Expired

  datatype Key = Key(queue: Symbol, identity: Address)

  datatype Record = Record(
    amount: int, asset: Address, status: EscrowStatus, createdAt: nat, expiresAt: nat, releasedAt: Option<nat>)

  datatype Config = Config(minDeposit: int, maxDeposit: int, holdPeriodDays: nat, admin: Address)

  datatype State = State(records: map<Key, Record>, totals: map<Symbol, int>, configs: map<Symbol, Config>)

  datatype Event =
    | DepositedEvent(key: Key, amount: int)
    | ReleasedEvent(key: Key, amount: int)
    | RefundedEvent(key: Key, amount: int)
    | ExpiredEvent(key: Key, amount: int)

  datatype Op =
    | SetConfig(queue: Symbol, config: Config)
    | Deposit(key: Key, amount: int, asset: Address)
    | Release(key: Key)
    | Refund(key: Key)
    | Expire(key: Key)

  datatype Reply = Reply(state: State, events: seq<Event>)

  function TotalHeld(s: State, queue: Symbol): int {
    if queue in s.totals then s.totals[queue] else 0
  }

  function DoDeposit(s: State, key: Key, amount: int, asset: Address, now: nat): Result<Reply> {
    if amount <= 0 then Panic("amount must be positive")
    else if key in s.records then Panic("existing escrow record")
    else if key.queue !in s.configs then Panic("escrow_not_configured")
    else
      var config := s.configs[key.queue];
      if amount < config.minDeposit || amount > config.maxDeposit then Panic("amount outside configured bounds")
      else if config.holdPeriodDays * SECONDS_PER_DAY > U64_MAX then Panic("attempt to multiply with overflow")
      else if now + config.holdPeriodDays * SECONDS_PER_DAY > U64_MAX then Panic("attempt to add with overflow")
      else if TotalHeld(s, key.queue) + amount > I128_MAX then Panic("attempt to add with overflow")
      else
        var record := Record(amount, asset, Active, now, now + config.holdPeriodDays * SECONDS_PER_DAY, None);
        Ok(Reply(
          s.(records := s.records[key := record], totals := s.totals[key.queue := TotalHeld(s, key.queue) + amount]),
          [DepositedEvent(key, amount)]))
  }

  /** Leaving Active: the record gets its final status and the queue's total goes down by its amount. */
  function Settle(s: State, key: Key, status: EscrowStatus, now: nat): State
    requires key in s.records
  {
    var record := s.records[key];
    s.(records := s.records[key := record.(status := status, releasedAt := Some(now))],
       totals := s.totals[key.queue := TotalHeld(s, key.queue) - record.amount])
  }

  function DoRelease(s: State, key: Key, now: nat): Result<Reply> {
    if key !in s.records then Panic("escrow record not found")
    else if s.records[key].status != Active then Panic("escrow not active")
    else Ok(Reply(Settle(s, key, Released, now), [ReleasedEvent(key, s.records[key].amount)]))
  }

  function DoRefund(s: State, key: Key, now: nat): Result<Reply> {
    if key !in s.records then Panic("escrow record not found")
    else if s.records[key].status != Active then Panic("escrow not active")
    else Ok(Reply(Settle(s, key, Refunded, now), [RefundedEvent(key, s.records[key].amount)]))
  }

  function DoExpire(s: State, key: Key, now: nat): Result<Reply> {
    if key !in s.records then Panic("escrow record not found")
    else if now < s.records[key].expiresAt then Panic("not expired")
    else if s.records[key].status != Active then Panic("escrow not active")
    else Ok(Reply(Settle(s, key, Expired, now), [ExpiredEvent(key, s.records[key].amount)]))
  }

  function DoSetConfig(s: State, queue: Symbol, config: Config): Result<Reply> {
    if config.minDeposit > config.maxDeposit then Panic("min_deposit_exceeds_max")
    else if config.holdPeriodDays == 0 then Panic("hold_period_must_be_positive")
    else Ok(Reply(s.(configs := s.configs[queue := config]), []))
  }

  function Step(s: State, op: Op, now: nat): Result<Reply> {
    match op
    case SetConfig(queue, config) => DoSetConfig(s, queue, config)
    case Deposit(key, amount, asset) => DoDeposit(s, key, amount, asset, now)
    case Release(key) => DoRelease(s, key, now)
    case Refund(key) => DoRefund(s, key, now)
    case Expire(key) => DoExpire(s, key, now)
  }

  datatype Call = Call(op: Op, at: nat)

  /** A call that panics has no effect. */
  function Run(s: State, calls: seq<Call>): Reply
    decreases |calls|
  {
    if calls == [] then Reply(s, [])
    else match Step(s, calls[0].op, calls[0].at)
      case Panic(_) => Run(s, calls[1..])
      case Ok(r) =>
        var rest := Run(r.state, calls[1..]);
        Reply(rest.state, r.events + rest.events)
  }
}
