/** Exactly which escrow calls succeed, and what the calls of a run, taken by themselves, make of each record. */
module EscrowCalls {
  import opened Common
  import opened Escrow
  import opened EscrowProofs

  // ---------- exactly which calls succeed ----------

  ghost predicate ActiveAt(s: State, key: Key) {
    key in s.records && s.records[key].status == Active
  }

  /** Deposits are bounded by the configuration, by the clock and by what the queue's active records leave of i128. */
  ghost predicate Permitted(s: State, op: Op, now: nat) {
    match op
    case SetConfig(_, config) => config.minDeposit <= config.maxDeposit && config.holdPeriodDays > 0
    case Deposit(key, amount, _) =>
      && amount > 0 && key !in s.records && key.queue in s.configs
      && s.configs[key.queue].minDeposit <= amount <= s.configs[key.queue].maxDeposit
      && now + s.configs[key.queue].holdPeriodDays * SECONDS_PER_DAY <= U64_MAX
      && Held(s, key.queue) + amount <= I128_MAX
    case Release(key) => ActiveAt(s, key)
    case Refund(key) => ActiveAt(s, key)
    case Expire(key) => ActiveAt(s, key) && s.records[key].expiresAt <= now
  }

  lemma {:induction false} CallSucceedsIff(before: seq<Call>, op: Op, now: nat)
    ensures var s := Run(Empty, before).state; Step(s, op, now).Ok? <==> Permitted(s, op, now)
  {
    if op.Deposit? { EscrowConservation(before, op.key.queue); }
  }

  // ---------- the calls of a run ----------

  /** A call that succeeded. */
  function Made(s: State, calls: seq<Call>): seq<Call>
    decreases |calls|
  {
    if calls == [] then []
    else match Step(s, calls[0].op, calls[0].at)
      case Panic(_) => Made(s, calls[1..])
      case Ok(r) => [calls[0]] + Made(r.state, calls[1..])
  }

  /** The configuration in force for a queue: the last one set. */
  function ConfigAfter(config: Option<Config>, queue: Symbol, made: seq<Call>): Option<Config>
    decreases |made|
  {
    if made == [] then config
    else ConfigAfter(
      if made[0].op.SetConfig? && made[0].op.queue == queue then Some(made[0].op.config) else config, queue, made[1..])
  }

  function ConfigOf(s: State, queue: Symbol): Option<Config> {
    if queue in s.configs then Some(s.configs[queue]) else None
  }

  /** The call that gave the record of a key this status. */
  ghost predicate Gives(c: Call, key: Key, status: EscrowStatus) {
    match status
    case Active => c.op.Deposit? && c.op.key == key
    case Released => c.op == Release(key)
    case Refunded => c.op == Refund(key)
    case Expired => c.op == Expire(key)
  }

  /** The record has been deposited, or has this final status. */
  ghost predicate Reached(s: State, key: Key, status: EscrowStatus) {
    key in s.records && (status == Active || s.records[key].status == status)
  }

  /** The record says what the call said: what was deposited and when, or when it was settled, not before its hold. */
  ghost predicate Fits(c: Call, record: Record) {
    match c.op
    case SetConfig(_, _) => true
    case Deposit(_, amount, asset) => record.amount == amount && record.asset == asset && record.createdAt == c.at
    case Release(_) => record.releasedAt == Some(c.at)
    case Refund(_) => record.releasedAt == Some(c.at)
    case Expire(_) => record.releasedAt == Some(c.at) && c.at >= record.expiresAt
  }

  /** The terms of a deposit: its bounds and the end of its hold come from the configuration in force. */
  ghost predicate OnTerms(config: Option<Config>, c: Call, record: Record) {
    && config.Some? && config.value.minDeposit <= record.amount <= config.value.maxDeposit
    && record.expiresAt == c.at + config.value.holdPeriodDays * SECONDS_PER_DAY
  }

  lemma {:induction false} StepGives(s: State, op: Op, now: nat, key: Key, status: EscrowStatus)
    requires Step(s, op, now).Ok?
    ensures var t := Step(s, op, now).value.state; var c := Call(op, now);
      && (Reached(t, key, status) <==> Reached(s, key, status) || Gives(c, key, status))
      && (Gives(c, key, status) ==> Fits(c, t.records[key]))
      && (Gives(c, key, Active) ==> OnTerms(ConfigOf(s, key.queue), c, t.records[key]))
      && ConfigOf(t, key.queue) == ConfigAfter(ConfigOf(s, key.queue), key.queue, [c])
  {
  }

  /** What a later call can still change of a record: its status and settlement, while it is active. */
  ghost predicate Continues(a: Record, b: Record) {
    && b == a.(status := b.status, releasedAt := b.releasedAt)
    && (a.status != Active ==> b == a)
  }

  lemma {:induction false} RunContinues(s: State, calls: seq<Call>, key: Key)
    requires key in s.records
    ensures var t := Run(s, calls).state; key in t.records && Continues(s.records[key], t.records[key])
    decreases |calls|
  {
    if calls != [] {
      var r := Step(s, calls[0].op, calls[0].at);
      RunContinues(if r.Ok? then r.value.state else s, calls[1..], key);
    }
  }

  lemma {:induction false} FirstGives(s: State, calls: seq<Call>, key: Key, status: EscrowStatus)
    requires calls != [] && Step(s, calls[0].op, calls[0].at).Ok? && Gives(calls[0], key, status)
    ensures var r := Step(s, calls[0].op, calls[0].at).value.state; var t := Run(r, calls[1..]).state;
      && key in t.records && Fits(calls[0], t.records[key])
      && (status == Active ==> OnTerms(ConfigOf(s, key.queue), calls[0], t.records[key]))
  {
    StepGives(s, calls[0].op, calls[0].at, key, status);
    RunContinues(Step(s, calls[0].op, calls[0].at).value.state, calls[1..], key);
  }

  lemma {:induction false} CallGives(s: State, calls: seq<Call>, key: Key, status: EscrowStatus, i: nat)
    requires i < |Made(s, calls)| && Gives(Made(s, calls)[i], key, status)
    ensures var t := Run(s, calls).state; var made := Made(s, calls);
      && key in t.records && Fits(made[i], t.records[key])
      && (status == Active ==>
            OnTerms(ConfigAfter(ConfigOf(s, key.queue), key.queue, made[..i]), made[i], t.records[key]))
    decreases |calls|
  {
    var r := Step(s, calls[0].op, calls[0].at);
    if r.Panic? {
      CallGives(s, calls[1..], key, status, i);
    } else if i == 0 {
      FirstGives(s, calls, key, status);
    } else {
      StepGives(s, calls[0].op, calls[0].at, key, status);
      CallGives(r.value.state, calls[1..], key, status, i - 1);
      assert Made(s, calls)[..i][1..] == Made(r.value.state, calls[1..])[..i - 1];
    }
  }

  ghost predicate SomeGives(made: seq<Call>, key: Key, status: EscrowStatus) {
    exists i :: 0 <= i < |made| && Gives(made[i], key, status)
  }

  lemma SomeGivesCons(c: Call, rest: seq<Call>, key: Key, status: EscrowStatus)
    ensures SomeGives([c] + rest, key, status) <==> Gives(c, key, status) || SomeGives(rest, key, status)
  {
    var all := [c] + rest;
    if Gives(c, key, status) { assert Gives(all[0], key, status); }
    if SomeGives(rest, key, status) {
      var i :| 0 <= i < |rest| && Gives(rest[i], key, status);
      assert Gives(all[i + 1], key, status);
    }
    if SomeGives(all, key, status) {
      var i :| 0 <= i < |all| && Gives(all[i], key, status);
      if i > 0 { assert Gives(rest[i - 1], key, status); }
    }
  }

  lemma {:induction false} RunReaches(s: State, calls: seq<Call>, key: Key, status: EscrowStatus)
    ensures Reached(Run(s, calls).state, key, status) <==>
              Reached(s, key, status) || SomeGives(Made(s, calls), key, status)
    decreases |calls|
  {
    if calls != [] {
      var r := Step(s, calls[0].op, calls[0].at);
      if r.Ok? {
        StepGives(s, calls[0].op, calls[0].at, key, status);
        RunReaches(r.value.state, calls[1..], key, status);
        SomeGivesCons(calls[0], Made(r.value.state, calls[1..]), key, status);
      } else {
        RunReaches(s, calls[1..], key, status);
      }
    }
  }

  /**
    * After any run a key has a record exactly when a deposit of it succeeded, and the record is released, refunded or
    * expired exactly when such a call succeeded. It keeps the amount, asset and time of the deposit, the end of its
    * hold follows from the configuration then in force, its settlement carries the time of the call, and it never
    * expired before its hold ended.
    */
  lemma {:induction false} RecordsTellTheirCalls(calls: seq<Call>, key: Key, status: EscrowStatus)
    ensures var s := Run(Empty, calls).state; var made := Made(Empty, calls);
      && ((key in s.records && (status == Active || s.records[key].status == status)) <==>
            exists i :: 0 <= i < |made| && Gives(made[i], key, status))
      && (forall i :: 0 <= i < |made| && Gives(made[i], key, status) ==> Fits(made[i], s.records[key]))
      && (forall i :: 0 <= i < |made| && Gives(made[i], key, Active) ==>
            key in s.records && OnTerms(ConfigAfter(None, key.queue, made[..i]), made[i], s.records[key]))
  {
    var made := Made(Empty, calls);
    RunReaches(Empty, calls, key, status);
    forall i: nat, st | i < |made| && Gives(made[i], key, st)
      ensures var s := Run(Empty, calls).state; key in s.records && Fits(made[i], s.records[key])
      ensures st == Active ==>
        OnTerms(ConfigAfter(None, key.queue, made[..i]), made[i], Run(Empty, calls).state.records[key])
    {
      CallGives(Empty, calls, key, st, i);
    }
  }
}
