/** Conservation of escrowed amounts over whole runs. */
module EscrowProofs {
  import opened Escrow
  import opened MapSums

  // ---------- sums over records and events ----------

  ghost function ActiveIn(queue: Symbol): (Key, Record) -> int {
    (k: Key, r: Record) => if k.queue == queue && r.status == Active then r.amount else 0
  }

  /** The amounts of the active records of a queue. */
  ghost function Held(s: State, queue: Symbol): int {
    Sum(s.records, ActiveIn(queue))
  }

  function EventSum(events: seq<Event>, weight: Event -> int): int {
    if events == [] then 0 else weight(events[0]) + EventSum(events[1..], weight)
  }

  lemma {:induction false} EventSumConcat(a: seq<Event>, b: seq<Event>, weight: Event -> int)
    ensures EventSum(a + b, weight) == EventSum(a, weight) + EventSum(b, weight)
  {
    if a == [] {
      assert a + b == b;
    } else {
      assert (a + b)[1..] == a[1..] + b;
      EventSumConcat(a[1..], b, weight);
    }
  }

  function DepositedIn(queue: Symbol): Event -> int {
    (e: Event) => if e.key.queue == queue && e.DepositedEvent? then e.amount else 0
  }

  function ReleasedIn(queue: Symbol): Event -> int {
    (e: Event) => if e.key.queue == queue && e.ReleasedEvent? then e.amount else 0
  }

  function RefundedIn(queue: Symbol): Event -> int {
    (e: Event) => if e.key.queue == queue && e.RefundedEvent? then e.amount else 0
  }

  function ExpiredIn(queue: Symbol): Event -> int {
    (e: Event) => if e.key.queue == queue && e.ExpiredEvent? then e.amount else 0
  }

  // ---------- the invariant ----------

  ghost predicate Inv(s: State) {
    && (forall k :: k in s.records ==> s.records[k].amount > 0)
    && (forall queue :: TotalHeld(s, queue) == Held(s, queue))
  }

  /** What has flowed into a queue is what it holds plus what has flowed out. */
  ghost predicate Balanced(s: State, events: seq<Event>, queue: Symbol) {
    EventSum(events, DepositedIn(queue)) ==
      TotalHeld(s, queue) + EventSum(events, ReleasedIn(queue)) + EventSum(events, RefundedIn(queue))
      + EventSum(events, ExpiredIn(queue))
  }

  const Empty: State := State(map[], map[], map[])

  lemma {:induction false} StepInv(s: State, op: Op, now: nat)
    requires Inv(s) && Step(s, op, now).Ok?
    ensures Inv(Step(s, op, now).value.state)
  {
    var t := Step(s, op, now).value.state;
    match op
    case SetConfig(_, _) => assert forall queue :: TotalHeld(t, queue) == TotalHeld(s, queue);
    case Deposit(key, _, _) => PutKeepsTotals(s, key, t);
    case Release(key) => PutKeepsTotals(s, key, t);
    case Refund(key) => PutKeepsTotals(s, key, t);
    case Expire(key) => PutKeepsTotals(s, key, t);
  }

  lemma {:induction false} PutKeepsTotals(s: State, key: Key, t: State)
    requires Inv(s) && key in t.records && t.records == s.records[key := t.records[key]] && t.records[key].amount > 0
    requires key.queue in t.totals && t.totals == s.totals[key.queue := t.totals[key.queue]]
    requires t.totals[key.queue] == TotalHeld(s, key.queue) + ActiveIn(key.queue)(key, t.records[key])
                                    - if key in s.records then ActiveIn(key.queue)(key, s.records[key]) else 0
    ensures Inv(t)
  {
    forall queue ensures TotalHeld(t, queue) == Held(t, queue) {
      SumPut(s.records, ActiveIn(queue), key, t.records[key]);
      assert TotalHeld(s, queue) == Held(s, queue);
      if queue != key.queue { assert TotalHeld(t, queue) == TotalHeld(s, queue); }
    }
  }

  lemma {:induction false} StepBalanced(s: State, op: Op, now: nat, queue: Symbol)
    requires Step(s, op, now).Ok?
    ensures var r := Step(s, op, now).value;
      TotalHeld(r.state, queue) - TotalHeld(s, queue) ==
        EventSum(r.events, DepositedIn(queue)) - EventSum(r.events, ReleasedIn(queue))
        - EventSum(r.events, RefundedIn(queue)) - EventSum(r.events, ExpiredIn(queue))
  {
    var r := Step(s, op, now).value;
    if r.events != [] { assert r.events[1..] == []; }
  }

  lemma {:induction false} RunBalanced(s: State, calls: seq<Call>, queue: Symbol)
    requires Inv(s)
    ensures Inv(Run(s, calls).state)
    ensures var r := Run(s, calls);
      TotalHeld(r.state, queue) - TotalHeld(s, queue) ==
        EventSum(r.events, DepositedIn(queue)) - EventSum(r.events, ReleasedIn(queue))
        - EventSum(r.events, RefundedIn(queue)) - EventSum(r.events, ExpiredIn(queue))
    decreases |calls|
  {
    if calls != [] {
      var r := Step(s, calls[0].op, calls[0].at);
      if r.Ok? {
        StepInv(s, calls[0].op, calls[0].at);
        StepBalanced(s, calls[0].op, calls[0].at, queue);
        RunBalanced(r.value.state, calls[1..], queue);
        var rest := Run(r.value.state, calls[1..]).events;
        EventSumConcat(r.value.events, rest, DepositedIn(queue));
        EventSumConcat(r.value.events, rest, ReleasedIn(queue));
        EventSumConcat(r.value.events, rest, RefundedIn(queue));
        EventSumConcat(r.value.events, rest, ExpiredIn(queue));
      } else {
        RunBalanced(s, calls[1..], queue);
      }
    }
  }

  /**
    * After any run and for every queue, the stored total is the sum of the amounts of the queue's active records and
    * never negative, and everything deposited is held, released, refunded or expired.
    */
  lemma {:induction false} EscrowConservation(calls: seq<Call>, queue: Symbol)
    ensures var r := Run(Empty, calls);
      && TotalHeld(r.state, queue) == Held(r.state, queue) >= 0
      && Balanced(r.state, r.events, queue)
  {
    RunBalanced(Empty, calls, queue);
    SumNonNegative(Run(Empty, calls).state.records, ActiveIn(queue));
  }

  /** A call changes at most one record, and no total but its queue's; a settled record never changes again. */
  lemma {:induction false} StepIsLocal(s: State, op: Op, now: nat)
    requires Step(s, op, now).Ok?
    ensures var t := Step(s, op, now).value.state;
      && (forall k :: k in s.records ==> k in t.records)
      && (forall k :: k in t.records && (op.SetConfig? || k != op.key) ==>
            k in s.records && t.records[k] == s.records[k])
      && (forall k :: k in s.records && s.records[k].status != Active ==> t.records[k] == s.records[k])
      && (forall k :: k in s.records ==> t.records[k].amount == s.records[k].amount)
      && (forall queue :: op.SetConfig? || queue != op.key.queue ==> TotalHeld(t, queue) == TotalHeld(s, queue))
  {
  }

  lemma {:induction false} SettledForGood(s: State, calls: seq<Call>, k: Key)
    requires k in s.records && s.records[k].status != Active
    ensures var t := Run(s, calls).state; k in t.records && t.records[k] == s.records[k]
    decreases |calls|
  {
    if calls != [] {
      var r := Step(s, calls[0].op, calls[0].at);
      if r.Ok? {
        StepIsLocal(s, calls[0].op, calls[0].at);
        SettledForGood(r.value.state, calls[1..], k);
      } else {
        SettledForGood(s, calls[1..], k);
      }
    }
  }

  // ---------- what the events tell ----------

  /** What an auditor can keep of a record from events alone. */
  datatype Entry = Entry(amount: int, status: EscrowStatus)

  function Entries(s: State): map<Key, Entry> {
    map k | k in s.records :: Entry(s.records[k].amount, s.records[k].status)
  }

  function Apply(h: map<Key, Entry>, e: Event): map<Key, Entry> {
    h[e.key := Entry(e.amount, match e
                               case DepositedEvent(_, _) => Active
                               case ReleasedEvent(_, _) => Released
                               case RefundedEvent(_, _) => Refunded
                               case ExpiredEvent(_, _) => Expired)]
  }

  function Replay(h: map<Key, Entry>, events: seq<Event>): map<Key, Entry>
    decreases |events|
  {
    if events == [] then h else Replay(Apply(h, events[0]), events[1..])
  }

  lemma {:induction false} ReplayConcat(h: map<Key, Entry>, a: seq<Event>, b: seq<Event>)
    ensures Replay(h, a + b) == Replay(Replay(h, a), b)
    decreases |a|
  {
    if a == [] {
      assert a + b == b;
    } else {
      assert (a + b)[1..] == a[1..] + b;
      ReplayConcat(Apply(h, a[0]), a[1..], b);
    }
  }

  lemma {:induction false} StepReplays(s: State, op: Op, now: nat)
    requires Step(s, op, now).Ok?
    ensures var r := Step(s, op, now).value; Replay(Entries(s), r.events) == Entries(r.state)
  {
    var r := Step(s, op, now).value;
    if r.events == [] {
      assert Entries(r.state) == Entries(s);
    } else {
      assert r.events[1..] == [];
      assert Entries(r.state) == Apply(Entries(s), r.events[0]);
    }
  }

  /** Events alone rebuild every record's amount and status. */
  lemma {:induction false} EventsRebuildEscrow(s: State, calls: seq<Call>)
    ensures Replay(Entries(s), Run(s, calls).events) == Entries(Run(s, calls).state)
    decreases |calls|
  {
    if calls != [] {
      var r := Step(s, calls[0].op, calls[0].at);
      if r.Ok? {
        StepReplays(s, calls[0].op, calls[0].at);
        EventsRebuildEscrow(r.value.state, calls[1..]);
        ReplayConcat(Entries(s), r.value.events, Run(r.value.state, calls[1..]).events);
      } else {
        EventsRebuildEscrow(s, calls[1..]);
      }
    }
  }

  function DepositOf(k: Key): Event -> int {
    (e: Event) => if e.key == k && e.DepositedEvent? then 1 else 0
  }

  function SettlementOf(k: Key): Event -> int {
    (e: Event) => if e.key == k && !e.DepositedEvent? then 1 else 0
  }

  function Deposits(s: State, k: Key): nat {
    if k in s.records then 1 else 0
  }

  function Settlements(s: State, k: Key): nat {
    if k in s.records && s.records[k].status != Active then 1 else 0
  }

  lemma {:induction false} StepCountsMoves(s: State, op: Op, now: nat, k: Key)
    requires Step(s, op, now).Ok?
    ensures var r := Step(s, op, now).value;
      && EventSum(r.events, DepositOf(k)) == Deposits(r.state, k) - Deposits(s, k)
      && EventSum(r.events, SettlementOf(k)) == Settlements(r.state, k) - Settlements(s, k)
  {
    var r := Step(s, op, now).value;
    if r.events != [] { assert r.events[1..] == []; }
  }

  lemma {:induction false} RunCountsMoves(s: State, calls: seq<Call>, k: Key)
    ensures var r := Run(s, calls);
      && EventSum(r.events, DepositOf(k)) == Deposits(r.state, k) - Deposits(s, k)
      && EventSum(r.events, SettlementOf(k)) == Settlements(r.state, k) - Settlements(s, k)
    decreases |calls|
  {
    if calls != [] {
      var r := Step(s, calls[0].op, calls[0].at);
      if r.Ok? {
        StepCountsMoves(s, calls[0].op, calls[0].at, k);
        RunCountsMoves(r.value.state, calls[1..], k);
        EventSumConcat(r.value.events, Run(r.value.state, calls[1..]).events, DepositOf(k));
        EventSumConcat(r.value.events, Run(r.value.state, calls[1..]).events, SettlementOf(k));
      } else {
        RunCountsMoves(s, calls[1..], k);
      }
    }
  }

  /** Over any run each key is deposited to at most once, and settled at most once and only after that. */
  lemma {:induction false} LeavesActiveOnce(calls: seq<Call>, k: Key)
    ensures var r := Run(Empty, calls);
      var deposits, settled := EventSum(r.events, DepositOf(k)), EventSum(r.events, SettlementOf(k));
      && 0 <= settled <= deposits <= 1
      && (deposits == 1 <==> k in r.state.records)
      && (settled == 1 <==> k in r.state.records && r.state.records[k].status != Active)
  {
    RunCountsMoves(Empty, calls, k);
  }
}
