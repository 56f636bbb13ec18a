/** The cached enrollment count and the waiting list over whole runs. */
module EnrollmentProofs {
  import opened Common
  import opened Enrollment
  import opened MapSums

  function OneIfActive(queue: Symbol): (Key, Record) -> int {
    (k: Key, r: Record) => if k.queue == queue && !r.cancelled then 1 else 0
  }

  /** The records of a queue that are not cancelled. */
  ghost function ActiveRecords(s: State, queue: Symbol): int {
    Sum(s.records, OneIfActive(queue))
  }

  predicate DuplicateFree(list: seq<Address>) {
    forall i, j :: 0 <= i < j < |list| ==> list[i] != list[j]
  }

  // ---------- promotions of identities that were active ----------

  /** How many of the first `n` promotions find their identity still active. */
  function ActivePromotions(s: State, queue: Symbol, n: nat, now: nat): nat
    requires n <= |Waitlist(s, queue)|
    decreases n
  {
    if n == 0 then 0
    else match PromoteHead(s, queue, now)
      case Panic(_) => 0
      case Ok(t) =>
        (if IsEnrolled(s, Key(queue, Waitlist(s, queue)[0])) then 1 else 0) + ActivePromotions(t, queue, n - 1, now)
  }

  function StepActivePromotions(s: State, op: Op, queue: Symbol, now: nat): nat {
    if op.Promote? && op.queue == queue && Step(s, op, now).Ok?
    then ActivePromotions(s, queue, Min(op.count, |Waitlist(s, queue)|), now)
    else 0
  }

  /** Over a run, the promotions made in a queue while the identity was still active. */
  function RunActivePromotions(s: State, calls: seq<Call>, queue: Symbol): nat
    decreases |calls|
  {
    if calls == [] then 0
    else match Step(s, calls[0].op, calls[0].at)
      case Panic(_) => RunActivePromotions(s, calls[1..], queue)
      case Ok(r) =>
        StepActivePromotions(s, calls[0].op, queue, calls[0].at) + RunActivePromotions(r.state, calls[1..], queue)
  }

  // ---------- each step ----------

  /** Every waiting list is duplicate-free, and the count never falls below the active records. */
  ghost predicate Inv(s: State) {
    && (forall queue :: DuplicateFree(Waitlist(s, queue)))
    && (forall queue :: EnrollmentCount(s, queue) >= ActiveRecords(s, queue))
  }

  lemma EmptyInv()
    ensures Inv(Empty)
  {
  }

  lemma {:induction false} PutRecord(s: State, t: State, key: Key, queue: Symbol)
    requires key in t.records && t.records == s.records[key := t.records[key]]
    ensures ActiveRecords(t, queue) == ActiveRecords(s, queue)
      + OneIfActive(queue)(key, t.records[key])
      - if key in s.records then OneIfActive(queue)(key, s.records[key]) else 0
  {
    SumPut(s.records, OneIfActive(queue), key, t.records[key]);
  }

  /** An active record is counted. */
  lemma {:induction false} EnrolledIsCounted(s: State, key: Key)
    requires Inv(s) && IsEnrolled(s, key)
    ensures EnrollmentCount(s, key.queue) >= 1
  {
    SumAtLeast(s.records, OneIfActive(key.queue), key);
    assert OneIfActive(key.queue)(key, s.records[key]) == 1;
    assert EnrollmentCount(s, key.queue) >= ActiveRecords(s, key.queue);
  }

  /** The drift of the count from the active records. */
  ghost function Drift(s: State, queue: Symbol): int {
    EnrollmentCount(s, queue) - ActiveRecords(s, queue)
  }

  lemma {:induction false} EnrollDrift(s: State, key: Key, expiresAt: Option<nat>, now: nat, queue: Symbol)
    requires DoEnroll(s, key, expiresAt, now).Ok?
    ensures Drift(DoEnroll(s, key, expiresAt, now).value.state, queue) == Drift(s, queue)
  {
    var t := DoEnroll(s, key, expiresAt, now).value.state;
    if t.records != s.records { PutRecord(s, t, key, queue); }
  }

  /** Cancelling always finds a positive count, so the guard on the decrement never matters. */
  lemma {:induction false} CancelDrift(s: State, key: Key, queue: Symbol)
    requires Inv(s) && DoCancel(s, key).Ok?
    ensures EnrollmentCount(s, key.queue) > 0
    ensures Drift(DoCancel(s, key).value.state, queue) == Drift(s, queue)
  {
    EnrolledIsCounted(s, key);
    PutRecord(s, DoCancel(s, key).value.state, key, queue);
  }

  lemma {:induction false} FinalizeDrift(s: State, key: Key, queue: Symbol)
    requires DoFinalize(s, key).Ok?
    ensures Drift(DoFinalize(s, key).value.state, queue) == Drift(s, queue)
  {
    PutRecord(s, DoFinalize(s, key).value.state, key, queue);
  }

  lemma {:induction false} PromoteDrift(s: State, queue: Symbol, n: nat, now: nat, other: Symbol)
    requires n <= |Waitlist(s, queue)| && PromoteMany(s, queue, n, now).Ok?
    ensures var t := PromoteMany(s, queue, n, now).value;
      && Drift(t, other) == Drift(s, other) + (if other == queue then ActivePromotions(s, queue, n, now) else 0)
      && Waitlist(t, queue) == Waitlist(s, queue)[n..]
      && (other != queue ==> Waitlist(t, other) == Waitlist(s, other))
    decreases n
  {
    if n > 0 {
      var t := PromoteHead(s, queue, now).value;
      PutRecord(s, t, Key(queue, Waitlist(s, queue)[0]), other);
      PromoteDrift(t, queue, n - 1, now, other);
      assert Waitlist(s, queue)[1..][n - 1..] == Waitlist(s, queue)[n..];
    }
  }

  lemma {:induction false} StepDrift(s: State, op: Op, now: nat, queue: Symbol)
    requires Inv(s) && Step(s, op, now).Ok?
    ensures var t := Step(s, op, now).value.state;
      && Drift(t, queue) == Drift(s, queue) + StepActivePromotions(s, op, queue, now)
      && DuplicateFree(Waitlist(t, queue))
  {
    assert DuplicateFree(Waitlist(s, queue));
    match op
    case SetBehavior(_) =>
    case Enroll(key, expiresAt) => EnrollDrift(s, key, expiresAt, now, queue);
    case Cancel(key) => CancelDrift(s, key, queue);
    case Finalize(key) => FinalizeDrift(s, key, queue);
    case Promote(q, count) => PromoteDrift(s, q, Min(count, |Waitlist(s, q)|), now, queue);
  }

  lemma {:induction false} StepInv(s: State, op: Op, now: nat)
    requires Inv(s) && Step(s, op, now).Ok?
    ensures Inv(Step(s, op, now).value.state)
  {
    var t := Step(s, op, now).value.state;
    forall queue ensures DuplicateFree(Waitlist(t, queue)) && EnrollmentCount(t, queue) >= ActiveRecords(t, queue) {
      StepDrift(s, op, now, queue);
      assert EnrollmentCount(s, queue) >= ActiveRecords(s, queue);
    }
  }

  lemma {:induction false} RunDrift(s: State, calls: seq<Call>, queue: Symbol)
    requires Inv(s)
    ensures Inv(Run(s, calls))
    ensures Drift(Run(s, calls), queue) == Drift(s, queue) + RunActivePromotions(s, calls, queue)
    decreases |calls|
  {
    if calls != [] {
      var r := Step(s, calls[0].op, calls[0].at);
      if r.Ok? {
        StepDrift(s, calls[0].op, calls[0].at, queue);
        StepInv(s, calls[0].op, calls[0].at);
        RunDrift(r.value.state, calls[1..], queue);
      } else {
        RunDrift(s, calls[1..], queue);
      }
    }
  }

  /**
    * After any run, a queue's count is its active records plus the promotions made while the identity was still active;
    * it is exact precisely when there were none. Waiting lists stay duplicate-free.
    */
  lemma {:induction false} CountIsActivePlusPromotions(calls: seq<Call>, queue: Symbol)
    ensures var s := Run(Empty, calls); var surplus := RunActivePromotions(Empty, calls, queue);
      && EnrollmentCount(s, queue) == ActiveRecords(s, queue) + surplus
      && (EnrollmentCount(s, queue) == ActiveRecords(s, queue) <==> surplus == 0)
      && DuplicateFree(Waitlist(s, queue))
  {
    EmptyInv();
    RunDrift(Empty, calls, queue);
    assert DuplicateFree(Waitlist(Run(Empty, calls), queue));
  }

  /** Such a promotion does happen: enrolling twice with a waiting list, then promoting, counts one identity twice. */
  lemma {:induction false} CountCanDrift(queue: Symbol, identity: Address)
    ensures exists calls ::
      EnrollmentCount(Run(Empty, calls), queue) == 2 && ActiveRecords(Run(Empty, calls), queue) == 1
  {
    var key := Key(queue, identity);
    var enroll, promote := Call(Enroll(key, None), 0), Call(Promote(queue, 1), 0);
    var c0: seq<Call> := [promote];
    var c1 := [enroll] + c0;
    var c2 := [enroll] + c1;
    var calls := [Call(SetBehavior(GrantWaitingList), 0)] + c2;
    assert calls[1..] == c2 && c2[1..] == c1 && c1[1..] == c0 && c0[1..] == [];
    var s1 := Empty.(behavior := GrantWaitingList);
    var s2 := DoEnroll(s1, key, None, 0).value.state;
    var s3 := DoEnroll(s2, key, None, 0).value.state;
    assert Waitlist(s3, queue) == [identity];
    var s4 := DoPromote(s3, queue, 1, 0).value.state;
    assert Run(s3, c0) == s4;
    assert Run(s2, c1) == s4;
    assert Run(s1, c2) == s4;
    assert Run(Empty, calls) == s4;
    PutRecord(s1, s2, key, queue);
    assert PromoteMany(s3, queue, 1, 0) == PromoteHead(s3, queue, 0);
    PutRecord(s3, s4, key, queue);
  }

  // ---------- promoting in two steps ----------

  lemma {:induction false} PromoteManySplits(s: State, queue: Symbol, a: nat, b: nat, now: nat)
    requires a + b <= |Waitlist(s, queue)|
    ensures PromoteMany(s, queue, a, now).Ok? ==>
              var t := PromoteMany(s, queue, a, now).value;
              b <= |Waitlist(t, queue)| && PromoteMany(s, queue, a + b, now) == PromoteMany(t, queue, b, now)
    ensures PromoteMany(s, queue, a, now).Panic? ==> PromoteMany(s, queue, a + b, now).Panic?
    decreases a
  {
    if a > 0 && PromoteHead(s, queue, now).Ok? {
      PromoteManySplits(PromoteHead(s, queue, now).value, queue, a - 1, b, now);
    }
  }

  function WithStoredWaitlist(s: State, queue: Symbol): State {
    s.(waitlists := s.waitlists[queue := Waitlist(s, queue)])
  }

  /** Writing a waiting list back as it was read changes nothing that a promotion can see. */
  lemma {:induction false} StoredWaitlist(s: State, queue: Symbol, n: nat, now: nat)
    requires n <= |Waitlist(s, queue)|
    ensures Waitlist(WithStoredWaitlist(s, queue), queue) == Waitlist(s, queue)
    ensures WithStoredWaitlist(WithStoredWaitlist(s, queue), queue) == WithStoredWaitlist(s, queue)
    ensures n > 0 ==> PromoteMany(WithStoredWaitlist(s, queue), queue, n, now) == PromoteMany(s, queue, n, now)
  {
    var list, stored := Waitlist(s, queue), WithStoredWaitlist(s, queue);
    assert stored.waitlists[queue := list] == stored.waitlists;
    if n > 0 {
      assert stored.waitlists[queue := list[1..]] == s.waitlists[queue := list[1..]];
      assert PromoteHead(stored, queue, now) == PromoteHead(s, queue, now);
    }
  }

  /** Within one ledger, promoting `a` and then `b` is promoting `a + b`. */
  lemma {:induction false} PromoteSplits(s: State, queue: Symbol, a: nat, b: nat, now: nat)
    requires a + b <= U32_MAX
    ensures DoPromote(s, queue, a + b, now).Ok? <==>
              DoPromote(s, queue, a, now).Ok? && DoPromote(DoPromote(s, queue, a, now).value.state, queue, b, now).Ok?
    ensures DoPromote(s, queue, a + b, now).Ok? ==>
              DoPromote(DoPromote(s, queue, a, now).value.state, queue, b, now) == DoPromote(s, queue, a + b, now)
  {
    var size := |Waitlist(s, queue)|;
    var n, m := Min(a, size), Min(a + b, size);
    PromoteManySplits(s, queue, n, m - n, now);
    if PromoteMany(s, queue, n, now).Ok? {
      var t := PromoteMany(s, queue, n, now).value;
      PromoteDrift(s, queue, n, now, queue);
      StoredWaitlist(t, queue, m - n, now);
      assert DoPromote(s, queue, a, now).value.state == WithStoredWaitlist(t, queue);
      assert Min(b, |Waitlist(t, queue)|) == m - n;
    }
  }
}
