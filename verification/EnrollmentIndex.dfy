/** The enrollment service: record lists kept by identity, and a per-queue index of identities. */
module EnrollmentIndex {

  /** The conflict flag is set on the reply to a repeated enrollment, which is never stored. */
  datatype Record = Record(queueId: string, identity: string, enrolledAt: int, conflict: bool, cancelled: bool)

  datatype Store = Store(byIdentity: map<string, seq<Record>>, queueIndex: map<string, seq<string>>)

  const EMPTY := Store(map[], map[])

  predicate ActiveFor(r: Record, queueId: string) {
    r.queueId == queueId && !r.cancelled
  }

  function RecordsOf(s: Store, identity: string): seq<Record> {
    if identity in s.byIdentity then s.byIdentity[identity] else []
  }

  function IndexOf(s: Store, queueId: string): seq<string> {
    if queueId in s.queueIndex then s.queueIndex[queueId] else []
  }

  /** The position of the first active record for the queue, or the length when there is none. */
  function FirstActive(records: seq<Record>, queueId: string): (k: nat)
    ensures k <= |records|
    ensures k < |records| ==> ActiveFor(records[k], queueId)
    ensures forall j :: 0 <= j < k ==> !ActiveFor(records[j], queueId)
  {
    if records == [] || ActiveFor(records[0], queueId) then 0 else 1 + FirstActive(records[1..], queueId)
  }

  predicate HasActive(records: seq<Record>, queueId: string) {
    FirstActive(records, queueId) < |records|
  }

  /** An insertion-ordered set: adding a member again leaves it where it is. */
  function SetAdd(members: seq<string>, x: string): seq<string> {
    if x in members then members else members + [x]
  }

  function SetDelete(members: seq<string>, x: string): (rest: seq<string>)
    ensures forall y :: y in rest ==> y in members
  {
    if members == [] then []
    else if members[0] == x then members[1..]
    else [members[0]] + SetDelete(members[1..], x)
  }

  function Enroll(s: Store, queueId: string, identity: string, now: int): (Store, Record) {
    var existing := RecordsOf(s, identity);
    if HasActive(existing, queueId) then (s, Record(queueId, identity, now, true, false))
    else
      var record := Record(queueId, identity, now, false, false);
      (Store(
         s.byIdentity[identity := existing + [record]],
         s.queueIndex[queueId := SetAdd(IndexOf(s, queueId), identity)]),
       record)
  }

  function Cancel(s: Store, queueId: string, identity: string): (Store, bool) {
    var existing := RecordsOf(s, identity);
    var k := FirstActive(existing, queueId);
    if k == |existing| then (s, false)
    else
      (Store(
         s.byIdentity[identity := existing[k := existing[k].(cancelled := true)]],
         if queueId in s.queueIndex then s.queueIndex[queueId := SetDelete(s.queueIndex[queueId], identity)]
         else s.queueIndex),
       true)
  }

  function ActiveOnly(records: seq<Record>, queueId: string): (active: seq<Record>)
    ensures forall r :: r in active ==> r in records && ActiveFor(r, queueId)
  {
    if records == [] then []
    else (if ActiveFor(records[0], queueId) then [records[0]] else []) + ActiveOnly(records[1..], queueId)
  }

  /** Every record of the listed identities, one list after the other. */
  function Concatenated(s: Store, identities: seq<string>): seq<Record> {
    if identities == [] then [] else RecordsOf(s, identities[0]) + Concatenated(s, identities[1..])
  }

  // ---------- runs ----------

  datatype Operation =
    | Enrolling(queueId: string, identity: string, now: int)
    | Cancelling(queueId: string, identity: string)

  function Step(s: Store, op: Operation): Store {
    match op
    case Enrolling(q, id, now) => Enroll(s, q, id, now).0
    case Cancelling(q, id) => Cancel(s, q, id).0
  }

  function Run(s: Store, ops: seq<Operation>): Store
    decreases |ops|
  {
    if ops == [] then s else Run(Step(s, ops[0]), ops[1..])
  }
}

module EnrollmentIndexProofs {
  import opened EnrollmentIndex

  predicate NoDuplicates<T(==)>(xs: seq<T>) {
    forall i, j :: 0 <= i < j < |xs| ==> xs[i] != xs[j]
  }

  /** One identity's list: its own records, none a conflict reply, and two active ones name different queues. */
  predicate ListOk(records: seq<Record>, identity: string) {
    && (forall r :: r in records ==> r.identity == identity && !r.conflict)
    && (forall i, j | 0 <= i < j < |records| ::
          records[i].cancelled || records[j].cancelled || records[i].queueId != records[j].queueId)
  }

  /** One queue's index: duplicate-free, listing exactly the identities with an active record for the queue. */
  ghost predicate IndexOk(s: Store, queueId: string) {
    && NoDuplicates(IndexOf(s, queueId))
    && forall id: string :: id in IndexOf(s, queueId) <==> HasActive(RecordsOf(s, id), queueId)
  }

  ghost predicate Inv(s: Store) {
    && (forall id: string :: ListOk(RecordsOf(s, id), id))
    && (forall q: string :: IndexOk(s, q))
  }

  lemma HasActiveIff(records: seq<Record>, queueId: string)
    ensures HasActive(records, queueId) <==> exists r :: r in records && ActiveFor(r, queueId)
  {
    var k := FirstActive(records, queueId);
    if k < |records| {
      assert records[k] in records;
    }
  }

  lemma {:induction false} SetDeleteExact(members: seq<string>, x: string)
    requires NoDuplicates(members)
    ensures NoDuplicates(SetDelete(members, x))
    ensures forall y :: y in SetDelete(members, x) <==> y in members && y != x
  {
    if members != [] {
      var rest := members[1..];
      assert members == [members[0]] + rest;
      assert forall i | 0 <= i < |rest| :: rest[i] == members[i + 1];
      assert NoDuplicates(rest);
      SetDeleteExact(rest, x);
      if members[0] != x {
        var d := SetDelete(rest, x);
        assert forall i | 0 <= i < |d| :: d[i] in rest;
        assert members[0] !in rest;
      } else {
        assert x !in rest;
      }
    }
  }

  // ---------- every step keeps the invariant ----------

  lemma EnrollKeepsList(s: Store, q: string, id: string, now: int, other: string)
    requires Inv(s)
    ensures ListOk(RecordsOf(Enroll(s, q, id, now).0, other), other)
  {
    assert ListOk(RecordsOf(s, other), other);
  }

  lemma EnrollKeepsIndex(s: Store, q: string, id: string, now: int, queue: string)
    requires Inv(s)
    ensures IndexOk(Enroll(s, q, id, now).0, queue)
  {
    assert IndexOk(s, queue);
    var existing := RecordsOf(s, id);
    if !HasActive(existing, q) {
      var t := Enroll(s, q, id, now).0;
      var record := Record(q, id, now, false, false);
      forall other: string
        ensures other in IndexOf(t, queue) <==> HasActive(RecordsOf(t, other), queue)
      {
        HasActiveIff(RecordsOf(s, other), queue);
        HasActiveIff(RecordsOf(t, other), queue);
        if other == id && queue == q {
          assert record in RecordsOf(t, id);
        }
      }
    }
  }

  lemma CancelKeepsList(s: Store, q: string, id: string, other: string)
    requires Inv(s)
    ensures ListOk(RecordsOf(Cancel(s, q, id).0, other), other)
  {
    assert ListOk(RecordsOf(s, other), other);
  }

  /** Cancelling the first active record of a well-formed list leaves no active record for that queue. */
  lemma CancelledList(records: seq<Record>, id: string, q: string, queue: string)
    requires ListOk(records, id) && HasActive(records, q)
    ensures var k := FirstActive(records, q);
            HasActive(records[k := records[k].(cancelled := true)], queue) <==> HasActive(records, queue) && queue != q
  {
    var k := FirstActive(records, q);
    var after := records[k := records[k].(cancelled := true)];
    assert forall i | 0 <= i < |records| :: ActiveFor(after[i], queue) <==> ActiveFor(records[i], queue) && queue != q;
    var j, i := FirstActive(records, queue), FirstActive(after, queue);
    assert j < |records| && queue != q ==> ActiveFor(after[j], queue);
  }

  lemma CancelKeepsIndex(s: Store, q: string, id: string, queue: string)
    requires Inv(s)
    ensures IndexOk(Cancel(s, q, id).0, queue)
  {
    assert IndexOk(s, queue);
    var records := RecordsOf(s, id);
    if HasActive(records, q) {
      assert ListOk(records, id) && IndexOk(s, q);
      CancelledList(records, id, q, queue);
      SetDeleteExact(IndexOf(s, q), id);
    }
  }

  lemma StepKeepsInv(s: Store, op: Operation)
    requires Inv(s)
    ensures Inv(Step(s, op))
  {
    forall x: string
      ensures ListOk(RecordsOf(Step(s, op), x), x) && IndexOk(Step(s, op), x)
    {
      match op
      case Enrolling(q, id, now) => EnrollKeepsList(s, q, id, now, x); EnrollKeepsIndex(s, q, id, now, x);
      case Cancelling(q, id) => CancelKeepsList(s, q, id, x); CancelKeepsIndex(s, q, id, x);
    }
  }

  /** In every reachable store the index agrees with the records. */
  lemma {:induction false} RunKeepsInv(s: Store, ops: seq<Operation>)
    requires Inv(s)
    ensures Inv(Run(s, ops))
    decreases |ops|
  {
    if ops != [] {
      StepKeepsInv(s, ops[0]);
      RunKeepsInv(Step(s, ops[0]), ops[1..]);
    }
  }

  lemma IndexAgrees(ops: seq<Operation>)
    ensures Inv(Run(EMPTY, ops))
  {
    RunKeepsInv(EMPTY, ops);
  }

  // ---------- the indexed lookup against a scan ----------

  lemma {:induction false} ActiveOnlyConcat(a: seq<Record>, b: seq<Record>, q: string)
    ensures ActiveOnly(a + b, q) == ActiveOnly(a, q) + ActiveOnly(b, q)
  {
    if a == [] {
      assert a + b == b;
    } else {
      assert (a + b)[1..] == a[1..] + b;
      ActiveOnlyConcat(a[1..], b, q);
    }
  }

  lemma {:induction false} ActiveOnlyNone(records: seq<Record>, q: string)
    requires !HasActive(records, q)
    ensures ActiveOnly(records, q) == []
  {
    if records != [] {
      ActiveOnlyNone(records[1..], q);
    }
  }

  /** A well-formed list holds at most one active record for a queue. */
  lemma {:induction false} ActiveOnlyOne(records: seq<Record>, id: string, q: string)
    requires ListOk(records, id) && HasActive(records, q)
    ensures ActiveOnly(records, q) == [records[FirstActive(records, q)]]
  {
    var rest := records[1..];
    assert forall i | 0 <= i < |rest| :: rest[i] == records[i + 1];
    if ActiveFor(records[0], q) {
      assert forall i | 0 <= i < |rest| :: !ActiveFor(rest[i], q);
      ActiveOnlyNone(rest, q);
    } else {
      assert ListOk(rest, id);
      ActiveOnlyOne(rest, id, q);
    }
  }

  /** What the service answers for a queue: the active records of the indexed identities. */
  function Lookup(s: Store, q: string): seq<Record> {
    ActiveOnly(Concatenated(s, IndexOf(s, q)), q)
  }

  /** Moving one identity of a duplicate-free list to the front changes no answer but the order. */
  lemma {:induction false} PullOut(s: Store, ids: seq<string>, x: string, q: string)
    requires x in ids
    ensures multiset(ActiveOnly(Concatenated(s, ids), q))
         == multiset(ActiveOnly(RecordsOf(s, x), q)) + multiset(ActiveOnly(Concatenated(s, SetDelete(ids, x)), q))
  {
    ActiveOnlyConcat(RecordsOf(s, ids[0]), Concatenated(s, ids[1..]), q);
    if ids[0] != x {
      PullOut(s, ids[1..], x, q);
      var d := SetDelete(ids, x);
      assert d[1..] == SetDelete(ids[1..], x);
      ActiveOnlyConcat(RecordsOf(s, d[0]), Concatenated(s, d[1..]), q);
    }
  }

  lemma {:induction false} NoneActive(s: Store, ids: seq<string>, q: string)
    requires forall x :: x in ids ==> !HasActive(RecordsOf(s, x), q)
    ensures ActiveOnly(Concatenated(s, ids), q) == []
  {
    if ids != [] {
      ActiveOnlyConcat(RecordsOf(s, ids[0]), Concatenated(s, ids[1..]), q);
      ActiveOnlyNone(RecordsOf(s, ids[0]), q);
      NoneActive(s, ids[1..], q);
    }
  }

  lemma {:induction false} SubsetLookup(s: Store, few: seq<string>, many: seq<string>, q: string)
    requires NoDuplicates(few) && NoDuplicates(many)
    requires forall x :: x in few ==> x in many
    requires forall x :: x in many && x !in few ==> !HasActive(RecordsOf(s, x), q)
    ensures multiset(ActiveOnly(Concatenated(s, few), q)) == multiset(ActiveOnly(Concatenated(s, many), q))
  {
    if few == [] {
      NoneActive(s, many, q);
    } else {
      var x, rest := few[0], few[1..];
      assert forall i | 0 <= i < |rest| :: rest[i] == few[i + 1];
      assert x !in rest && few == [x] + rest;
      SetDeleteExact(many, x);
      SubsetLookup(s, rest, SetDelete(many, x), q);
      PullOut(s, many, x, q);
      ActiveOnlyConcat(RecordsOf(s, x), Concatenated(s, rest), q);
    }
  }

  /**
   * The indexed lookup returns exactly the records that a scan over all identities finds,
   * whatever order the scan visits them in.
   */
  lemma LookupIsScan(s: Store, q: string, all: seq<string>)
    requires Inv(s) && NoDuplicates(all)
    requires forall id: string :: id in all <==> id in s.byIdentity
    ensures multiset(Lookup(s, q)) == multiset(ActiveOnly(Concatenated(s, all), q))
  {
    assert IndexOk(s, q);
    forall x | x in IndexOf(s, q)
      ensures x in all
    {
      assert HasActive(RecordsOf(s, x), q);
    }
    SubsetLookup(s, IndexOf(s, q), all, q);
  }

  function ActiveRecord(s: Store, id: string, q: string): Record
    requires HasActive(RecordsOf(s, id), q)
  {
    RecordsOf(s, id)[FirstActive(RecordsOf(s, id), q)]
  }

  lemma FirstAnswer(s: Store, ids: seq<string>, q: string)
    requires ids != [] && ListOk(RecordsOf(s, ids[0]), ids[0]) && HasActive(RecordsOf(s, ids[0]), q)
    ensures ActiveRecord(s, ids[0], q).identity == ids[0]
    ensures ActiveOnly(Concatenated(s, ids), q)
         == [ActiveRecord(s, ids[0], q)] + ActiveOnly(Concatenated(s, ids[1..]), q)
  {
    var records := RecordsOf(s, ids[0]);
    ActiveOnlyOne(records, ids[0], q);
    ActiveOnlyConcat(records, Concatenated(s, ids[1..]), q);
    assert ActiveRecord(s, ids[0], q) in records;
  }

  /** One record per indexed identity, in the order of the index. */
  lemma {:induction false} OnePerIdentity(s: Store, ids: seq<string>, q: string)
    requires forall id: string :: ListOk(RecordsOf(s, id), id)
    requires forall x :: x in ids ==> HasActive(RecordsOf(s, x), q)
    ensures var answer := ActiveOnly(Concatenated(s, ids), q);
      && |answer| == |ids|
      && forall k | 0 <= k < |ids| ::
           HasActive(RecordsOf(s, ids[k]), q) && answer[k].identity == ids[k] && answer[k] == ActiveRecord(s, ids[k], q)
  {
    if ids != [] {
      var rest := ids[1..];
      FirstAnswer(s, ids, q);
      OnePerIdentity(s, rest, q);
      var answer, tail := ActiveOnly(Concatenated(s, ids), q), ActiveOnly(Concatenated(s, rest), q);
      forall k | 0 <= k < |ids|
        ensures HasActive(RecordsOf(s, ids[k]), q) && answer[k].identity == ids[k]
          && answer[k] == ActiveRecord(s, ids[k], q)
      {
        if k > 0 { assert answer[k] == tail[k - 1] && ids[k] == rest[k - 1]; }
      }
    }
  }

  lemma LookupOnePerIdentity(s: Store, q: string)
    requires Inv(s)
    ensures |Lookup(s, q)| == |IndexOf(s, q)|
    ensures forall k | 0 <= k < |Lookup(s, q)| :: Lookup(s, q)[k].identity == IndexOf(s, q)[k]
  {
    assert IndexOk(s, q);
    OnePerIdentity(s, IndexOf(s, q), q);
  }

  lemma {:induction false} ConcatenatedSnoc(s: Store, ids: seq<string>, x: string)
    ensures Concatenated(s, ids + [x]) == Concatenated(s, ids) + RecordsOf(s, x)
  {
    if ids == [] {
      assert [] + [x] == [x] && [x][1..] == [];
    } else {
      assert (ids + [x])[1..] == ids[1..] + [x];
      ConcatenatedSnoc(s, ids[1..], x);
    }
  }

  lemma LookupNext(s: Store, ids: seq<string>, i: nat, q: string)
    requires i < |ids|
    ensures ActiveOnly(Concatenated(s, ids[..i + 1]), q)
         == ActiveOnly(Concatenated(s, ids[..i]), q) + ActiveOnly(RecordsOf(s, ids[i]), q)
  {
    assert ids[..i + 1] == ids[..i] + [ids[i]];
    ConcatenatedSnoc(s, ids[..i], ids[i]);
    ActiveOnlyConcat(Concatenated(s, ids[..i]), RecordsOf(s, ids[i]), q);
  }

  // ---------- the order of the answers ----------

  function EnrolledAt(s: Store, id: string, q: string): int {
    var records := RecordsOf(s, id);
    if HasActive(records, q) then records[FirstActive(records, q)].enrolledAt else 0
  }

  predicate TimesInOrder(s: Store, ids: seq<string>, q: string) {
    forall i, j | 0 <= i < j < |ids| :: EnrolledAt(s, ids[i], q) <= EnrolledAt(s, ids[j], q)
  }

  /** Within a queue's index, enrollment times do not decrease, and none is after the clock. */
  ghost predicate InOrder(s: Store, q: string, clock: int) {
    var index := IndexOf(s, q);
    && (forall i | 0 <= i < |index| :: EnrolledAt(s, index[i], q) <= clock)
    && TimesInOrder(s, index, q)
  }

  /** Appending a record, or cancelling one for another queue, does not move another active record. */
  lemma {:induction false} FirstActiveAppend(records: seq<Record>, r: Record, q: string)
    ensures FirstActive(records + [r], q)
         == if HasActive(records, q) || ActiveFor(r, q) then FirstActive(records, q) else |records| + 1
  {
    if records == [] {
      assert records + [r] == [r];
    } else {
      assert (records + [r])[1..] == records[1..] + [r];
      FirstActiveAppend(records[1..], r, q);
    }
  }

  lemma EnrolledTimes(s: Store, q: string, id: string, now: int, queue: string, x: string)
    requires HasActive(RecordsOf(s, x), queue)
    ensures EnrolledAt(Enroll(s, q, id, now).0, x, queue) == EnrolledAt(s, x, queue)
  {
    FirstActiveAppend(RecordsOf(s, id), Record(q, id, now, false, false), queue);
  }

  lemma NewTime(s: Store, q: string, id: string, now: int)
    requires !HasActive(RecordsOf(s, id), q)
    ensures EnrolledAt(Enroll(s, q, id, now).0, id, q) == now
  {
    FirstActiveAppend(RecordsOf(s, id), Record(q, id, now, false, false), q);
  }

  lemma EnrollKeepsOrder(s: Store, q: string, id: string, now: int, queue: string, clock: int)
    requires IndexOk(s, queue) && InOrder(s, queue, clock) && clock <= now
    ensures InOrder(Enroll(s, q, id, now).0, queue, now)
  {
    var t := Enroll(s, q, id, now).0;
    var before, after := IndexOf(s, queue), IndexOf(t, queue);
    forall i | 0 <= i < |before|
      ensures EnrolledAt(t, before[i], queue) == EnrolledAt(s, before[i], queue)
    {
      assert before[i] in before;
      EnrolledTimes(s, q, id, now, queue, before[i]);
    }
    if q == queue && !HasActive(RecordsOf(s, id), q) {
      NewTime(s, q, id, now);
      assert after == before + [id];
    } else {
      assert after == before;
    }
  }

  lemma CancelledTimes(s: Store, q: string, id: string, queue: string, x: string)
    requires Inv(s) && HasActive(RecordsOf(Cancel(s, q, id).0, x), queue)
    ensures HasActive(RecordsOf(s, x), queue) && EnrolledAt(Cancel(s, q, id).0, x, queue) == EnrolledAt(s, x, queue)
  {
    var records := RecordsOf(s, id);
    if x == id && HasActive(records, q) {
      assert ListOk(records, id);
      CancelledList(records, id, q, queue);
      var after, k := RecordsOf(Cancel(s, q, id).0, id), FirstActive(records, q);
      var i, j := FirstActive(after, queue), FirstActive(records, queue);
      assert i != k && after[i] == records[i] && j != k && after[j] == records[j];
    }
  }

  /** Deleting from a list keeps the order of what stays. */
  lemma {:induction false} SetDeleteOrder(s: Store, ids: seq<string>, x: string, q: string)
    requires TimesInOrder(s, ids, q)
    ensures TimesInOrder(s, SetDelete(ids, x), q)
  {
    if ids != [] {
      var rest, d := ids[1..], SetDelete(ids, x);
      assert forall i | 0 <= i < |rest| :: rest[i] == ids[i + 1];
      if ids[0] != x {
        SetDeleteOrder(s, rest, x, q);
        assert forall i | 0 < i < |d| :: d[i] == SetDelete(rest, x)[i - 1];
        forall i | 0 < i < |d|
          ensures EnrolledAt(s, d[0], q) <= EnrolledAt(s, d[i], q)
        {
          assert d[i] in rest;
        }
      }
    }
  }

  lemma CancelKeepsOrder(s: Store, q: string, id: string, queue: string, clock: int)
    requires Inv(s) && InOrder(s, queue, clock)
    ensures InOrder(Cancel(s, q, id).0, queue, clock)
  {
    var t := Cancel(s, q, id).0;
    var before, after := IndexOf(s, queue), IndexOf(t, queue);
    SetDeleteOrder(s, before, id, queue);
    assert TimesInOrder(s, after, queue);
    forall i | 0 <= i < |after|
      ensures EnrolledAt(t, after[i], queue) == EnrolledAt(s, after[i], queue) <= clock
    {
      CancelKeepsIndex(s, q, id, queue);
      assert after[i] in after;
      CancelledTimes(s, q, id, queue, after[i]);
      assert IndexOk(s, queue);
      assert after[i] in before;
    }
  }

  /** The clock never runs backwards over the run. */
  predicate ClockForward(ops: seq<Operation>, clock: int)
    decreases |ops|
  {
    ops == [] ||
    if ops[0].Enrolling? then clock <= ops[0].now && ClockForward(ops[1..], ops[0].now)
    else ClockForward(ops[1..], clock)
  }

  lemma {:induction false} RunKeepsOrder(s: Store, ops: seq<Operation>, q: string, clock: int) returns (end: int)
    requires Inv(s) && InOrder(s, q, clock) && ClockForward(ops, clock)
    ensures Inv(Run(s, ops)) && InOrder(Run(s, ops), q, end)
    decreases |ops|
  {
    if ops == [] {
      end := clock;
    } else {
      StepKeepsInv(s, ops[0]);
      match ops[0]
      case Enrolling(queue, id, now) =>
        EnrollKeepsOrder(s, queue, id, now, q, clock);
        end := RunKeepsOrder(Step(s, ops[0]), ops[1..], q, now);
      case Cancelling(queue, id) =>
        CancelKeepsOrder(s, queue, id, q, clock);
        end := RunKeepsOrder(Step(s, ops[0]), ops[1..], q, clock);
    }
  }

  /** After any run with a forward clock, the lookup answers in order of enrollment, one record per identity. */
  lemma LookupInEnrollmentOrder(ops: seq<Operation>, q: string, clock: int)
    requires ClockForward(ops, clock)
    ensures var answer := Lookup(Run(EMPTY, ops), q);
      && (forall i, j | 0 <= i < j < |answer| :: answer[i].enrolledAt <= answer[j].enrolledAt)
      && (forall i, j | 0 <= i < j < |answer| :: answer[i].identity != answer[j].identity)
  {
    var end := RunKeepsOrder(EMPTY, ops, q, clock);
    var s := Run(EMPTY, ops);
    assert IndexOk(s, q);
    OnePerIdentity(s, IndexOf(s, q), q);
  }
}

/** The service object over its storage adapter. */
module EnrollmentIndexService {
  import opened EnrollmentIndex
  import opened EnrollmentIndexProofs

  class EnrollmentService {
    var byIdentity: map<string, seq<Record>>
    var queueIndex: map<string, seq<string>>

    ghost function View(): Store
      reads this
    {
      Store(byIdentity, queueIndex)
    }

    constructor ()
      ensures View() == EMPTY && Inv(View())
    {
      byIdentity, queueIndex := map[], map[];
    }

    method EnrollIdentity(queueId: string, identity: string, now: int) returns (record: Record)
      requires Inv(View())
      modifies this
      ensures (View(), record) == Enroll(old(View()), queueId, identity, now)
      ensures Inv(View())
    {
      StepKeepsInv(View(), Enrolling(queueId, identity, now));
      var existing := if identity in byIdentity then byIdentity[identity] else [];
      if FirstActive(existing, queueId) < |existing| {
        return Record(queueId, identity, now, true, false);
      }
      record := Record(queueId, identity, now, false, false);
      byIdentity := byIdentity[identity := existing + [record]];
      var members := if queueId in queueIndex then queueIndex[queueId] else [];
      queueIndex := queueIndex[queueId := SetAdd(members, identity)];
    }

    method CancelEnrollment(queueId: string, identity: string) returns (done: bool)
      requires Inv(View())
      modifies this
      ensures (View(), done) == Cancel(old(View()), queueId, identity)
      ensures done == HasActive(RecordsOf(old(View()), identity), queueId)
      ensures Inv(View()) && identity !in IndexOf(View(), queueId)
    {
      StepKeepsInv(View(), Cancelling(queueId, identity));
      assert IndexOk(View(), queueId) && ListOk(RecordsOf(View(), identity), identity);
      SetDeleteExact(IndexOf(View(), queueId), identity);
      if identity !in byIdentity { return false; }
      var existing := byIdentity[identity];
      var k := FirstActive(existing, queueId);
      if k == |existing| { return false; }
      byIdentity := byIdentity[identity := existing[k := existing[k].(cancelled := true)]];
      if queueId in queueIndex {
        queueIndex := queueIndex[queueId := SetDelete(queueIndex[queueId], identity)];
      }
      done := true;
    }

    method GetEnrollmentsByQueue(queueId: string) returns (results: seq<Record>)
      ensures results == Lookup(View(), queueId)
    {
      results := [];
      if queueId !in queueIndex { return; }
      var identities := queueIndex[queueId];
      for i := 0 to |identities|
        invariant results == ActiveOnly(Concatenated(View(), identities[..i]), queueId)
      {
        var records := if identities[i] in byIdentity then byIdentity[identities[i]] else [];
        LookupNext(View(), identities, i, queueId);
        results := results + ActiveOnly(records, queueId);
      }
      assert identities[..|identities|] == identities;
    }
  }
}
