/** The enrollment service, records and index together, behaves as one map from enrolled pairs to their times. */
module EnrollmentIndexMap {
  import opened EnrollmentIndex
  import opened EnrollmentIndexProofs

  datatype Pair = Pair(queueId: string, identity: string)

  /** Enrolled pairs, with the time of their enrolment. */
  type Enrolled = map<Pair, int>

  function MapStep(m: Enrolled, op: Operation): Enrolled {
    match op
    case Enrolling(q, id, now) => if Pair(q, id) in m then m else m[Pair(q, id) := now]
    case Cancelling(q, id) => m - {Pair(q, id)}
  }

  function MapRun(m: Enrolled, ops: seq<Operation>): Enrolled
    decreases |ops|
  {
    if ops == [] then m else MapRun(MapStep(m, ops[0]), ops[1..])
  }

  /** The store shows this pair as the map has it: the index lists it, and one active record carries its time. */
  ghost predicate Shows(s: Store, m: Enrolled, q: string, id: string) {
    && (Pair(q, id) in m <==> id in IndexOf(s, q))
    && (Pair(q, id) in m <==> HasActive(RecordsOf(s, id), q))
    && (Pair(q, id) in m ==> ActiveRecord(s, id, q) == Record(q, id, m[Pair(q, id)], false, false))
  }

  ghost predicate Refines(s: Store, m: Enrolled) {
    Inv(s) && forall q: string, id: string :: Shows(s, m, q, id)
  }

  lemma {:induction false} EnrollRecord(s: Store, q: string, id: string, now: int, queue: string, x: string)
    requires Inv(s)
    ensures var t := Enroll(s, q, id, now).0;
      && (HasActive(RecordsOf(t, x), queue) <==> HasActive(RecordsOf(s, x), queue) || (queue == q && x == id))
      && (HasActive(RecordsOf(s, x), queue) ==> ActiveRecord(t, x, queue) == ActiveRecord(s, x, queue))
      && (!HasActive(RecordsOf(s, id), q) ==>
            HasActive(RecordsOf(t, id), q) && ActiveRecord(t, id, q) == Record(q, id, now, false, false))
  {
    FirstActiveAppend(RecordsOf(s, id), Record(q, id, now, false, false), queue);
    FirstActiveAppend(RecordsOf(s, id), Record(q, id, now, false, false), q);
  }

  lemma {:induction false} EnrollShows(
    s: Store, m: Enrolled, q: string, id: string, now: int, queue: string, x: string)
    requires Refines(s, m)
    ensures Shows(Enroll(s, q, id, now).0, MapStep(m, Enrolling(q, id, now)), queue, x)
  {
    assert Shows(s, m, queue, x) && Shows(s, m, q, id);
    EnrollRecord(s, q, id, now, queue, x);
    EnrollKeepsIndex(s, q, id, now, queue);
  }

  lemma {:induction false} CancelRecord(s: Store, q: string, id: string, queue: string, x: string)
    requires Inv(s)
    ensures var t := Cancel(s, q, id).0;
      && (HasActive(RecordsOf(t, x), queue) <==> HasActive(RecordsOf(s, x), queue) && (queue != q || x != id))
      && (HasActive(RecordsOf(t, x), queue) ==> ActiveRecord(t, x, queue) == ActiveRecord(s, x, queue))
  {
    var records := RecordsOf(s, id);
    assert ListOk(records, id);
    if x == id && HasActive(records, q) {
      CancelledList(records, id, q, queue);
      if HasActive(records, queue) && queue != q {
        var after, k := RecordsOf(Cancel(s, q, id).0, id), FirstActive(records, q);
        var i, j := FirstActive(after, queue), FirstActive(records, queue);
        assert i != k && after[i] == records[i] && j != k && after[j] == records[j];
      }
    }
  }

  lemma {:induction false} CancelShows(s: Store, m: Enrolled, q: string, id: string, queue: string, x: string)
    requires Refines(s, m)
    ensures Shows(Cancel(s, q, id).0, MapStep(m, Cancelling(q, id)), queue, x)
  {
    assert Shows(s, m, queue, x) && Shows(s, m, q, id);
    CancelRecord(s, q, id, queue, x);
    CancelKeepsIndex(s, q, id, queue);
  }

  lemma {:induction false} StepRefines(s: Store, m: Enrolled, op: Operation)
    requires Refines(s, m)
    ensures Refines(Step(s, op), MapStep(m, op))
  {
    StepKeepsInv(s, op);
    forall q: string, id: string ensures Shows(Step(s, op), MapStep(m, op), q, id) {
      match op
      case Enrolling(queue, x, now) => EnrollShows(s, m, queue, x, now, q, id);
      case Cancelling(queue, x) => CancelShows(s, m, queue, x, q, id);
    }
  }

  lemma {:induction false} RunRefines(s: Store, m: Enrolled, ops: seq<Operation>)
    requires Refines(s, m)
    ensures Refines(Run(s, ops), MapRun(m, ops))
    decreases |ops|
  {
    if ops != [] {
      StepRefines(s, m, ops[0]);
      RunRefines(Step(s, ops[0]), MapStep(m, ops[0]), ops[1..]);
    }
  }

  /**
    * After any run the service answers from the map: enrolling reports a conflict exactly when the pair is in it,
    * cancelling succeeds exactly when it is, and a lookup returns exactly the pairs of its queue with their times.
    */
  lemma {:induction false} ServiceIsAMap(ops: seq<Operation>, q: string, id: string, now: int)
    ensures var s := Run(EMPTY, ops); var m := MapRun(map[], ops);
      && Enroll(s, q, id, now).1 == Record(q, id, now, Pair(q, id) in m, false)
      && (Cancel(s, q, id).1 <==> Pair(q, id) in m)
      && (id in IndexOf(s, q) <==> Pair(q, id) in m)
      && (forall r :: r in Lookup(s, q) <==> Pair(q, r.identity) in m && r == InMap(m, q, r.identity))
  {
    var s, m := Run(EMPTY, ops), MapRun(map[], ops);
    RunRefines(EMPTY, map[], ops);
    assert Shows(s, m, q, id) && IndexOk(s, q);
    OnePerIdentity(s, IndexOf(s, q), q);
    forall r ensures r in Lookup(s, q) <==> Pair(q, r.identity) in m && r == InMap(m, q, r.identity) {
      assert Shows(s, m, q, r.identity);
      if r in Lookup(s, q) {
        var k :| 0 <= k < |Lookup(s, q)| && Lookup(s, q)[k] == r;
        assert IndexOf(s, q)[k] in IndexOf(s, q);
      }
      if r.identity in IndexOf(s, q) {
        var k :| 0 <= k < |IndexOf(s, q)| && IndexOf(s, q)[k] == r.identity;
        assert Lookup(s, q)[k] == ActiveRecord(s, r.identity, q);
      }
    }
  }

  /** The record of a pair, as the map tells it. */
  function InMap(m: Enrolled, q: string, id: string): Record {
    Record(q, id, if Pair(q, id) in m then m[Pair(q, id)] else 0, false, false)
  }

  /** Records are kept for good, in place; the only thing that can happen to one is that it is cancelled. */
  ghost predicate Kept(a: seq<Record>, b: seq<Record>) {
    && |a| <= |b|
    && forall i :: 0 <= i < |a| ==>
         b[i] == a[i].(cancelled := b[i].cancelled) && (a[i].cancelled ==> b[i].cancelled)
  }

  lemma {:induction false} RecordsAreKept(s: Store, ops: seq<Operation>, id: string)
    ensures Kept(RecordsOf(s, id), RecordsOf(Run(s, ops), id))
    decreases |ops|
  {
    if ops != [] {
      assert Kept(RecordsOf(s, id), RecordsOf(Step(s, ops[0]), id));
      RecordsAreKept(Step(s, ops[0]), ops[1..], id);
    }
  }
}
