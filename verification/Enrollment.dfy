/** The enrollment contract: its storage as a value and each entry point as a transition. */
module Enrollment {
  import opened Common

  const U32_MAX: nat := 0xffff_ffff

  type Address = nat
  type Symbol = string

  datatype Key = Key(queue: Symbol, identity: Address)

  /** SHA-256 of what was hashed, or the zero hash of a waiting-list entry. */
  datatype ProofHash = Zero | Sha256(identity: Address, queue: Symbol, enrolledAt: nat)

  datatype Record = Record(
    enrolledAt: nat, proofHash: ProofHash, duplicateCount: nat, finalized: bool,
    expiresAt: Option<nat>, cancelled: bool)

  datatype Proof = Proof(enrolledAt: nat, proofHash: ProofHash, expiresAt: Option<nat>)

  datatype DuplicateBehavior = Reject | GrantWaitingList | OverrideExpired

  datatype State = State(
    behavior: DuplicateBehavior, records: map<Key, Record>, counts: map<Symbol, nat>,
    waitlists: map<Symbol, seq<Address>>)

  datatype Op =
    | SetBehavior(behavior: DuplicateBehavior)
    | Enroll(key: Key, expiresAt: Option<nat>)
    | Cancel(key: Key)
    | Finalize(key: Key)
    | Promote(queue: Symbol, count: nat)

  datatype Reply = Reply(state: State, proof: Option<Proof>)

  const Empty: State := State(Reject, map[], map[], map[])

  function EnrollmentCount(s: State, queue: Symbol): nat {
    if queue in s.counts then s.counts[queue] else 0
  }

  function Waitlist(s: State, queue: Symbol): seq<Address> {
    if queue in s.waitlists then s.waitlists[queue] else []
  }

  predicate IsEnrolled(s: State, key: Key) {
    key in s.records && !s.records[key].cancelled
  }

  function FreshRecord(key: Key, now: nat, duplicateCount: nat, expiresAt: Option<nat>): Record {
    Record(now, Sha256(key.identity, key.queue, now), duplicateCount, false, expiresAt, false)
  }

  function ProofOf(r: Record): Proof {
    Proof(r.enrolledAt, r.proofHash, r.expiresAt)
  }

  /** The record is already active: the configured behaviour decides. */
  function DoDuplicate(s: State, key: Key, expiresAt: Option<nat>, now: nat): Result<Reply>
    requires key in s.records
  {
    match s.behavior
    case Reject => Panic("duplicate enrollment")
    case GrantWaitingList =>
      if key.identity in Waitlist(s, key.queue) then Panic("already waitlisted")
      else Ok(Reply(s.(waitlists := s.waitlists[key.queue := Waitlist(s, key.queue) + [key.identity]]),
                    Some(Proof(now, Zero, None))))
    case OverrideExpired =>
      var existing := s.records[key];
      if existing.expiresAt.None? || now <= existing.expiresAt.value then Panic("duplicate enrollment")
      else if existing.duplicateCount >= U32_MAX then Panic("attempt to add with overflow")
      else
        var record := FreshRecord(key, now, existing.duplicateCount + 1, expiresAt);
        Ok(Reply(s.(records := s.records[key := record]), Some(ProofOf(record))))
  }

  function DoEnroll(s: State, key: Key, expiresAt: Option<nat>, now: nat): Result<Reply> {
    if IsEnrolled(s, key) then DoDuplicate(s, key, expiresAt, now)
    else if key in s.records && s.records[key].duplicateCount >= U32_MAX then Panic("attempt to add with overflow")
    else if EnrollmentCount(s, key.queue) >= U32_MAX then Panic("attempt to add with overflow")
    else
      var record := FreshRecord(key, now, if key in s.records then s.records[key].duplicateCount + 1 else 0, expiresAt);
      Ok(Reply(s.(records := s.records[key := record],
               counts := s.counts[key.queue := EnrollmentCount(s, key.queue) + 1]),
               Some(ProofOf(record))))
  }

  function DoCancel(s: State, key: Key): Result<Reply> {
    if !IsEnrolled(s, key) then Panic("not enrolled")
    else
      var count := EnrollmentCount(s, key.queue);
      Ok(Reply(s.(records := s.records[key := s.records[key].(cancelled := true)],
                  counts := if count > 0 then s.counts[key.queue := count - 1] else s.counts), None))
  }

  function DoFinalize(s: State, key: Key): Result<Reply> {
    if key !in s.records then Panic("record missing")
    else if s.records[key].cancelled then Panic("not enrolled")
    else if s.records[key].finalized then Panic("already finalized")
    else Ok(Reply(s.(records := s.records[key := s.records[key].(finalized := true)]), None))
  }

  /** One turn of the promotion loop: the head of the waiting list gets a fresh record. */
  function PromoteHead(s: State, queue: Symbol, now: nat): Result<State>
    requires Waitlist(s, queue) != []
  {
    if EnrollmentCount(s, queue) >= U32_MAX then Panic("attempt to add with overflow")
    else
      var key := Key(queue, Waitlist(s, queue)[0]);
      Ok(s.(records := s.records[key := FreshRecord(key, now, 0, None)],
            counts := s.counts[queue := EnrollmentCount(s, queue) + 1],
            waitlists := s.waitlists[queue := Waitlist(s, queue)[1..]]))
  }

  function PromoteMany(s: State, queue: Symbol, n: nat, now: nat): Result<State>
    requires n <= |Waitlist(s, queue)|
    decreases n
  {
    if n == 0 then Ok(s)
    else match PromoteHead(s, queue, now)
      case Panic(reason) => Panic(reason)
      case Ok(t) => PromoteMany(t, queue, n - 1, now)
  }

  function DoPromote(s: State, queue: Symbol, count: nat, now: nat): Result<Reply> {
    match PromoteMany(s, queue, Min(count, |Waitlist(s, queue)|), now)
    case Panic(reason) => Panic(reason)
    case Ok(t) => Ok(Reply(t.(waitlists := t.waitlists[queue := Waitlist(t, queue)]), None))
  }

  function Step(s: State, op: Op, now: nat): Result<Reply> {
    match op
    case SetBehavior(behavior) => Ok(Reply(s.(behavior := behavior), None))
    case Enroll(key, expiresAt) => DoEnroll(s, key, expiresAt, now)
    case Cancel(key) => DoCancel(s, key)
    case Finalize(key) => DoFinalize(s, key)
    case Promote(queue, count) => DoPromote(s, queue, count, now)
  }

  datatype Call = Call(op: Op, at: nat)

  /** A call that panics has no effect. */
  function Run(s: State, calls: seq<Call>): State
    decreases |calls|
  {
    if calls == [] then s
    else match Step(s, calls[0].op, calls[0].at)
      case Panic(_) => Run(s, calls[1..])
      case Ok(r) => Run(r.state, calls[1..])
  }
}
