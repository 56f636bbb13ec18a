/** The enrollment contract over its persistent storage; a call that panics returns without having changed anything. */
module EnrollmentContract {
  import opened Common
  import opened Enrollment

  class EnrollmentContract {
    var behavior: DuplicateBehavior
    var records: map<Key, Record>
    var counts: map<Symbol, nat>
    var waitlists: map<Symbol, seq<Address>>

    ghost function View(): State
      reads this
    {
      State(behavior, records, counts, waitlists)
    }

    constructor ()
      ensures View() == Empty
    {
      behavior, records, counts, waitlists := Reject, map[], map[], map[];
    }

    twostate predicate Performed(op: Op, now: nat, new r: Result<Option<Proof>>)
      reads this
    {
      match Step(old(View()), op, now)
      case Panic(reason) => r == Panic(reason) && View() == old(View())
      case Ok(reply) => r == Ok(reply.proof) && View() == reply.state
    }

    method SetDuplicateBehavior(b: DuplicateBehavior) returns (r: Result<Option<Proof>>)
      modifies this
      ensures Performed(SetBehavior(b), 0, r)
    {
      behavior := b;
      return Ok(None);
    }

    method GetCount(queue: Symbol) returns (n: nat)
      ensures n == EnrollmentCount(View(), queue)
    {
      n := if queue in counts then counts[queue] else 0;
    }

    method GetWaitlist(queue: Symbol) returns (list: seq<Address>)
      ensures list == Waitlist(View(), queue)
    {
      list := if queue in waitlists then waitlists[queue] else [];
    }

    /** The place of an identity on the waiting list, counted from zero. */
    method WaitlistPosition(key: Key) returns (r: Option<nat>)
      ensures r.None? ==> key.identity !in Waitlist(View(), key.queue)
      ensures r.Some? ==>
        var list := Waitlist(View(), key.queue);
        r.value < |list| && list[r.value] == key.identity && key.identity !in list[..r.value]
    {
      var list := GetWaitlist(key.queue);
      for i := 0 to |list|
        invariant key.identity !in list[..i]
      {
        if list[i] == key.identity { return Some(i); }
      }
      return None;
    }

    method Enroll(key: Key, expiresAt: Option<nat>, now: nat) returns (r: Result<Option<Proof>>)
      modifies this
      ensures Performed(Op.Enroll(key, expiresAt), now, r)
    {
      if key in records && !records[key].cancelled {
        match behavior {
          case Reject => return Panic("duplicate enrollment");
          case GrantWaitingList =>
            var list := GetWaitlist(key.queue);
            if key.identity in list { return Panic("already waitlisted"); }
            waitlists := waitlists[key.queue := list + [key.identity]];
            return Ok(Some(Proof(now, Zero, None)));
          case OverrideExpired =>
            var existing := records[key];
            if existing.expiresAt.None? || now <= existing.expiresAt.value { return Panic("duplicate enrollment"); }
            if existing.duplicateCount >= U32_MAX { return Panic("attempt to add with overflow"); }
            var updated := FreshRecord(key, now, existing.duplicateCount + 1, expiresAt);
            records := records[key := updated];
            return Ok(Some(ProofOf(updated)));
        }
      }
      var duplicateCount: nat := 0;
      if key in records {
        if records[key].duplicateCount >= U32_MAX { return Panic("attempt to add with overflow"); }
        duplicateCount := records[key].duplicateCount + 1;
      }
      var count := GetCount(key.queue);
      if count >= U32_MAX { return Panic("attempt to add with overflow"); }
      var record := FreshRecord(key, now, duplicateCount, expiresAt);
      records := records[key := record];
      counts := counts[key.queue := count + 1];
      return Ok(Some(ProofOf(record)));
    }

    method Cancel(key: Key, now: nat) returns (r: Result<Option<Proof>>)
      modifies this
      ensures Performed(Op.Cancel(key), now, r)
    {
      if key !in records { return Panic("not enrolled"); }
      if records[key].cancelled { return Panic("not enrolled"); }
      records := records[key := records[key].(cancelled := true)];
      var count := GetCount(key.queue);
      if count > 0 { counts := counts[key.queue := count - 1]; }
      return Ok(None);
    }

    method FinalizeEnrollment(key: Key, now: nat) returns (r: Result<Option<Proof>>)
      modifies this
      ensures Performed(Finalize(key), now, r)
    {
      if key !in records { return Panic("record missing"); }
      if records[key].cancelled { return Panic("not enrolled"); }
      if records[key].finalized { return Panic("already finalized"); }
      records := records[key := records[key].(finalized := true)];
      return Ok(None);
    }

    /** The loop removes the head of a copy of the waiting list, which is written back at the end. */
    method PromoteFromWaitlist(queue: Symbol, count: nat, now: nat) returns (r: Result<Option<Proof>>)
      modifies this
      ensures Performed(Promote(queue, count), now, r)
    {
      var list := GetWaitlist(queue);
      var newRecords, newCounts := records, counts;
      var toPromote: nat := Min(count, |list|);
      ghost var whole := PromoteMany(View(), queue, toPromote, now);
      ghost var s := View();
      for i := 0 to toPromote
        invariant toPromote - i <= |list|
        invariant View() == old(View())
        invariant s.behavior == behavior && s.records == newRecords && s.counts == newCounts
        invariant s.waitlists == waitlists || s.waitlists == waitlists[queue := list]
        invariant Waitlist(s, queue) == list
        invariant whole == PromoteMany(s, queue, toPromote - i, now)
      {
        var current: nat := if queue in newCounts then newCounts[queue] else 0;
        if current >= U32_MAX { return Panic("attempt to add with overflow"); }
        var key := Key(queue, list[0]);
        list := list[1..];
        newRecords := newRecords[key := FreshRecord(key, now, 0, None)];
        newCounts := newCounts[queue := current + 1];
        s := PromoteHead(s, queue, now).value;
        assert s.waitlists == waitlists[queue := list];
      }
      assert s.waitlists[queue := list] == waitlists[queue := list];
      records, counts, waitlists := newRecords, newCounts, waitlists[queue := list];
      return Ok(None);
    }
  }
}
