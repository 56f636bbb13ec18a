/** Exactly which enrollment calls succeed, the order of the waiting list, and the history of one record. */
module EnrollmentCalls {
  import opened Common
  import opened Enrollment

  // ---------- exactly which calls succeed ----------

  predicate HasRoom(s: State, queue: Symbol, n: nat) {
    EnrollmentCount(s, queue) + n <= U32_MAX
  }

  predicate CountsAgain(s: State, key: Key) {
    key in s.records ==> s.records[key].duplicateCount < U32_MAX
  }

  /** How many a promotion of `count` takes from the waiting list. */
  function Taken(s: State, queue: Symbol, count: nat): nat {
    Min(count, |Waitlist(s, queue)|)
  }

  ghost predicate Permitted(s: State, op: Op, now: nat) {
    match op
    case SetBehavior(_) => true
    case Enroll(key, _) =>
      if key in s.records && !s.records[key].cancelled then
        || (s.behavior == GrantWaitingList && key.identity !in Waitlist(s, key.queue))
        || (s.behavior == OverrideExpired && s.records[key].expiresAt.Some? && s.records[key].expiresAt.value < now
            && CountsAgain(s, key))
      else CountsAgain(s, key) && HasRoom(s, key.queue, 1)
    case Cancel(key) => key in s.records && !s.records[key].cancelled
    case Finalize(key) => key in s.records && !s.records[key].cancelled && !s.records[key].finalized
    case Promote(queue, count) => Taken(s, queue, count) == 0 || HasRoom(s, queue, Taken(s, queue, count))
  }

  /** The key has just been enrolled, from scratch. */
  function Newly(key: Key, now: nat, duplicateCount: nat, expiresAt: Option<nat>): Record {
    Record(now, Sha256(key.identity, key.queue, now), duplicateCount, false, expiresAt, false)
  }

  ghost predicate SameRecord(s: State, t: State, key: Key) {
    (key in s.records <==> key in t.records) && (key in s.records ==> t.records[key] == s.records[key])
  }

  ghost predicate PromotedAt(s: State, t: State, queue: Symbol, taken: seq<Address>, now: nat, key: Key) {
    if key.queue == queue && key.identity in taken
    then key in t.records && t.records[key] == Newly(key, now, 0, None)
    else SameRecord(s, t, key)
  }

  /** Exactly the identities `taken` have been given a new record in the queue. */
  ghost predicate Promoted(s: State, t: State, queue: Symbol, taken: seq<Address>, now: nat) {
    forall key :: PromotedAt(s, t, queue, taken, now, key)
  }

  lemma PromotedThen(s: State, t: State, u: State, queue: Symbol, a: seq<Address>, b: seq<Address>, now: nat)
    requires Promoted(s, t, queue, a, now) && Promoted(t, u, queue, b, now)
    ensures Promoted(s, u, queue, a + b, now)
  {
    forall key ensures PromotedAt(s, u, queue, a + b, now, key) {
      assert PromotedAt(s, t, queue, a, now, key) && PromotedAt(t, u, queue, b, now, key);
    }
  }

  /** Promoting `n` takes the first `n` of the waiting list, gives each a new record and changes nothing else. */
  lemma {:induction false} PromoteTakesHead(s: State, queue: Symbol, n: nat, now: nat)
    requires n <= |Waitlist(s, queue)|
    ensures PromoteMany(s, queue, n, now).Ok? <==> n == 0 || HasRoom(s, queue, n)
    ensures PromoteMany(s, queue, n, now).Ok? ==>
              var t := PromoteMany(s, queue, n, now).value; var list := Waitlist(s, queue);
              && Promoted(s, t, queue, list[..n], now)
              && Waitlist(t, queue) == list[n..]
              && forall other :: other != queue ==> Waitlist(t, other) == Waitlist(s, other)
    decreases n
  {
    if n > 0 && PromoteHead(s, queue, now).Ok? {
      var t, list := PromoteHead(s, queue, now).value, Waitlist(s, queue);
      PromoteTakesHead(t, queue, n - 1, now);
      if PromoteMany(s, queue, n, now).Ok? {
        assert Promoted(s, t, queue, [list[0]], now);
        PromotedThen(s, t, PromoteMany(s, queue, n, now).value, queue, [list[0]], list[1..][..n - 1], now);
        assert [list[0]] + list[1..][..n - 1] == list[..n];
      }
    }
  }

  lemma {:induction false} StepOkIff(s: State, op: Op, now: nat)
    ensures Step(s, op, now).Ok? <==> Permitted(s, op, now)
  {
    if op.Promote? { PromoteTakesHead(s, op.queue, Taken(s, op.queue, op.count), now); }
  }

  // ---------- the calls of a run ----------

  /** A call that succeeded, the storage it found and what it left behind. */
  datatype Made = Made(call: Call, before: State, reply: Reply)

  function Trace(s: State, calls: seq<Call>): seq<Made>
    decreases |calls|
  {
    if calls == [] then []
    else match Step(s, calls[0].op, calls[0].at)
      case Panic(_) => Trace(s, calls[1..])
      case Ok(r) => [Made(calls[0], s, r)] + Trace(r.state, calls[1..])
  }

  /** Enrolling put the caller on the waiting list: the proof carries the zero hash. */
  predicate Joins(m: Made, queue: Symbol) {
    && m.call.op.Enroll? && m.call.op.key.queue == queue
    && m.reply.proof.Some? && m.reply.proof.value.proofHash == Zero
  }

  /** Everybody who ever joined the waiting list of a queue, in that order, and how many of them have been served. */
  datatype Line = Line(joined: seq<Address>, served: nat)

  function Moved(line: Line, queue: Symbol, m: Made): Line {
    if Joins(m, queue) then line.(joined := line.joined + [m.call.op.key.identity])
    else if m.call.op.Promote? && m.call.op.queue == queue then
      line.(served := Min(line.served + m.call.op.count, |line.joined|))
    else line
  }

  function LineAfter(line: Line, queue: Symbol, made: seq<Made>): Line
    decreases |made|
  {
    if made == [] then line else LineAfter(Moved(line, queue, made[0]), queue, made[1..])
  }

  ghost predicate Waits(s: State, queue: Symbol, line: Line) {
    line.served <= |line.joined| && Waitlist(s, queue) == line.joined[line.served..]
  }

  /** A promotion serves the next in line, as many as it was asked for and there are. */
  ghost predicate ServesNext(line: Line, queue: Symbol, m: Made) {
    m.call.op.Promote? && m.call.op.queue == queue ==>
      var next := Moved(line, queue, m).served;
      && line.served <= next <= |line.joined|
      && Promoted(m.before, m.reply.state, queue, line.joined[line.served..next], m.call.at)
  }

  lemma {:induction false} PromoteServes(s: State, op: Op, now: nat, queue: Symbol, line: Line)
    requires op.Promote? && DoPromote(s, op.queue, op.count, now).Ok? && Waits(s, queue, line)
    ensures var r := DoPromote(s, op.queue, op.count, now).value; var m := Made(Call(op, now), s, r);
      ServesNext(line, queue, m) && Waits(r.state, queue, Moved(line, queue, m))
  {
    var n := Taken(s, op.queue, op.count);
    PromoteTakesHead(s, op.queue, n, now);
    if op.queue == queue {
      var t := PromoteMany(s, queue, n, now).value;
      assert Waitlist(s, queue)[..n] == line.joined[line.served..line.served + n];
      var u := t.(waitlists := t.waitlists[queue := Waitlist(t, queue)]);
      forall key ensures PromotedAt(s, u, queue, Waitlist(s, queue)[..n], now, key) {
        assert PromotedAt(s, t, queue, Waitlist(s, queue)[..n], now, key);
      }
    }
  }

  lemma {:induction false} StepServes(s: State, op: Op, now: nat, queue: Symbol, line: Line)
    requires Step(s, op, now).Ok? && Waits(s, queue, line)
    ensures var r := Step(s, op, now).value; var m := Made(Call(op, now), s, r);
      ServesNext(line, queue, m) && Waits(r.state, queue, Moved(line, queue, m))
  {
    if op.Promote? { PromoteServes(s, op, now, queue, line); }
  }

  lemma {:induction false} RunWaits(s: State, calls: seq<Call>, queue: Symbol, line: Line)
    requires Waits(s, queue, line)
    ensures Waits(Run(s, calls), queue, LineAfter(line, queue, Trace(s, calls)))
    decreases |calls|
  {
    if calls != [] {
      var r := Step(s, calls[0].op, calls[0].at);
      if r.Ok? {
        StepServes(s, calls[0].op, calls[0].at, queue, line);
        RunWaits(r.value.state, calls[1..], queue, Moved(line, queue, Made(calls[0], s, r.value)));
      } else {
        RunWaits(s, calls[1..], queue, line);
      }
    }
  }

  lemma {:induction false} RunServes(s: State, calls: seq<Call>, queue: Symbol, line: Line, i: nat)
    requires Waits(s, queue, line) && i < |Trace(s, calls)|
    ensures var made := Trace(s, calls); ServesNext(LineAfter(line, queue, made[..i]), queue, made[i])
    decreases |calls|
  {
    var r := Step(s, calls[0].op, calls[0].at);
    if r.Panic? {
      RunServes(s, calls[1..], queue, line, i);
    } else {
      StepServes(s, calls[0].op, calls[0].at, queue, line);
      if i > 0 {
        RunServes(r.value.state, calls[1..], queue, Moved(line, queue, Made(calls[0], s, r.value)), i - 1);
        assert Trace(s, calls)[..i][1..] == Trace(r.value.state, calls[1..])[..i - 1];
      }
    }
  }

  /**
    * First come, first served: at every point of every run the waiting list is everybody who joined it, in that order,
    * without those served, and every promotion gives a new record to exactly the next in line.
    */
  lemma {:induction false} FirstComeFirstServed(calls: seq<Call>, queue: Symbol)
    ensures var made := Trace(Empty, calls); var line := LineAfter(Line([], 0), queue, made);
      && line.served <= |line.joined| && Waitlist(Run(Empty, calls), queue) == line.joined[line.served..]
      && (forall i :: 0 <= i < |made| ==> ServesNext(LineAfter(Line([], 0), queue, made[..i]), queue, made[i]))
  {
    var made := Trace(Empty, calls);
    RunWaits(Empty, calls, queue, Line([], 0));
    forall i | 0 <= i < |made| ensures ServesNext(LineAfter(Line([], 0), queue, made[..i]), queue, made[i]) {
      RunServes(Empty, calls, queue, Line([], 0), i);
    }
  }

  // ---------- the history of one record ----------

  function RecordOf(s: State, key: Key): Option<Record> {
    if key in s.records then Some(s.records[key]) else None
  }

  predicate Promotes(m: Made, key: Key) {
    && m.call.op.Promote? && m.call.op.queue == key.queue
    && key.identity in Waitlist(m.before, key.queue)[..Taken(m.before, key.queue, m.call.op.count)]
  }

  /** What one call makes of the record of a key. */
  function Rewritten(record: Option<Record>, key: Key, m: Made): Option<Record> {
    if Promotes(m, key) then Some(Newly(key, m.call.at, 0, None))
    else match m.call.op
      case Enroll(k, expiresAt) =>
        if k != key || Joins(m, k.queue) then record
        else Some(Newly(key, m.call.at, if record.None? then 0 else record.value.duplicateCount + 1, expiresAt))
      case Cancel(k) => if k == key && record.Some? then Some(record.value.(cancelled := true)) else record
      case Finalize(k) => if k == key && record.Some? then Some(record.value.(finalized := true)) else record
      case _ => record
  }

  function RecordAfter(record: Option<Record>, key: Key, made: seq<Made>): Option<Record>
    decreases |made|
  {
    if made == [] then record else RecordAfter(Rewritten(record, key, made[0]), key, made[1..])
  }

  /** An enrolment is answered with the proof of the new record, or of a place on the waiting list. */
  ghost predicate Answered(m: Made) {
    m.call.op.Enroll? ==>
      var key := m.call.op.key;
      m.reply.proof == Some(if Joins(m, key.queue) then Proof(m.call.at, Zero, None)
                            else Proof(m.call.at, Sha256(key.identity, key.queue, m.call.at), m.call.op.expiresAt))
  }

  lemma {:induction false} StepRewrites(s: State, op: Op, now: nat, key: Key)
    requires Step(s, op, now).Ok?
    ensures var r := Step(s, op, now).value; var m := Made(Call(op, now), s, r);
      RecordOf(r.state, key) == Rewritten(RecordOf(s, key), key, m) && Answered(m)
  {
    match op
    case Promote(queue, count) =>
      PromoteTakesHead(s, queue, Taken(s, queue, count), now);
      var t := PromoteMany(s, queue, Taken(s, queue, count), now).value;
      assert PromotedAt(s, t, queue, Waitlist(s, queue)[..Taken(s, queue, count)], now, key);
    case _ =>
  }

  /**
    * After any run the record of a key is what the calls about that key made of it: each enrolment and each promotion
    * starts it afresh, an enrolment counts the ones since the last promotion, and no call about another key matters.
    */
  lemma {:induction false} RecordHistory(calls: seq<Call>, key: Key)
    ensures RecordOf(Run(Empty, calls), key) == RecordAfter(None, key, Trace(Empty, calls))
    ensures forall m :: m in Trace(Empty, calls) ==> Answered(m)
  {
    RunRewrites(Empty, calls, key);
  }

  lemma {:induction false} RunRewrites(s: State, calls: seq<Call>, key: Key)
    ensures RecordOf(Run(s, calls), key) == RecordAfter(RecordOf(s, key), key, Trace(s, calls))
    ensures forall m :: m in Trace(s, calls) ==> Answered(m)
    decreases |calls|
  {
    if calls != [] {
      var r := Step(s, calls[0].op, calls[0].at);
      if r.Ok? {
        StepRewrites(s, calls[0].op, calls[0].at, key);
        RunRewrites(r.value.state, calls[1..], key);
      } else {
        RunRewrites(s, calls[1..], key);
      }
    }
  }
}
