/**
  * Reservation of an account's sequence numbers by concurrent callers, one transition for each stretch of code between
  * awaits. Everything is kept by account, so this is the state of one account.
  */
module Sequence {
  import opened Common

  /**
    * A request for the account. Its `then` callback stores the sequence, its `finally` callback forgets the request;
    * callers waiting for it resume only after both.
    */
  datatype Request = InFlight | Fulfilled(sequence: int) | Rejected | Settled(result: Option<int>)

  /** A caller that is reserving: waiting for a request, about to resume with a cached sequence, or finished. */
  datatype Caller = Waiting(request: nat) | Ready | Reserved(sequence: int) | Failed

  datatype Reservation = Reservation(sequence: int, caller: nat)

  datatype State = State(
    cache: Option<int>, fetch: Option<nat>, requests: seq<Request>, callers: seq<Caller>, log: seq<Reservation>)

  const Initial: State := State(None, None, [], [], [])

  datatype Action =
    | Begin
    | Respond(request: nat, sequence: int)
    | Fail(request: nat)
    | Finish(request: nat)
    | Resume(caller: nat)
    | Refresh

  /** A new request, remembered so that later callers share it. */
  function Ask(s: State): State {
    s.(requests := s.requests + [InFlight], fetch := Some(|s.requests|))
  }

  /** The caller reads the cached sequence and leaves the next one behind. */
  function Reserve(s: State, caller: nat): State
    requires caller < |s.callers|
  {
    match s.cache
    case Some(n) =>
      s.(callers := s.callers[caller := Reserved(n)], log := s.log + [Reservation(n, caller)], cache := Some(n + 1))
    case None => s.(callers := s.callers[caller := Failed])
  }

  function GiveUp(s: State, caller: nat): State
    requires caller < |s.callers|
  {
    s.(callers := s.callers[caller := Failed])
  }

  function DoBegin(s: State): State {
    if s.cache.Some? then s.(callers := s.callers + [Ready])
    else if s.fetch.Some? then s.(callers := s.callers + [Waiting(s.fetch.value)])
    else Ask(s).(callers := s.callers + [Waiting(|s.requests|)])
  }

  function DoResume(s: State, c: nat): State
    requires c < |s.callers|
  {
    match s.callers[c]
    case Ready => Reserve(s, c)
    case Waiting(i) =>
      if i >= |s.requests| then s
      else (match s.requests[i]
        case Settled(Some(_)) => Reserve(s, c)
        case Settled(None) => GiveUp(s, c)
        case _ => s)
    case _ => s
  }

  /** An action that is not possible in a state leaves it alone. */
  function Step(s: State, a: Action): State {
    match a
    case Begin => DoBegin(s)
    case Respond(i, n) =>
      if i >= |s.requests| || s.requests[i] != InFlight then s
      else s.(requests := s.requests[i := Fulfilled(n)], cache := Some(n))
    case Fail(i) =>
      if i >= |s.requests| || s.requests[i] != InFlight then s else s.(requests := s.requests[i := Rejected])
    case Finish(i) =>
      if i >= |s.requests| then s
      else (match s.requests[i]
        case Fulfilled(n) => s.(requests := s.requests[i := Settled(Some(n))], fetch := None)
        case Rejected => s.(requests := s.requests[i := Settled(None)], fetch := None)
        case _ => s)
    case Resume(c) => if c >= |s.callers| then s else DoResume(s, c)
    case Refresh => Ask(s.(cache := None, fetch := None))
  }

  function Run(s: State, actions: seq<Action>): State
    decreases |actions|
  {
    if actions == [] then s else Run(Step(s, actions[0]), actions[1..])
  }
}

/** Without forced refreshes every interleaving hands out distinct, consecutive sequence numbers. */
module SequenceProofs {
  import opened Common
  import opened Sequence

  predicate IsOpen(r: Request) {
    !r.Settled?
  }

  /** The sequence a request has delivered. */
  function Delivered(r: Request): Option<int> {
    match r
    case Fulfilled(n) => Some(n)
    case Settled(result) => result
    case _ => None
  }

  /** The request not yet finished, if any, is the remembered one; with a sequence cached it has delivered. */
  ghost predicate RequestsInv(s: State) {
    && (forall i :: 0 <= i < |s.requests| && IsOpen(s.requests[i]) ==> s.fetch == Some(i))
    && (s.fetch.Some? ==> s.fetch.value < |s.requests| && IsOpen(s.requests[s.fetch.value]))
    && (s.cache.Some? && s.fetch.Some? ==> s.requests[s.fetch.value].Fulfilled?)
  }

  predicate CallerFits(s: State, c: nat, caller: Caller) {
    match caller
    case Waiting(i) => i < |s.requests|
    case Ready => s.cache.Some?
    case Reserved(n) => Reservation(n, c) in s.log
    case Failed => true
  }

  ghost predicate CallersInv(s: State) {
    && (forall c :: 0 <= c < |s.callers| ==> CallerFits(s, c, s.callers[c]))
    && (forall j :: 0 <= j < |s.log| ==>
          s.log[j].caller < |s.callers| && s.callers[s.log[j].caller] == Reserved(s.log[j].sequence))
  }

  /** The numbers handed out are `first`, `first + 1`, and so on. */
  predicate CountsFrom(log: seq<Reservation>, first: int) {
    forall j :: 0 <= j < |log| ==> log[j].sequence == first + j
  }

  /** The cache stands where the delivered sequence and the reservations since have brought it. */
  ghost predicate CacheInv(s: State) {
    && (forall i :: 0 <= i < |s.requests| && Delivered(s.requests[i]).Some? ==>
          var first := Delivered(s.requests[i]).value;
          s.cache == Some(first + |s.log|) && CountsFrom(s.log, first))
    && (s.cache.Some? ==> exists i :: 0 <= i < |s.requests| && Delivered(s.requests[i]).Some?)
    && (s.cache.None? ==> s.log == [])
  }

  ghost predicate Inv(s: State) {
    RequestsInv(s) && CallersInv(s) && CacheInv(s)
  }

  /** A request can deliver only once, and its place in the list stays. */
  lemma {:induction false} DeliveryKept(s: State, t: State)
    requires CacheInv(s) && t.cache.Some? == s.cache.Some? && |s.requests| <= |t.requests|
    requires forall i :: 0 <= i < |s.requests| ==> Delivered(t.requests[i]) == Delivered(s.requests[i])
    ensures t.cache.Some? ==> exists i :: 0 <= i < |t.requests| && Delivered(t.requests[i]).Some?
  {
    if t.cache.Some? {
      var i :| 0 <= i < |s.requests| && Delivered(s.requests[i]).Some?;
      assert Delivered(t.requests[i]).Some?;
    }
  }

  lemma {:induction false} BeginInv(s: State)
    requires Inv(s)
    ensures Inv(DoBegin(s))
  {
    DeliveryKept(s, DoBegin(s));
  }

  lemma {:induction false} RespondInv(s: State, i: nat, n: int)
    requires Inv(s) && i < |s.requests| && s.requests[i] == InFlight
    ensures Inv(Step(s, Respond(i, n)))
  {
    var t := Step(s, Respond(i, n));
    assert s.cache.None?;
    assert Delivered(t.requests[i]) == Some(n);
  }

  lemma {:induction false} SettleInv(s: State, a: Action)
    requires Inv(s) && (a.Fail? || a.Finish?)
    ensures Inv(Step(s, a))
  {
    var t := Step(s, a);
    assert forall j :: 0 <= j < |s.requests| ==> Delivered(t.requests[j]) == Delivered(s.requests[j]);
    DeliveryKept(s, t);
  }

  lemma {:induction false} ReserveInv(s: State, c: nat)
    requires Inv(s) && c < |s.callers| && s.cache.Some? && (s.callers[c].Ready? || s.callers[c].Waiting?)
    ensures Inv(Reserve(s, c))
  {
    var t := Reserve(s, c);
    DeliveryKept(s, t);
    assert t.log[|s.log|] == Reservation(s.cache.value, c);
    forall j | 0 <= j < |s.log| ensures s.log[j].caller != c && t.log[j] == s.log[j] {}
    forall d | 0 <= d < |t.callers| ensures CallerFits(t, d, t.callers[d]) {
      if d != c { assert CallerFits(s, d, s.callers[d]); }
    }
  }

  lemma {:induction false} GiveUpInv(s: State, c: nat)
    requires Inv(s) && c < |s.callers| && s.callers[c].Waiting?
    ensures Inv(GiveUp(s, c))
  {
    DeliveryKept(s, GiveUp(s, c));
    forall j | 0 <= j < |s.log| ensures s.log[j].caller != c {}
    forall d | 0 <= d < |s.callers| ensures CallerFits(GiveUp(s, c), d, GiveUp(s, c).callers[d]) {
      assert CallerFits(s, d, s.callers[d]);
    }
  }

  lemma {:induction false} ResumeInv(s: State, c: nat)
    requires Inv(s) && c < |s.callers|
    ensures Inv(DoResume(s, c))
  {
    assert CallerFits(s, c, s.callers[c]);
    match s.callers[c]
    case Ready => ReserveInv(s, c);
    case Waiting(i) =>
      match s.requests[i] {
        case Settled(Some(n)) =>
          assert Delivered(s.requests[i]).Some?;
          ReserveInv(s, c);
        case Settled(None) => GiveUpInv(s, c);
        case _ =>
      }
    case _ =>
  }

  lemma {:induction false} StepInv(s: State, a: Action)
    requires Inv(s) && !a.Refresh?
    ensures Inv(Step(s, a))
  {
    match a
    case Begin => BeginInv(s);
    case Respond(i, n) => if i < |s.requests| && s.requests[i] == InFlight { RespondInv(s, i, n); }
    case Fail(_) => SettleInv(s, a);
    case Finish(_) => SettleInv(s, a);
    case Resume(c) => if c < |s.callers| { ResumeInv(s, c); }
  }

  predicate NoRefresh(actions: seq<Action>) {
    forall i :: 0 <= i < |actions| ==> !actions[i].Refresh?
  }

  lemma {:induction false} RunInv(s: State, actions: seq<Action>)
    requires Inv(s) && NoRefresh(actions)
    ensures Inv(Run(s, actions))
    decreases |actions|
  {
    if actions != [] {
      StepInv(s, actions[0]);
      RunInv(Step(s, actions[0]), actions[1..]);
    }
  }

  /** The caller resumes next by taking a number: it found one cached, or its request has delivered. */
  predicate CanReserve(s: State, caller: Caller) {
    match caller
    case Ready => true
    case Waiting(i) => i < |s.requests| && s.requests[i].Settled? && s.requests[i].result.Some?
    case _ => false
  }

  /**
    * In every interleaving without a forced refresh: at most one request is in flight at any point; no caller
    * about to take a number finds the cache empty; no two callers hold the same number; and the numbers handed out
    * are, in order, those from the fetched sequence on, without a gap.
    */
  lemma {:induction false} ReservationsAreConsecutive(actions: seq<Action>)
    requires NoRefresh(actions)
    ensures var s := Run(Initial, actions);
      && (forall i, j :: 0 <= i < j < |s.requests| ==> !(s.requests[i].InFlight? && s.requests[j].InFlight?))
      && (forall c :: 0 <= c < |s.callers| && CanReserve(s, s.callers[c]) ==> s.cache.Some?)
      && (forall c, d | 0 <= c < d < |s.callers| && s.callers[c].Reserved? && s.callers[d].Reserved? ::
            s.callers[c].sequence != s.callers[d].sequence)
      && (forall c :: 0 <= c < |s.callers| && s.callers[c].Reserved? ==> Reservation(s.callers[c].sequence, c) in s.log)
      && (s.log != [] ==>
            exists i :: 0 <= i < |s.requests| && Delivered(s.requests[i]).Some?
              && CountsFrom(s.log, Delivered(s.requests[i]).value))
  {
    RunInv(Initial, actions);
    var s := Run(Initial, actions);
    forall c | 0 <= c < |s.callers| ensures CallerFits(s, c, s.callers[c]) {}
    forall c, d | 0 <= c < d < |s.callers| && s.callers[c].Reserved? && s.callers[d].Reserved?
      ensures s.callers[c].sequence != s.callers[d].sequence
    {
      var i :| 0 <= i < |s.log| && s.log[i] == Reservation(s.callers[c].sequence, c);
      var j :| 0 <= j < |s.log| && s.log[j] == Reservation(s.callers[d].sequence, d);
      var k :| 0 <= k < |s.requests| && Delivered(s.requests[k]).Some?;
      assert i != j;
    }
  }

  // ---------- what becomes of each caller ----------

  predicate IsDone(caller: Caller) {
    caller.Reserved? || caller.Failed?
  }

  /** How a caller comes out of what it was waiting for. */
  ghost predicate Outcome(was: Caller, t: State, now: Caller) {
    match was
    case Waiting(i) =>
      || now == was
      || (i < |t.requests| && t.requests[i].Settled? && IsDone(now) && (now.Failed? <==> t.requests[i].result.None?))
    case Ready => now == Ready || now.Reserved?
    case _ => now == was
  }

  /** Requests stay, and a settled one never changes again. */
  predicate RequestsKept(s: State, t: State) {
    |s.requests| <= |t.requests|
    && forall i :: 0 <= i < |s.requests| && s.requests[i].Settled? ==> t.requests[i] == s.requests[i]
  }

  lemma {:induction false} StepOutcome(s: State, a: Action, c: nat)
    requires Inv(s) && !a.Refresh? && c < |s.callers|
    ensures var t := Step(s, a);
      RequestsKept(s, t) && c < |t.callers| && Outcome(s.callers[c], t, t.callers[c])
      && (a == Resume(c) ==>
            (IsDone(t.callers[c]) <==>
               match s.callers[c]
               case Waiting(i) => s.requests[i].Settled?
               case _ => true))
  {
    assert CallerFits(s, c, s.callers[c]);
    if a.Resume? && a.caller == c && s.callers[c].Waiting? && s.requests[s.callers[c].request].Settled? {
      if s.requests[s.callers[c].request].result.Some? {
        assert Delivered(s.requests[s.callers[c].request]).Some?;
      }
    }
  }

  lemma OutcomeThen(was: Caller, t: State, mid: Caller, u: State, now: Caller)
    requires Outcome(was, t, mid) && Outcome(mid, u, now) && RequestsKept(t, u)
    ensures Outcome(was, u, now)
  {
  }

  lemma {:induction false} RunOutcome(s: State, actions: seq<Action>, c: nat)
    requires Inv(s) && NoRefresh(actions) && c < |s.callers|
    ensures var t := Run(s, actions);
      RequestsKept(s, t) && c < |t.callers| && Outcome(s.callers[c], t, t.callers[c])
    decreases |actions|
  {
    if actions != [] {
      var t := Step(s, actions[0]);
      StepInv(s, actions[0]);
      StepOutcome(s, actions[0], c);
      RunOutcome(t, actions[1..], c);
      OutcomeThen(s.callers[c], t, t.callers[c], Run(s, actions), Run(s, actions).callers[c]);
    }
  }

  /**
    * In every interleaving without a forced refresh, a caller that waits for a request is done only when that has
    * settled, and then it has failed exactly when the request has; one that found a number cached always gets one; a
    * finished one stays as it is; and a waiting caller whose request has settled is done by its next resumption.
    */
  lemma {:induction false} CallersGetWhatTheyWaitFor(before: seq<Action>, later: seq<Action>, c: nat)
    requires NoRefresh(before) && NoRefresh(later) && c < |Run(Initial, before).callers|
    ensures var s := Run(Initial, before); var t := Run(s, later);
      c < |t.callers| && Outcome(s.callers[c], t, t.callers[c])
    ensures var s := Run(Initial, before);
      c < |Step(s, Resume(c)).callers|
      && (IsDone(Step(s, Resume(c)).callers[c]) <==>
            match s.callers[c]
            case Waiting(i) => i < |s.requests| && s.requests[i].Settled?
            case _ => true)
  {
    var s := Run(Initial, before);
    RunInv(Initial, before);
    RunOutcome(s, later, c);
    StepOutcome(s, Resume(c), c);
    assert CallerFits(s, c, s.callers[c]);
  }

  // ---------- with forced refreshes ----------

  /** An answer that arrives, in time or late, is above every number already handed out. */
  predicate NewAnswer(s: State, a: Action) {
    a.Respond? && a.request < |s.requests| && s.requests[a.request] == InFlight ==>
      forall j :: 0 <= j < |s.log| ==> s.log[j].sequence < a.sequence
  }

  predicate AllNew(s: State, actions: seq<Action>)
    decreases |actions|
  {
    actions == [] || (NewAnswer(s, actions[0]) && AllNew(Step(s, actions[0]), actions[1..]))
  }

  /** Callers come and go; nothing is heard from the network. */
  predicate OnlyReservations(actions: seq<Action>) {
    forall i :: 0 <= i < |actions| ==> actions[i].Begin? || actions[i].Resume?
  }

  /** From entry `from` on, the log hands out a number a second time. */
  predicate Repeats(log: seq<Reservation>, from: nat) {
    exists i, j :: 0 <= i < j < |log| && from <= j && log[i].sequence == log[j].sequence
  }

  /** Some callers, and nothing else, are enough to hand out a number again. */
  ghost predicate CanRepeat(s: State) {
    exists actions :: OnlyReservations(actions) && Repeats(Run(s, actions).log, |s.log|)
  }

  /** What reservations alone do: the log counts on from the cached sequence. */
  lemma {:induction false} ReservationsCount(s: State, actions: seq<Action>)
    requires OnlyReservations(actions)
    ensures var t := Run(s, actions);
      && |s.log| <= |t.log| && t.log[..|s.log|] == s.log
      && (s.cache.None? ==> t.cache.None? && t.log == s.log)
      && (s.cache.Some? ==>
            && t.cache == Some(s.cache.value + (|t.log| - |s.log|))
            && forall j :: |s.log| <= j < |t.log| ==> t.log[j].sequence == s.cache.value + (j - |s.log|))
    decreases |actions|
  {
    if actions != [] {
      var u, rest := Step(s, actions[0]), actions[1..];
      assert forall i :: 0 <= i < |rest| ==> rest[i] == actions[i + 1];
      ReservationsCount(u, rest);
      var t := Run(u, rest);
      assert |u.log| <= |s.log| + 1 && u.log[..|s.log|] == s.log;
      assert t.log[..|s.log|] == t.log[..|u.log|][..|s.log|];
      if |u.log| > |s.log| {
        assert t.log[|s.log|] == t.log[..|u.log|][|s.log|] == u.log[|s.log|];
      }
    }
  }

  /** One caller after another takes the next number. */
  lemma {:induction false} InARow(s: State, m: nat) returns (actions: seq<Action>)
    requires s.cache.Some?
    ensures OnlyReservations(actions) && |Run(s, actions).log| == |s.log| + m
    decreases m
  {
    if m == 0 {
      actions := [];
    } else {
      var u := Step(s, Begin);
      var t := Step(u, Resume(|s.callers|));
      var rest := InARow(t, m - 1);
      actions := [Begin, Resume(|s.callers|)] + rest;
      assert actions[1..] == [Resume(|s.callers|)] + rest && actions[1..][1..] == rest;
    }
  }

  /** Numbers can repeat exactly when the cache does not stand above everything handed out. */
  lemma {:induction false} CanRepeatIff(s: State)
    ensures CanRepeat(s) <==> s.cache.Some? && exists i :: 0 <= i < |s.log| && s.log[i].sequence >= s.cache.value
  {
    if CanRepeat(s) {
      var actions :| OnlyReservations(actions) && Repeats(Run(s, actions).log, |s.log|);
      ReservationsCount(s, actions);
      var log := Run(s, actions).log;
      var i, j :| 0 <= i < j < |log| && |s.log| <= j && log[i].sequence == log[j].sequence;
      assert i < |s.log| ==> log[i] == log[..|s.log|][i];
    }
    if s.cache.Some? && exists i :: 0 <= i < |s.log| && s.log[i].sequence >= s.cache.value {
      var i :| 0 <= i < |s.log| && s.log[i].sequence >= s.cache.value;
      var k := s.log[i].sequence - s.cache.value;
      var actions := InARow(s, k + 1);
      ReservationsCount(s, actions);
      var log := Run(s, actions).log;
      assert log[i] == log[..|s.log|][i] && log[|s.log| + k].sequence == s.log[i].sequence;
    }
  }

  predicate Increasing(log: seq<Reservation>) {
    forall i, j :: 0 <= i < j < |log| ==> log[i].sequence < log[j].sequence
  }

  /** The numbers increase and the cache stands above them. */
  predicate Ahead(s: State) {
    && Increasing(s.log)
    && (s.cache.Some? ==> forall j :: 0 <= j < |s.log| ==> s.log[j].sequence < s.cache.value)
  }

  lemma {:induction false} AheadStep(s: State, a: Action)
    requires Ahead(s) && NewAnswer(s, a)
    ensures Ahead(Step(s, a))
  {
  }

  /** No point of the run leaves a state from which callers alone can repeat a number. */
  ghost predicate NeverStale(s: State, actions: seq<Action>) {
    forall k | 0 <= k <= |actions| :: !CanRepeat(Run(s, actions[..k]))
  }

  lemma {:induction false} NewKeepsAhead(s: State, actions: seq<Action>, k: nat)
    requires Ahead(s) && AllNew(s, actions) && k <= |actions|
    ensures Ahead(Run(s, actions[..k]))
    decreases |actions|
  {
    if k > 0 {
      AheadStep(s, actions[0]);
      assert actions[..k][1..] == actions[1..][..k - 1];
      NewKeepsAhead(Step(s, actions[0]), actions[1..], k - 1);
    }
  }

  lemma {:induction false} StaleAnswerShows(s: State, actions: seq<Action>)
    requires NeverStale(s, actions)
    ensures AllNew(s, actions)
    decreases |actions|
  {
    if actions != [] {
      var a, t, rest := actions[0], Step(s, actions[0]), actions[1..];
      forall k | 0 <= k <= |rest| ensures !CanRepeat(Run(t, rest[..k])) {
        assert actions[..k + 1][1..] == rest[..k] && actions[..k + 1][0] == a;
        assert !CanRepeat(Run(s, actions[..k + 1]));
      }
      StaleAnswerShows(t, rest);
      assert rest[..0] == [] && !CanRepeat(Run(t, rest[..0]));
      CanRepeatIff(t);
    }
  }

  /**
    * With forced refreshes allowed, at any time and in any number: no point of a run lets callers repeat a number
    * exactly when every answer was above all numbers handed out before it; and then the numbers increase throughout.
    */
  lemma {:induction false} DistinctIffAnswersNew(actions: seq<Action>)
    ensures NeverStale(Initial, actions) <==> AllNew(Initial, actions)
    ensures AllNew(Initial, actions) ==> Increasing(Run(Initial, actions).log)
  {
    if AllNew(Initial, actions) {
      forall k | 0 <= k <= |actions| ensures !CanRepeat(Run(Initial, actions[..k])) {
        NewKeepsAhead(Initial, actions, k);
        CanRepeatIff(Run(Initial, actions[..k]));
      }
      assert actions[..|actions|] == actions;
      NewKeepsAhead(Initial, actions, |actions|);
    }
    if NeverStale(Initial, actions) { StaleAnswerShows(Initial, actions); }
  }

  /** A forced refresh that fetches the same sequence again makes two callers hold the same number. */
  lemma {:induction false} RefreshCanRepeatNumbers(first: int)
    ensures exists actions :: var s := Run(Initial, actions); s.callers == [Reserved(first), Reserved(first)]
  {
    var s1 := Step(Initial, Begin);
    var s2 := Step(s1, Respond(0, first));
    var s3 := Step(s2, Finish(0));
    var s4 := Step(s3, Resume(0));
    assert s4 == State(Some(first + 1), None, [Settled(Some(first))], [Reserved(first)], [Reservation(first, 0)]);
    var s5 := Step(s4, Refresh);
    var s6 := Step(s5, Respond(1, first));
    var s7 := Step(s6, Begin);
    assert s7.callers == [Reserved(first), Ready] && s7.cache == Some(first);
    var s8 := Step(s7, Resume(1));
    assert s8.callers == [Reserved(first), Reserved(first)];
    var a1: seq<Action> := [] + [Begin];
    var a2 := a1 + [Respond(0, first)];
    var a3 := a2 + [Finish(0)];
    var a4 := a3 + [Resume(0)];
    var a5 := a4 + [Refresh];
    var a6 := a5 + [Respond(1, first)];
    var a7 := a6 + [Begin];
    RunSnoc([], Begin, s1);
    RunSnoc(a1, Respond(0, first), s2);
    RunSnoc(a2, Finish(0), s3);
    RunSnoc(a3, Resume(0), s4);
    RunSnoc(a4, Refresh, s5);
    RunSnoc(a5, Respond(1, first), s6);
    RunSnoc(a6, Begin, s7);
    RunSnoc(a7, Resume(1), s8);
  }

  lemma {:induction false} RunSnoc(actions: seq<Action>, a: Action, t: State)
    requires Step(Run(Initial, actions), a) == t
    ensures Run(Initial, actions + [a]) == t
  {
    RunAppend(Initial, actions, a);
  }

  lemma {:induction false} RunAppend(s: State, actions: seq<Action>, a: Action)
    ensures Run(s, actions + [a]) == Step(Run(s, actions), a)
    decreases |actions|
  {
    if actions == [] {
      assert ([a])[1..] == [] && actions + [a] == [a];
    } else {
      assert (actions + [a])[1..] == actions[1..] + [a];
      RunAppend(Step(s, actions[0]), actions[1..], a);
    }
  }
}

/** The client's two maps, updated in the stretches of code between awaits. */
module SequenceClient {
  import opened Common
  import opened Sequence

  type PublicKey = string

  class SequenceClient {
    var sequenceCache: map<PublicKey, int>
    var sequenceFetches: map<PublicKey, nat>
    // What the run-time keeps for each account: its promises and suspended callers.
    var requests: map<PublicKey, seq<Request>>
    var callers: map<PublicKey, seq<Caller>>
    ghost var log: map<PublicKey, seq<Reservation>>

    /** The state of one account. */
    ghost function View(key: PublicKey): State
      reads this
    {
      State(
        if key in sequenceCache then Some(sequenceCache[key]) else None,
        if key in sequenceFetches then Some(sequenceFetches[key]) else None,
        if key in requests then requests[key] else [],
        if key in callers then callers[key] else [],
        if key in log then log[key] else [])
    }

    constructor ()
      ensures forall key :: View(key) == Initial
    {
      sequenceCache, sequenceFetches, requests, callers, log := map[], map[], map[], map[], map[];
    }

    /** The account takes the step, and no other account is touched. */
    twostate predicate Took(key: PublicKey, a: Action)
      reads this
    {
      View(key) == Step(old(View(key)), a) && forall k :: k != key ==> View(k) == old(View(k))
    }

    method AddCaller(key: PublicKey, caller: Caller)
      modifies this`callers
      ensures View(key) == old(View(key)).(callers := old(View(key)).callers + [caller])
      ensures forall k :: k != key ==> View(k) == old(View(k))
    {
      var all := if key in callers then callers[key] else [];
      callers := callers[key := all + [caller]];
    }

    /** Starts a request for the account and remembers it. */
    method StartFetch(key: PublicKey)
      modifies this`requests, this`sequenceFetches
      ensures View(key) == Ask(old(View(key)))
      ensures forall k :: k != key ==> View(k) == old(View(k))
    {
      var all := if key in requests then requests[key] else [];
      sequenceFetches := sequenceFetches[key := |all|];
      requests := requests[key := all + [InFlight]];
    }

    /** From the call of `reserveSourceAccount` to its await. */
    method BeginReserve(key: PublicKey)
      modifies this
      ensures Took(key, Begin)
    {
      if key in sequenceCache {
        AddCaller(key, Ready);
        return;
      }
      if key !in sequenceFetches { StartFetch(key); }
      AddCaller(key, Waiting(sequenceFetches[key]));
    }

    /** The `then` callback. */
    method OnAccount(key: PublicKey, request: nat, sequence: int)
      requires key in requests && request < |requests[key]| && requests[key][request] == InFlight
      modifies this
      ensures Took(key, Respond(request, sequence))
    {
      requests := requests[key := requests[key][request := Fulfilled(sequence)]];
      sequenceCache := sequenceCache[key := sequence];
    }

    method OnError(key: PublicKey, request: nat)
      requires key in requests && request < |requests[key]| && requests[key][request] == InFlight
      modifies this
      ensures Took(key, Fail(request))
    {
      requests := requests[key := requests[key][request := Rejected]];
    }

    /** The `finally` callback: it forgets whatever request the account has, not just its own. */
    method OnFinally(key: PublicKey, request: nat)
      requires key in requests && request < |requests[key]|
      requires requests[key][request].Fulfilled? || requests[key][request].Rejected?
      modifies this
      ensures Took(key, Finish(request))
    {
      var result := match requests[key][request] case Fulfilled(n) => Some(n) case _ => None;
      requests := requests[key := requests[key][request := Settled(result)]];
      sequenceFetches := sequenceFetches - {key};
    }

    /** The rest of `reserveSourceAccount` after its await. */
    method ResumeReserve(key: PublicKey, caller: nat)
      requires key in callers && caller < |callers[key]|
      modifies this
      ensures Took(key, Resume(caller))
    {
      match callers[key][caller] {
        case Ready => ReadAndIncrement(key, caller);
        case Waiting(request) =>
          if key !in requests || request >= |requests[key]| { return; }
          match requests[key][request] {
            case Settled(Some(_)) => ReadAndIncrement(key, caller);
            case Settled(None) => callers := callers[key := callers[key][caller := Failed]];
            case _ =>
          }
        case _ =>
      }
    }

    method ReadAndIncrement(key: PublicKey, caller: nat)
      requires key in callers && caller < |callers[key]|
      modifies this
      ensures View(key) == Reserve(old(View(key)), caller)
      ensures forall k :: k != key ==> View(k) == old(View(k))
    {
      if key !in sequenceCache {
        callers := callers[key := callers[key][caller := Failed]];
        return;
      }
      var sequence := sequenceCache[key];
      sequenceCache := sequenceCache[key := sequence + 1];
      callers := callers[key := callers[key][caller := Reserved(sequence)]];
      log := log[key := (if key in log then log[key] else []) + [Reservation(sequence, caller)]];
    }

    method ForceRefresh(key: PublicKey)
      modifies this
      ensures Took(key, Refresh)
    {
      sequenceCache := sequenceCache - {key};
      sequenceFetches := sequenceFetches - {key};
      StartFetch(key);
    }
  }
}
