/** Where the queue's cursor stands, and exactly when the published events tell it. */
module QueueCursor {
  import opened Common
  import opened Queue
  import opened QueueProofs

  /** The position an event says the scan has reached. */
  function ScannedId(e: Event): nat {
    match e
    case AdvancedEvent(id, _, _) => id
    case SkippedEvent(id, _, _) => id
    case _ => 0
  }

  /** The furthest position that an Advanced or Skipped event names. */
  function Furthest(events: seq<Event>): (n: nat)
    ensures forall e :: e in events ==> ScannedId(e) <= n
    ensures n > 0 ==> exists e :: e in events && ScannedId(e) == n
  {
    if events == [] then 0
    else
      var rest, first := Furthest(events[1..]), ScannedId(events[0]);
      assert events[0] in events;
      if first > rest then first else rest
  }

  lemma FurthestOfBoth(a: seq<Event>, b: seq<Event>)
    ensures Furthest(a + b) == Max(Furthest(a), Furthest(b))
  {
    var n := Furthest(a + b);
    assert forall e :: e in a || e in b ==> e in a + b;
  }

  /** The events up to the closing of the queue. */
  function UntilClosed(events: seq<Event>): seq<Event> {
    if events == [] || events[0].QueueClosedEvent? then [] else [events[0]] + UntilClosed(events[1..])
  }

  lemma {:induction false} UntilClosedThen(a: seq<Event>, b: seq<Event>)
    requires forall e :: e in a ==> !e.QueueClosedEvent?
    ensures UntilClosed(a + b) == a + UntilClosed(b)
    decreases |a|
  {
    if a == [] {
      assert a + b == b;
    } else {
      assert (a + b)[1..] == a[1..] + b && a[0] in a;
      UntilClosedThen(a[1..], b);
    }
  }

  /** The positions while advancing was last possible, rebuilt from the events alone. */
  function OpenPositions(config: Config, events: seq<Event>): map<nat, Position> {
    Replay(Recorded(Initial(config)), UntilClosed(events)).positions
  }

  /** Beyond `low`, the cursor has passed expired positions only. */
  ghost predicate OnlyExpiredPassed(p: map<nat, Position>, low: nat, idx: nat) {
    low <= idx && forall id :: low < id <= idx ==> id in p && p[id].status == Expired
  }

  // ---------- what one call tells ----------

  lemma ToldAtMost(skipped: seq<nat>, advanced: seq<nat>, admin: Address, now: nat, n: nat)
    requires forall id :: id in skipped || id in advanced ==> id <= n
    ensures Furthest(SkippedEvents(skipped, admin, now) + AdvancedEvents(advanced, admin, now)) <= n
  {
    var skips, advances := SkippedEvents(skipped, admin, now), AdvancedEvents(advanced, admin, now);
    forall e | e in skips + advances ensures ScannedId(e) <= n {
      if e in skips {
        var i :| 0 <= i < |skips| && skips[i] == e;
        assert skipped[i] in skipped;
      } else {
        var i :| 0 <= i < |advances| && advances[i] == e;
        assert advanced[i] in advanced;
      }
    }
  }

  lemma {:induction false} ScanTells(p: map<nat, Position>, idx: nat, total: nat, batch: nat, admin: Address, now: nat)
    requires PositionsOk(p, total + 1) && CursorOk(p, idx) && idx <= total
    ensures var r := ScanFrom(p, idx, total, batch, now);
      var events := SkippedEvents(r.skipped, admin, now) + AdvancedEvents(r.advanced, admin, now);
      && idx <= r.idx && Furthest(events) <= r.idx
      && forall id :: idx < id <= r.idx && id > Furthest(events) ==>
           id in r.positions && r.positions[id].status == Expired
  {
    var r := ScanFrom(p, idx, total, batch, now);
    var skips, advances := SkippedEvents(r.skipped, admin, now), AdvancedEvents(r.advanced, admin, now);
    ScanServes(p, idx, total, batch, now);
    ToldAtMost(r.skipped, r.advanced, admin, now, r.idx);
    forall id | id in r.skipped || id in r.advanced ensures id <= Furthest(skips + advances) {
      Told([], r.skipped, [], r.advanced, admin, now, id);
      assert [] + r.skipped == r.skipped && [] + r.advanced == r.advanced;
    }
  }

  lemma {:induction false} OthersTellNothing(s: State, op: Op, now: nat)
    requires !op.Advance? && Step(s, op, now).Ok?
    ensures var r := Step(s, op, now).value;
      r.state.idx == s.idx && forall e :: e in r.events ==> ScannedId(e) == 0 && (e.QueueClosedEvent? ==> op.Close?)
  {
  }

  lemma AdvanceNeverCloses(s: State, caller: Address, batchSize: nat, now: nat)
    requires DoAdvance(s, caller, batchSize, now).Ok?
    ensures forall e :: e in DoAdvance(s, caller, batchSize, now).value.events ==> !e.QueueClosedEvent?
  {
  }

  lemma {:induction false} ScanPasses(
    p: map<nat, Position>, idx: nat, total: nat, batch: nat, admin: Address, now: nat, low: nat)
    requires PositionsOk(p, total + 1) && CursorOk(p, idx) && idx <= total && OnlyExpiredPassed(p, low, idx)
    ensures var r := ScanFrom(p, idx, total, batch, now);
      var events := SkippedEvents(r.skipped, admin, now) + AdvancedEvents(r.advanced, admin, now);
      OnlyExpiredPassed(r.positions, Max(low, Furthest(events)), r.idx)
  {
    ScanTells(p, idx, total, batch, admin, now);
    ScanKeepsPlaces(p, idx, total, batch, now);
    var r := ScanFrom(p, idx, total, batch, now);
    forall id | low < id <= idx ensures id in r.positions && r.positions[id].status == Expired {
      assert SamePlace(p[id], r.positions[id]);
    }
  }

  lemma {:induction false} AdvancePasses(s: State, caller: Address, batchSize: nat, now: nat, low: nat)
    requires Inv(s) && DoAdvance(s, caller, batchSize, now).Ok? && OnlyExpiredPassed(s.positions, low, s.idx)
    ensures var r := DoAdvance(s, caller, batchSize, now).value;
      OnlyExpiredPassed(r.state.positions, Max(low, Furthest(r.events)), r.state.idx)
  {
    ScanPasses(s.positions, s.idx, s.nextId - 1, batchSize, caller, now, low);
  }

  lemma {:induction false} OthersPass(s: State, op: Op, now: nat, low: nat)
    requires Inv(s) && !op.Advance? && Step(s, op, now).Ok? && OnlyExpiredPassed(s.positions, low, s.idx)
    ensures var r := Step(s, op, now).value;
      Furthest(r.events) == 0 && OnlyExpiredPassed(r.state.positions, low, r.state.idx)
  {
    OthersTellNothing(s, op, now);
    StepInv(s, op, now);
    var t := Step(s, op, now).value.state;
    forall id | low < id <= t.idx ensures id in t.positions && t.positions[id].status == Expired {
      assert SamePlace(s.positions[id], t.positions[id]);
    }
  }

  lemma {:induction false} StepPasses(s: State, op: Op, now: nat, low: nat)
    requires Inv(s) && Step(s, op, now).Ok? && OnlyExpiredPassed(s.positions, low, s.idx)
    ensures var r := Step(s, op, now).value;
      Inv(r.state) && OnlyExpiredPassed(r.state.positions, Max(low, Furthest(r.events)), r.state.idx)
  {
    StepInv(s, op, now);
    if op.Advance? {
      AdvancePasses(s, op.caller, op.batchSize, now, low);
    } else {
      OthersPass(s, op, now, low);
    }
  }

  lemma {:induction false} RunPasses(s: State, calls: seq<Call>, low: nat)
    requires Inv(s) && OnlyExpiredPassed(s.positions, low, s.idx)
    ensures var r := Run(s, calls); OnlyExpiredPassed(r.state.positions, Max(low, Furthest(r.events)), r.state.idx)
    decreases |calls|
  {
    if calls != [] {
      var first := Step(s, calls[0].op, calls[0].at);
      if first.Panic? {
        RunPanicked(s, calls);
        RunPasses(s, calls[1..], low);
      } else {
        var r, rest := first.value, Run(first.value.state, calls[1..]);
        StepPasses(s, calls[0].op, calls[0].at, low);
        RunPasses(r.state, calls[1..], Max(low, Furthest(r.events)));
        RunHead(s, calls, if calls[0].op.Advance? then r.ids else []);
        FurthestOfBoth(r.events, rest.events);
      }
    }
  }

  // ---------- up to the closing of the queue, and after it ----------

  lemma {:induction false} RunThen(s: State, a: seq<Call>, b: seq<Call>)
    ensures var first := Run(s, a); var second := Run(first.state, b);
      Run(s, a + b).state == second.state && Run(s, a + b).events == first.events + second.events
    decreases |a|
  {
    if a == [] {
      assert a + b == b;
    } else {
      var all, head := a + b, Step(s, a[0].op, a[0].at);
      assert all[0] == a[0] && all[1..] == a[1..] + b;
      if head.Panic? {
        RunPanicked(s, a);
        RunPanicked(s, all);
        RunThen(s, a[1..], b);
      } else {
        var t, ids := head.value.state, if a[0].op.Advance? then head.value.ids else [];
        RunHead(s, a, ids);
        RunHead(s, all, ids);
        RunThen(t, a[1..], b);
        EventsThen(head.value.events, Run(t, a[1..]).events, Run(Run(t, a[1..]).state, b).events);
      }
    }
  }

  /** The calls before the queue is closed, and those from the closing on. */
  lemma {:induction false} SplitAtClosing(s: State, calls: seq<Call>) returns (before: seq<Call>, after: seq<Call>)
    ensures calls == before + after
    ensures UntilClosed(Run(s, calls).events) == Run(s, before).events
    ensures after != [] ==> after[0].op.Close? && Step(Run(s, before).state, after[0].op, after[0].at).Ok?
    decreases |calls|
  {
    if calls == [] {
      before, after := [], [];
    } else {
      var c := calls[0];
      var first := Step(s, c.op, c.at);
      if first.Ok? && c.op.Close? {
        before, after := [], calls;
        RunHead(s, calls, []);
        ClosingIsTold(first.value.events, Run(first.value.state, calls[1..]).events);
      } else if first.Panic? {
        before, after := SplitAtClosing(s, calls[1..]);
        before := [c] + before;
        assert before[1..] == calls[1..][..|before| - 1];
        RunPanicked(s, calls);
        RunPanicked(s, before);
      } else {
        var r, ids := first.value, if c.op.Advance? then first.value.ids else [];
        var rest;
        rest, after := SplitAtClosing(r.state, calls[1..]);
        before := [c] + rest;
        assert before[1..] == rest;
        RunHead(s, calls, ids);
        RunHead(s, before, ids);
        if c.op.Advance? {
          AdvanceNeverCloses(s, c.op.caller, c.op.batchSize, c.at);
        } else {
          OthersTellNothing(s, c.op, c.at);
        }
        UntilClosedThen(r.events, Run(r.state, calls[1..]).events);
      }
    }
  }

  lemma ClosingIsTold(a: seq<Event>, b: seq<Event>)
    requires a != [] && a[0].QueueClosedEvent?
    ensures UntilClosed(a + b) == []
  {
  }

  function WithCursor(s: State, idx: nat): State {
    s.(idx := idx)
  }

  /** Only `advance` looks at the cursor. */
  lemma {:induction false} OthersIgnoreCursor(s: State, op: Op, now: nat, k: nat)
    requires !op.Advance?
    ensures match Step(s, op, now)
            case Panic(_) => Step(WithCursor(s, k), op, now).Panic?
            case Ok(r) => Step(WithCursor(s, k), op, now) == Ok(r.(state := WithCursor(r.state, k)))
  {
  }

  /** Nothing moves the cursor of a closed queue, and nothing depends on it. */
  lemma {:induction false} ClosedIgnoresCursor(s: State, calls: seq<Call>, k: nat)
    requires s.config.status == Closed
    ensures var r, t := Run(s, calls), Run(WithCursor(s, k), calls);
      && t.events == r.events && t.state == WithCursor(r.state, k) && r.state.idx == s.idx && Furthest(r.events) == 0
      && r.state.config.status == Closed
    decreases |calls|
  {
    if calls != [] {
      var c := calls[0];
      var first, other := Step(s, c.op, c.at), Step(WithCursor(s, k), c.op, c.at);
      if !c.op.Advance? { OthersIgnoreCursor(s, c.op, c.at, k); }
      if first.Panic? {
        RunPanicked(s, calls);
        RunPanicked(WithCursor(s, k), calls);
        ClosedIgnoresCursor(s, calls[1..], k);
      } else {
        RunHead(s, calls, []);
        RunHead(WithCursor(s, k), calls, []);
        OthersTellNothing(s, c.op, c.at);
        ClosedStays(s, c.op, c.at);
        ClosedIgnoresCursor(first.value.state, calls[1..], k);
        FurthestOfBoth(first.value.events, Run(first.value.state, calls[1..]).events);
      }
    }
  }

  lemma ClosedStays(s: State, op: Op, now: nat)
    requires s.config.status == Closed && Step(s, op, now).Ok?
    ensures Step(s, op, now).value.state.config.status == Closed
  {
  }

  lemma {:induction false} AfterClosing(s: State, after: seq<Call>, k: nat)
    requires after != [] ==> after[0].op.Close? && Step(s, after[0].op, after[0].at).Ok?
    ensures var r, t := Run(s, after), Run(WithCursor(s, k), after);
      && t.events == r.events && t.state == WithCursor(r.state, k) && r.state.idx == s.idx && Furthest(r.events) == 0
      && (after != [] ==> r.state.config.status == Closed)
  {
    if after != [] {
      var c := after[0];
      var t := Step(s, c.op, c.at).value;
      OthersIgnoreCursor(s, c.op, c.at, k);
      RunHead(s, after, []);
      RunHead(WithCursor(s, k), after, []);
      ClosedIgnoresCursor(t.state, after[1..], k);
      FurthestOfBoth(t.events, Run(t.state, after[1..]).events);
    }
  }

  // ---------- the cursor is at the last event, or has silently passed expired positions ----------

  /**
    * After any run the cursor stands at the furthest position the events name, or beyond it with nothing but positions
    * between that had expired before the queue was closed. All of this can be read off the events.
    */
  lemma {:induction false} CursorBounds(config: Config, calls: seq<Call>)
    ensures var r := Run(Initial(config), calls);
      OnlyExpiredPassed(OpenPositions(config, r.events), Furthest(r.events), r.state.idx)
  {
    var s := Initial(config);
    var before, after := SplitAtClosing(s, calls);
    InitialInv(config);
    RunPasses(s, before, 0);
    EventsRebuildQueue(s, before);
    RunThen(s, before, after);
    AfterClosing(Run(s, before).state, after, 0);
    FurthestOfBoth(Run(s, before).events, Run(Run(s, before).state, after).events);
  }

  // ---------- a run with a smaller cursor ----------

  /** The part of a scan beyond a point after which it tells nothing. */
  lemma {:induction false} SilentBeyond(
    p: map<nat, Position>, idx: nat, total: nat, a: nat, b: nat, now: nat, admin: Address, c: nat)
    requires idx <= total && forall id :: 1 <= id <= total ==> id in p
    requires var r := ScanFrom(p, idx, total, a + b, now);
      Furthest(SkippedEvents(r.skipped, admin, now) + AdvancedEvents(r.advanced, admin, now)) <= c
    requires ScanFrom(p, idx, total, a, now).idx >= c
    ensures var r, t := ScanFrom(p, idx, total, a + b, now), ScanFrom(p, idx, total, a, now);
      t.positions == r.positions && t.advanced == r.advanced && t.skipped == r.skipped
  {
    var r, t := ScanFrom(p, idx, total, a + b, now), ScanFrom(p, idx, total, a, now);
    ScanSplits(p, idx, total, a, b, now);
    ScanServes(p, idx, total, a, now);
    var u := ScanFrom(t.positions, t.idx, total, b, now);
    ScanServes(t.positions, t.idx, total, b, now);
    if u.skipped != [] {
      assert u.skipped[0] in u.skipped;
      Told(t.skipped, u.skipped, t.advanced, u.advanced, admin, now, u.skipped[0]);
    }
    if u.advanced != [] {
      assert u.advanced[0] in u.advanced;
      Told(t.skipped, u.skipped, t.advanced, u.advanced, admin, now, u.advanced[0]);
    }
    assert u.positions == t.positions;
  }

  lemma Told(s1: seq<nat>, s2: seq<nat>, a1: seq<nat>, a2: seq<nat>, admin: Address, now: nat, id: nat)
    requires id in s2 || id in a2
    ensures Furthest(SkippedEvents(s1 + s2, admin, now) + AdvancedEvents(a1 + a2, admin, now)) >= id
  {
    var skips, advances := SkippedEvents(s1 + s2, admin, now), AdvancedEvents(a1 + a2, admin, now);
    if id in s2 {
      var i :| 0 <= i < |s2| && s2[i] == id;
      assert skips[|s1| + i] == SkippedEvent(id, admin, now);
      assert SkippedEvent(id, admin, now) in skips + advances;
    } else {
      var i :| 0 <= i < |a2| && a2[i] == id;
      assert advances[|a1| + i] == AdvancedEvent(id, admin, now);
      assert AdvancedEvent(id, admin, now) in skips + advances;
    }
  }

  /** How far a scan that would have gone from one place to another goes when it may not go beyond `c`. */
  function Capped(idx: nat, c: nat): nat {
    if idx < c then idx else c
  }

  /** One `advance` with the cursor held at `c`: a shorter batch, or no call at all. */
  lemma {:induction false} CappedAdvance(s: State, caller: Address, batchSize: nat, now: nat, c: nat)
    returns (calls: seq<Call>)
    requires PositionsOk(s.positions, s.nextId) && s.idx < s.nextId && DoAdvance(s, caller, batchSize, now).Ok?
    requires Furthest(DoAdvance(s, caller, batchSize, now).value.events) <= c
    ensures var r := DoAdvance(s, caller, batchSize, now).value;
      var t := Run(WithCursor(s, Capped(s.idx, c)), calls);
      t.events == r.events && t.state == WithCursor(r.state, Capped(r.state.idx, c))
  {
    var r := DoAdvance(s, caller, batchSize, now).value;
    ScanCursor(s.positions, s.idx, s.nextId - 1, batchSize, now);
    if s.idx >= c {
      calls := [];
      NothingLeftToTell(s, caller, batchSize, now, c);
    } else if r.state.idx <= c {
      calls := [Call(Advance(caller, batchSize), now)];
      RunOne(s, calls[0]);
    } else {
      calls := [Call(Advance(caller, c - s.idx), now)];
      ShorterBatch(s, caller, batchSize, now, c);
      RunOne(s, calls[0]);
    }
  }

  lemma SilentScan(p: map<nat, Position>, idx: nat, total: nat, batch: nat, now: nat, admin: Address, c: nat)
    requires c <= idx <= total && PositionsOk(p, total + 1)
    requires var r := ScanFrom(p, idx, total, batch, now);
      Furthest(SkippedEvents(r.skipped, admin, now) + AdvancedEvents(r.advanced, admin, now)) <= c
    ensures var r := ScanFrom(p, idx, total, batch, now); r.positions == p && r.advanced == [] && r.skipped == []
  {
    assert ScanFrom(p, idx, total, 0, now) == Scan(p, idx, [], []);
    SilentBeyond(p, idx, total, 0, batch, now, admin, c);
  }

  lemma {:induction false} NothingLeftToTell(s: State, caller: Address, batchSize: nat, now: nat, c: nat)
    requires PositionsOk(s.positions, s.nextId) && s.idx < s.nextId && DoAdvance(s, caller, batchSize, now).Ok?
    requires s.idx >= c
    requires Furthest(DoAdvance(s, caller, batchSize, now).value.events) <= c
    ensures var r := DoAdvance(s, caller, batchSize, now).value;
      r.events == [] && r.state == WithCursor(s, r.state.idx)
  {
    SilentScan(s.positions, s.idx, s.nextId - 1, batchSize, now, caller, c);
  }

  lemma {:induction false} ShorterBatch(s: State, caller: Address, batchSize: nat, now: nat, c: nat)
    requires PositionsOk(s.positions, s.nextId) && s.idx < s.nextId && DoAdvance(s, caller, batchSize, now).Ok?
    requires Furthest(DoAdvance(s, caller, batchSize, now).value.events) <= c
    requires s.idx < c < DoAdvance(s, caller, batchSize, now).value.state.idx
    ensures var r, t := DoAdvance(s, caller, batchSize, now).value, DoAdvance(s, caller, c - s.idx, now);
      t.Ok? && t.value.events == r.events && t.value.state == WithCursor(r.state, c)
  {
    var a, total := c - s.idx, s.nextId - 1;
    ScanCursor(s.positions, s.idx, total, batchSize, now);
    ScanCursor(s.positions, s.idx, total, a, now);
    SilentBeyond(s.positions, s.idx, total, a, batchSize - a, now, caller, c);
  }

  lemma RunOne(s: State, c: Call)
    requires Step(s, c.op, c.at).Ok?
    ensures var r := Step(s, c.op, c.at).value; Run(s, [c]).state == r.state && Run(s, [c]).events == r.events
  {
    RunHead(s, [c], if c.op.Advance? then Step(s, c.op, c.at).value.ids else []);
    assert [c][1..] == [];
    assert Step(s, c.op, c.at).value.events + [] == Step(s, c.op, c.at).value.events;
  }

  /** Every run can be repeated with the same events and its cursor held at any point its events do not go beyond. */
  lemma {:induction false} CappedRun(s: State, calls: seq<Call>, c: nat) returns (other: seq<Call>)
    requires Inv(s) && Furthest(Run(s, calls).events) <= c
    ensures var r, t := Run(s, calls), Run(WithCursor(s, Capped(s.idx, c)), other);
      t.events == r.events && t.state == WithCursor(r.state, Capped(r.state.idx, c))
    decreases |calls|
  {
    if calls == [] {
      other := [];
    } else {
      var call := calls[0];
      var first := Step(s, call.op, call.at);
      if first.Panic? {
        RunPanicked(s, calls);
        other := CappedRun(s, calls[1..], c);
      } else {
        var r := first.value;
        var rest := Run(r.state, calls[1..]);
        RunHead(s, calls, if call.op.Advance? then r.ids else []);
        FurthestOfBoth(r.events, rest.events);
        StepInv(s, call.op, call.at);
        var more := CappedRun(r.state, calls[1..], c);
        var now := CappedStep(s, call, c);
        other := now + more;
        RunThen(WithCursor(s, Capped(s.idx, c)), now, more);
      }
    }
  }

  lemma {:induction false} CappedStep(s: State, call: Call, c: nat) returns (calls: seq<Call>)
    requires Inv(s) && Step(s, call.op, call.at).Ok?
    requires Furthest(Step(s, call.op, call.at).value.events) <= c
    ensures var r := Step(s, call.op, call.at).value;
      var t := Run(WithCursor(s, Capped(s.idx, c)), calls);
      t.events == r.events && t.state == WithCursor(r.state, Capped(r.state.idx, c))
  {
    if call.op.Advance? {
      calls := CappedAdvance(s, call.op.caller, call.op.batchSize, call.at, c);
    } else {
      calls := [call];
      OthersIgnoreCursor(s, call.op, call.at, Capped(s.idx, c));
      OthersTellNothing(s, call.op, call.at);
      RunOne(WithCursor(s, Capped(s.idx, c)), call);
    }
  }

  // ---------- a run with a larger cursor ----------

  /** Somebody can only have expired after the queue started advancing, by the one rule that does not panic. */
  ghost predicate ExpiryNeedsAdvance(s: State) {
    && (s.positions != map[] && s.config.status == AdvancementActive ==> s.config.rule == Fifo)
    && (s.config.status == Draft ==> s.positions == map[])
    && (Rank(s.config.status) < 3 ==> forall id :: id in s.positions ==> s.positions[id].status != Expired)
  }

  lemma ScanExpiresNobody(p: map<nat, Position>, idx: nat, total: nat, batch: nat, now: nat)
    requires PositionsOk(p, total + 1) && idx <= total
    ensures var q := ScanFrom(p, idx, total, batch, now).positions;
      q.Keys == p.Keys && forall id :: id in p && q[id].status == Expired ==> p[id].status == Expired
  {
    ScanServes(p, idx, total, batch, now);
  }

  lemma {:induction false} AdvanceExpiry(s: State, caller: Address, batchSize: nat, now: nat)
    requires Inv(s) && ExpiryNeedsAdvance(s) && DoAdvance(s, caller, batchSize, now).Ok?
    ensures ExpiryNeedsAdvance(DoAdvance(s, caller, batchSize, now).value.state)
  {
    ScanExpiresNobody(s.positions, s.idx, s.nextId - 1, batchSize, now);
    assert s.config.rule == Fifo;
  }

  lemma {:induction false} ExpireExpiry(s: State, caller: Address, ids: seq<nat>, now: nat)
    requires ExpiryNeedsAdvance(s) && DoExpireBatch(s, caller, ids, now).Ok?
    ensures ExpiryNeedsAdvance(DoExpireBatch(s, caller, ids, now).value.state)
  {
    ExpireAllIff(s.positions, ids);
  }

  lemma {:induction false} CancelExpiry(s: State, identity: Address, id: nat, now: nat)
    requires ExpiryNeedsAdvance(s) && DoCancel(s, identity, id, now).Ok?
    ensures ExpiryNeedsAdvance(DoCancel(s, identity, id, now).value.state)
  {
    assert s.positions != map[];
  }

  lemma {:induction false} StepExpiry(s: State, op: Op, now: nat)
    requires Inv(s) && ExpiryNeedsAdvance(s) && Step(s, op, now).Ok?
    ensures ExpiryNeedsAdvance(Step(s, op, now).value.state)
  {
    match op
    case Advance(caller, batchSize) => AdvanceExpiry(s, caller, batchSize, now);
    case Expire(caller, id) => ExpireExpiry(s, caller, [id], now);
    case ExpireBatch(caller, ids) => ExpireExpiry(s, caller, ids, now);
    case Cancel(identity, id) => CancelExpiry(s, identity, id, now);
    case _ =>
  }

  lemma {:induction false} RunExpiry(s: State, calls: seq<Call>)
    requires Inv(s) && ExpiryNeedsAdvance(s)
    ensures ExpiryNeedsAdvance(Run(s, calls).state)
    decreases |calls|
  {
    if calls != [] {
      var first := Step(s, calls[0].op, calls[0].at);
      if first.Panic? {
        RunPanicked(s, calls);
        RunExpiry(s, calls[1..]);
      } else {
        StepInv(s, calls[0].op, calls[0].at);
        StepExpiry(s, calls[0].op, calls[0].at);
        RunExpiry(first.value.state, calls[1..]);
        RunHead(s, calls, if calls[0].op.Advance? then first.value.ids else []);
      }
    }
  }

  /** Before the closing, a queue with somebody expired is advancing. */
  lemma {:induction false} NotYetClosed(s: State, calls: seq<Call>)
    requires s.config.status != Closed
    requires forall e :: e in Run(s, calls).events ==> !e.QueueClosedEvent?
    ensures Run(s, calls).state.config.status != Closed
    decreases |calls|
  {
    if calls != [] {
      var c := calls[0];
      var first := Step(s, c.op, c.at);
      if first.Panic? {
        RunPanicked(s, calls);
        NotYetClosed(s, calls[1..]);
      } else {
        RunHead(s, calls, if c.op.Advance? then first.value.ids else []);
        var rest := Run(first.value.state, calls[1..]);
        assert forall e :: e in first.value.events ==> e in first.value.events + rest.events;
        assert forall e :: e in rest.events ==> e in first.value.events + rest.events;
        OnlyCloseCloses(s, c.op, c.at);
        NotYetClosed(first.value.state, calls[1..]);
      }
    }
  }

  lemma OnlyCloseCloses(s: State, op: Op, now: nat)
    requires s.config.status != Closed && Step(s, op, now).Ok?
    ensures var r := Step(s, op, now).value;
      r.state.config.status == Closed ==> exists e :: e in r.events && e.QueueClosedEvent?
  {
    if op.Close? {
      var r := Step(s, op, now).value;
      assert r.events[0] in r.events && r.events[0].QueueClosedEvent?;
    }
  }

  lemma {:induction false} UntilClosedIsOpen(events: seq<Event>)
    ensures forall e :: e in UntilClosed(events) ==> !e.QueueClosedEvent?
  {
    if events != [] && !events[0].QueueClosedEvent? { UntilClosedIsOpen(events[1..]); }
  }

  /** An advancing queue can pass an expired position without a word. */
  lemma {:induction false} PassOne(s: State)
    requires Inv(s) && ExpiryNeedsAdvance(s) && s.config.status != Closed
    requires s.idx + 1 in s.positions && s.positions[s.idx + 1].status == Expired
    ensures var call := Call(Advance(s.config.admin, 1), 0);
      Run(s, [call]).events == [] && Run(s, [call]).state == WithCursor(s, s.idx + 1)
  {
    var call := Call(Advance(s.config.admin, 1), 0);
    assert s.config.status == AdvancementActive && s.config.rule == Fifo;
    var id := s.idx + 1;
    assert ScanFrom(s.positions, id, s.nextId - 1, 0, 0) == Scan(s.positions, id, [], []);
    assert ScanFrom(s.positions, s.idx, s.nextId - 1, 1, 0) == Scan(s.positions, id, [], []);
    RunOne(s, call);
  }

  lemma {:induction false} PassMore(config: Config, calls: seq<Call>) returns (other: seq<Call>)
    requires var r := Run(Initial(config), calls); var p, next := OpenPositions(config, r.events), r.state.idx + 1;
      next in p && p[next].status == Expired
    ensures var r, t := Run(Initial(config), calls), Run(Initial(config), other);
      t.events == r.events && t.state.idx == r.state.idx + 1
  {
    var s := Initial(config);
    var before, after := SplitAtClosing(s, calls);
    var u := Run(s, before).state;
    InitialInv(config);
    RunInv(s, before);
    RunExpiry(s, before);
    EventsRebuildQueue(s, before);
    RunThen(s, before, after);
    AfterClosing(u, after, u.idx + 1);
    assert u.config.status != Closed by { OpenBefore(config, calls, before); }
    var pass := [Call(Advance(u.config.admin, 1), 0)];
    PassOne(u);
    other := before + (pass + after);
    RunThen(s, before, pass + after);
    RunThen(u, pass, after);
    assert [] + Run(WithCursor(u, u.idx + 1), after).events == Run(u, after).events;
  }

  lemma {:induction false} OpenBefore(config: Config, calls: seq<Call>, before: seq<Call>)
    requires UntilClosed(Run(Initial(config), calls).events) == Run(Initial(config), before).events
    requires Run(Initial(config), before).state.positions != map[]
    ensures Run(Initial(config), before).state.config.status != Closed
  {
    var s := Initial(config);
    UntilClosedIsOpen(Run(s, calls).events);
    InitialInv(config);
    if config.status == Closed {
      RunInv(s, before);
    } else {
      NotYetClosed(s, before);
    }
  }

  /**
    * The events leave the cursor open exactly when the position after the furthest one they name had expired before
    * the queue was closed: then, and only then, another run publishes the same events and ends with another cursor.
    */
  lemma {:induction false} CursorOpenIff(config: Config, calls: seq<Call>)
    ensures var s := Initial(config); var r := Run(s, calls);
      var p, next := OpenPositions(config, r.events), Furthest(r.events) + 1;
      (exists other :: Run(s, other).events == r.events && Run(s, other).state.idx != r.state.idx)
      <==> next in p && p[next].status == Expired
  {
    var s := Initial(config);
    var r := Run(s, calls);
    var p, next := OpenPositions(config, r.events), Furthest(r.events) + 1;
    CursorBounds(config, calls);
    if next in p && p[next].status == Expired {
      if r.state.idx == next - 1 {
        var other := PassMore(config, calls);
        assert Run(s, other).state.idx != r.state.idx;
      } else {
        InitialInv(config);
        var other := CappedRun(s, calls, next - 1);
        assert WithCursor(s, Capped(0, next - 1)) == s;
        assert Run(s, other).state.idx != r.state.idx;
      }
    }
    forall other | Run(s, other).events == r.events && Run(s, other).state.idx != r.state.idx
      ensures next in p && p[next].status == Expired
    {
      CursorBounds(config, other);
    }
  }

  /** While a queue is not closed, those positions are its present ones. */
  lemma {:induction false} OpenPositionsAreCurrent(config: Config, calls: seq<Call>)
    ensures var r := Run(Initial(config), calls);
      r.state.config.status != Closed ==> OpenPositions(config, r.events) == r.state.positions
  {
    var s := Initial(config);
    var before, after := SplitAtClosing(s, calls);
    InitialInv(config);
    EventsRebuildQueue(s, before);
    RunThen(s, before, after);
    AfterClosing(Run(s, before).state, after, 0);
    if after == [] { assert before + after == before; }
  }
}
