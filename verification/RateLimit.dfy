/** The fixed-window rate limiter over a store of values and expiring counters, as state and transitions. */
module RateLimit {
  import opened Common

  /** A counter without an expiry never restarts. */
  datatype CounterEntry = CounterEntry(value: int, expiresAt: Option<int>)

  /** Adds to a counter, starting it afresh when there is none or it has expired. */
  function Increment(entry: Option<CounterEntry>, now: int, amount: int, ttlMs: Option<int>): CounterEntry {
    var expired := entry.None? || (entry.value.expiresAt.Some? && now > entry.value.expiresAt.value);
    var base :=
      if expired then CounterEntry(0, if ttlMs.Some? then Some(now + ttlMs.value) else None)
      else entry.value;
    base.(value := base.value + amount)
  }

  /** What the store holds for one client: the announced window and the counter. */
  datatype KeyState = KeyState(resetAt: Option<int>, counter: Option<CounterEntry>)

  datatype Limit = Limit(max: nat, windowMs: nat)

  /** The clock is read twice: when the window is looked up and when the request is counted. */
  function Serve(s: KeyState, readAt: int, countedAt: int, limit: Limit): KeyState {
    KeyState(
      Some(if s.resetAt.None? || readAt > s.resetAt.value then readAt + limit.windowMs else s.resetAt.value),
      Some(Increment(s.counter, countedAt, 1, Some(limit.windowMs))))
  }

  predicate Admits(s: KeyState, limit: Limit)
    requires s.counter.Some?
  {
    s.counter.value.value <= limit.max
  }

  // ---------- traces ----------

  datatype Request = Request(key: string, readAt: int, countedAt: int)

  /** One handled request: the counter window it was counted in, named by its expiry, and the decision. */
  datatype Entry = Entry(key: string, at: int, window: int, admitted: bool)

  type Clients = map<string, KeyState>

  function StateOf(clients: Clients, key: string): KeyState {
    if key in clients then clients[key] else KeyState(None, None)
  }

  function Handle(clients: Clients, r: Request, limit: Limit): Clients {
    clients[r.key := Serve(StateOf(clients, r.key), r.readAt, r.countedAt, limit)]
  }

  /** Every counter the limiter creates expires. */
  predicate Expiring(clients: Clients) {
    forall k :: k in clients ==> clients[k].counter.Some? ==> clients[k].counter.value.expiresAt.Some?
  }

  function Run(clients: Clients, trace: seq<Request>, limit: Limit): seq<Entry>
    requires Expiring(clients)
    decreases |trace|
  {
    if trace == [] then []
    else
      var after := Handle(clients, trace[0], limit);
      var s := after[trace[0].key];
      [Entry(trace[0].key, trace[0].countedAt, s.counter.value.expiresAt.value, Admits(s, limit))]
      + Run(after, trace[1..], limit)
  }

  function AdmittedInWindow(log: seq<Entry>, key: string, window: int): nat {
    if log == [] then 0
    else
      AdmittedInWindow(log[1..], key, window)
      + if log[0].key == key && log[0].window == window && log[0].admitted then 1 else 0
  }

  function AdmittedBetween(log: seq<Entry>, key: string, from: int, to: int): nat {
    if log == [] then 0
    else
      AdmittedBetween(log[1..], key, from, to)
      + if log[0].key == key && from <= log[0].at <= to && log[0].admitted then 1 else 0
  }

  /** The clock never runs backwards. */
  predicate Ordered(trace: seq<Request>, after: int) {
    trace == [] || (after <= trace[0].countedAt && Ordered(trace[1..], trace[0].countedAt))
  }

  // ---------- a single counter window ----------

  /** How many more requests of `key` a given window can admit. */
  function WindowBudget(s: KeyState, window: int, limit: Limit): nat
    requires s.counter.Some? ==> s.counter.value.expiresAt.Some?
  {
    if s.counter.None? || s.counter.value.expiresAt.value < window then limit.max
    else if s.counter.value.expiresAt.value > window then 0
    else Max(0, limit.max - s.counter.value.value)
  }

  lemma {:induction false} WindowStep(clients: Clients, trace: seq<Request>, limit: Limit, key: string, window: int)
    requires Expiring(clients) && forall k :: k in clients && clients[k].counter.Some? ==>
      clients[k].counter.value.value >= 0
    ensures AdmittedInWindow(Run(clients, trace, limit), key, window)
      <= WindowBudget(StateOf(clients, key), window, limit)
    decreases |trace|
  {
    if trace != [] {
      var after := Handle(clients, trace[0], limit);
      WindowStep(after, trace[1..], limit, key, window);
      var log := Run(clients, trace, limit);
      assert log[1..] == Run(after, trace[1..], limit);
    }
  }

  /** Each counter window admits at most `max` requests of a client, whatever the clock does. */
  lemma WindowAdmitsAtMostMax(trace: seq<Request>, limit: Limit, key: string, window: int)
    ensures AdmittedInWindow(Run(map[], trace, limit), key, window) <= limit.max
  {
    WindowStep(map[], trace, limit, key, window);
  }

  // ---------- any interval of one window's length ----------

  /** How many requests of a client can still be admitted in the interval of one window's length from `from`. */
  function IntervalBudget(s: KeyState, from: int, limit: Limit): nat
    requires s.counter.Some? ==> s.counter.value.expiresAt.Some?
  {
    if s.counter.None? then Max(0, 2 * limit.max - 1)
    else
      var left, expiry := Max(0, limit.max - s.counter.value.value), s.counter.value.expiresAt.value;
      if expiry - limit.windowMs >= from then left
      else if expiry >= from then left + limit.max
      else Max(0, 2 * limit.max - 1)
  }

  lemma {:induction false} PastInterval(
    clients: Clients, trace: seq<Request>, limit: Limit, key: string, from: int, now: int)
    requires Expiring(clients) && Ordered(trace, now) && now > from + limit.windowMs
    ensures AdmittedBetween(Run(clients, trace, limit), key, from, from + limit.windowMs) == 0
    decreases |trace|
  {
    if trace != [] {
      var after := Handle(clients, trace[0], limit);
      PastInterval(after, trace[1..], limit, key, from, trace[0].countedAt);
      assert Run(clients, trace, limit)[1..] == Run(after, trace[1..], limit);
    }
  }

  lemma {:induction false} IntervalStep(
    clients: Clients, trace: seq<Request>, limit: Limit, key: string, from: int, now: int)
    requires Expiring(clients) && forall k :: k in clients && clients[k].counter.Some? ==>
      clients[k].counter.value.value >= 1
    requires Ordered(trace, now)
    ensures AdmittedBetween(Run(clients, trace, limit), key, from, from + limit.windowMs)
         <= IntervalBudget(StateOf(clients, key), from, limit)
    decreases |trace|
  {
    if trace != [] {
      var after := Handle(clients, trace[0], limit);
      assert Run(clients, trace, limit)[1..] == Run(after, trace[1..], limit);
      if trace[0].countedAt > from + limit.windowMs {
        PastInterval(after, trace[1..], limit, key, from, trace[0].countedAt);
      } else {
        IntervalStep(after, trace[1..], limit, key, from, trace[0].countedAt);
      }
    }
  }

  /**
    * Any closed interval of one window's length admits fewer than twice `max` requests of a client: of an earlier
    * window at least the request that opened it lies outside.
    */
  lemma IntervalAdmitsFewerThanTwiceMax(trace: seq<Request>, limit: Limit, key: string, from: int, start: int)
    requires Ordered(trace, start)
    ensures AdmittedBetween(Run(map[], trace, limit), key, from, from + limit.windowMs) <= Max(0, 2 * limit.max - 1)
  {
    IntervalStep(map[], trace, limit, key, from, start);
  }

  // ---------- the bound is reached ----------

  function After(clients: Clients, trace: seq<Request>, limit: Limit): Clients
    decreases |trace|
  {
    if trace == [] then clients else After(Handle(clients, trace[0], limit), trace[1..], limit)
  }

  /** `n` requests of one client at one moment. */
  function Burst(key: string, at: int, n: nat): seq<Request> {
    if n == 0 then [] else [Request(key, at, at)] + Burst(key, at, n - 1)
  }

  lemma {:induction false} AfterExpiring(clients: Clients, trace: seq<Request>, limit: Limit)
    requires Expiring(clients)
    ensures Expiring(After(clients, trace, limit))
    decreases |trace|
  {
    if trace != [] { AfterExpiring(Handle(clients, trace[0], limit), trace[1..], limit); }
  }

  lemma {:induction false} ThenMore(
    clients: Clients, first: seq<Request>, more: seq<Request>, limit: Limit, key: string, from: int, to: int)
    requires Expiring(clients)
    ensures Expiring(After(clients, first, limit))
    ensures AdmittedBetween(Run(clients, first + more, limit), key, from, to)
         == AdmittedBetween(Run(clients, first, limit), key, from, to)
            + AdmittedBetween(Run(After(clients, first, limit), more, limit), key, from, to)
    decreases |first|
  {
    if first == [] {
      assert first + more == more;
    } else {
      var t := Handle(clients, first[0], limit);
      assert (first + more)[1..] == first[1..] + more;
      assert Run(clients, first, limit)[1..] == Run(t, first[1..], limit);
      assert Run(clients, first + more, limit)[1..] == Run(t, first[1..] + more, limit);
      ThenMore(t, first[1..], more, limit, key, from, to);
    }
  }

  lemma {:induction false} OrderedThen(first: seq<Request>, more: seq<Request>, start: int, mid: int)
    requires Ordered(first, start) && start <= mid && Ordered(more, mid)
    requires forall i :: 0 <= i < |first| ==> first[i].countedAt <= mid
    ensures Ordered(first + more, start)
    decreases |first|
  {
    if first == [] {
      assert first + more == more;
      if more != [] { assert Ordered(more[1..], more[0].countedAt); }
    } else {
      assert (first + more)[1..] == first[1..] + more;
      OrderedThen(first[1..], more, first[0].countedAt, mid);
    }
  }

  lemma {:induction false} BurstOrdered(key: string, at: int, n: nat, start: int)
    requires start <= at
    ensures Ordered(Burst(key, at, n), start)
    ensures forall i :: 0 <= i < |Burst(key, at, n)| ==> Burst(key, at, n)[i].countedAt == at
  {
    if n > 0 {
      BurstOrdered(key, at, n - 1, at);
      assert Burst(key, at, n)[1..] == Burst(key, at, n - 1);
    }
  }

  /** A burst within an open window is admitted as far as the window goes. */
  lemma {:induction false} BurstInWindow(
    clients: Clients, key: string, at: int, n: nat, limit: Limit, from: int, to: int, counted: nat, expiry: int)
    requires Expiring(clients) && from <= at <= to && at <= expiry
    requires StateOf(clients, key).counter == Some(CounterEntry(counted, Some(expiry))) && counted + n <= limit.max
    ensures AdmittedBetween(Run(clients, Burst(key, at, n), limit), key, from, to) == n
    ensures StateOf(After(clients, Burst(key, at, n), limit), key).counter
      == Some(CounterEntry(counted + n, Some(expiry)))
    decreases n
  {
    if n > 0 {
      var burst, t := Burst(key, at, n), Handle(clients, Request(key, at, at), limit);
      assert burst[1..] == Burst(key, at, n - 1);
      BurstInWindow(t, key, at, n - 1, limit, from, to, counted + 1, expiry);
      assert Run(clients, burst, limit)[1..] == Run(t, Burst(key, at, n - 1), limit);
    }
  }

  /** A burst that opens a window. */
  lemma {:induction false} BurstOpens(
    clients: Clients, key: string, at: int, n: nat, limit: Limit, from: int, to: int)
    requires Expiring(clients) && 1 <= n <= limit.max
    requires var c := StateOf(clients, key).counter; c.None? || c.value.expiresAt.value < at
    ensures AdmittedBetween(Run(clients, Burst(key, at, n), limit), key, from, to) == if from <= at <= to then n else 0
    ensures StateOf(After(clients, Burst(key, at, n), limit), key).counter
         == Some(CounterEntry(n, Some(at + limit.windowMs)))
  {
    var burst, t := Burst(key, at, n), Handle(clients, Request(key, at, at), limit);
    assert burst[1..] == Burst(key, at, n - 1);
    assert Run(clients, burst, limit)[1..] == Run(t, burst[1..], limit);
    assert StateOf(t, key).counter == Some(CounterEntry(1, Some(at + limit.windowMs)));
    BurstInWindow(t, key, at, n - 1, limit, at, at, 1, at + limit.windowMs);
    BurstAt(t, key, at, n - 1, limit, from, to);
  }

  /** All of a burst lies inside an interval, or none of it. */
  lemma {:induction false} BurstAt(clients: Clients, key: string, at: int, n: nat, limit: Limit, from: int, to: int)
    requires Expiring(clients)
    ensures AdmittedBetween(Run(clients, Burst(key, at, n), limit), key, from, to)
         == if from <= at <= to then AdmittedBetween(Run(clients, Burst(key, at, n), limit), key, at, at) else 0
    decreases n
  {
    if n > 0 {
      var burst, t := Burst(key, at, n), Handle(clients, Request(key, at, at), limit);
      assert burst[1..] == Burst(key, at, n - 1);
      assert Run(clients, burst, limit)[1..] == Run(t, burst[1..], limit);
      BurstAt(t, key, at, n - 1, limit, from, to);
    }
  }

  /** One request opens a window, the rest come at its end, and as many as ever possible at the start of the next. */
  function TwoBursts(key: string, limit: Limit): seq<Request>
    requires limit.max >= 1
  {
    Burst(key, 0, 1) + (Burst(key, limit.windowMs, limit.max - 1) + Burst(key, limit.windowMs + 1, limit.max))
  }

  lemma {:induction false} TwoBurstsOrdered(key: string, limit: Limit)
    requires limit.max >= 1
    ensures Ordered(TwoBursts(key, limit), 0)
  {
    var w := limit.windowMs;
    var late, next := Burst(key, w, limit.max - 1), Burst(key, w + 1, limit.max);
    BurstOrdered(key, 0, 1, 0);
    BurstOrdered(key, w, limit.max - 1, 0);
    BurstOrdered(key, w + 1, limit.max, w);
    OrderedThen(late, next, 0, w);
    OrderedThen(Burst(key, 0, 1), late + next, 0, 0);
  }

  lemma {:induction false} LateBursts(clients: Clients, key: string, limit: Limit)
    requires Expiring(clients) && limit.max >= 1 && limit.windowMs >= 1
    requires StateOf(clients, key).counter == Some(CounterEntry(1, Some(limit.windowMs)))
    ensures var late, next := Burst(key, limit.windowMs, limit.max - 1), Burst(key, limit.windowMs + 1, limit.max);
      AdmittedBetween(Run(clients, late + next, limit), key, 1, 1 + limit.windowMs) == 2 * limit.max - 1
  {
    var w := limit.windowMs;
    var late, next := Burst(key, w, limit.max - 1), Burst(key, w + 1, limit.max);
    BurstInWindow(clients, key, w, limit.max - 1, limit, 1, 1 + w, 1, w);
    AfterExpiring(clients, late, limit);
    FullWindow(After(clients, late, limit), key, limit, limit.max);
    Adds(clients, late, next, limit, key, limit.max - 1, limit.max);
  }

  lemma Adds(clients: Clients, first: seq<Request>, more: seq<Request>, limit: Limit, key: string, a: int, b: int)
    requires Expiring(clients) && Expiring(After(clients, first, limit))
    requires AdmittedBetween(Run(clients, first, limit), key, 1, 1 + limit.windowMs) == a
    requires AdmittedBetween(Run(After(clients, first, limit), more, limit), key, 1, 1 + limit.windowMs) == b
    ensures AdmittedBetween(Run(clients, first + more, limit), key, 1, 1 + limit.windowMs) == a + b
  {
    ThenMore(clients, first, more, limit, key, 1, 1 + limit.windowMs);
  }

  lemma FullWindow(clients: Clients, key: string, limit: Limit, counted: int)
    requires Expiring(clients) && limit.max >= 1
    requires StateOf(clients, key).counter == Some(CounterEntry(counted, Some(limit.windowMs)))
    ensures var next := Burst(key, limit.windowMs + 1, limit.max);
      AdmittedBetween(Run(clients, next, limit), key, 1, 1 + limit.windowMs) == limit.max
  {
    BurstOpens(clients, key, limit.windowMs + 1, limit.max, limit, 1, 1 + limit.windowMs);
  }

  /** That bound is reached for every limit: at the end of one window and the start of the next. */
  lemma {:induction false} IntervalBoundIsReached(key: string, limit: Limit)
    requires limit.max >= 1 && limit.windowMs >= 1
    ensures exists trace ::
      Ordered(trace, 0) && AdmittedBetween(Run(map[], trace, limit), key, 1, 1 + limit.windowMs) == 2 * limit.max - 1
  {
    var start: Clients, w, opening := map[], limit.windowMs, Burst(key, 0, 1);
    var later := Burst(key, w, limit.max - 1) + Burst(key, w + 1, limit.max);
    TwoBurstsOrdered(key, limit);
    ThenMore(start, opening, later, limit, key, 1, 1 + w);
    BurstOpens(start, key, 0, 1, limit, 1, 1 + w);
    LateBursts(After(start, opening, limit), key, limit);
    assert Ordered(TwoBursts(key, limit), 0);
  }

  // ---------- exactly which requests are admitted ----------

  /** When a client's own requests were counted. */
  function Times(trace: seq<Request>, key: string): seq<int> {
    if trace == [] then []
    else
      var last := trace[|trace| - 1];
      Times(trace[..|trace| - 1], key) + if last.key == key then [last.countedAt] else []
  }

  /** The window a request is counted in, named by its end: the client's last one, or a new one when that is over. */
  function NextWindow(windows: seq<int>, at: int, windowMs: nat): int {
    if windows == [] || at > windows[|windows| - 1] then at + windowMs else windows[|windows| - 1]
  }

  function Windows(times: seq<int>, windowMs: nat): (windows: seq<int>)
    ensures |windows| == |times|
  {
    if times == [] then []
    else
      var earlier := Windows(times[..|times| - 1], windowMs);
      earlier + [NextWindow(earlier, times[|times| - 1], windowMs)]
  }

  function Occurrences(windows: seq<int>, window: int): nat {
    multiset(windows)[window]
  }

  /** The counter of a client after its requests: it counts those of the last window. */
  ghost predicate Counts(s: KeyState, windows: seq<int>) {
    if windows == [] then s.counter.None?
    else
      var last := windows[|windows| - 1];
      && s.counter == Some(CounterEntry(Occurrences(windows, last), Some(last)))
      && forall i :: 0 <= i < |windows| ==> windows[i] <= last
  }

  lemma CountsNext(s: KeyState, windows: seq<int>, readAt: int, at: int, limit: Limit)
    requires Counts(s, windows)
    ensures Counts(Serve(s, readAt, at, limit), windows + [NextWindow(windows, at, limit.windowMs)])
  {
    var next := NextWindow(windows, at, limit.windowMs);
    var all := windows + [next];
    assert all[|all| - 1] == next && Occurrences(all, next) == Occurrences(windows, next) + 1;
    if windows != [] && at > windows[|windows| - 1] {
      assert next !in windows;
    }
  }

  lemma TimesNext(past: seq<Request>, r: Request, key: string)
    ensures Times(past + [r], key) == Times(past, key) + if r.key == key then [r.countedAt] else []
  {
    assert (past + [r])[..|past|] == past;
  }

  lemma WindowsNext(times: seq<int>, at: int, windowMs: nat)
    ensures Windows(times + [at], windowMs)
         == Windows(times, windowMs) + [NextWindow(Windows(times, windowMs), at, windowMs)]
  {
    assert (times + [at])[..|times|] == times;
  }

  /** Every client's counter counts its own requests, wherever the others stand. */
  ghost predicate AllCount(clients: Clients, past: seq<Request>, windowMs: nat) {
    forall key :: Counts(StateOf(clients, key), Windows(Times(past, key), windowMs))
  }

  lemma HandleCounts(clients: Clients, past: seq<Request>, r: Request, limit: Limit)
    requires AllCount(clients, past, limit.windowMs)
    ensures AllCount(Handle(clients, r, limit), past + [r], limit.windowMs)
  {
    forall key
      ensures Counts(StateOf(Handle(clients, r, limit), key), Windows(Times(past + [r], key), limit.windowMs))
    {
      var times := Times(past, key);
      TimesNext(past, r, key);
      assert Counts(StateOf(clients, key), Windows(times, limit.windowMs));
      if r.key == key {
        WindowsNext(times, r.countedAt, limit.windowMs);
        CountsNext(StateOf(clients, key), Windows(times, limit.windowMs), r.readAt, r.countedAt, limit);
      } else {
        assert times + [] == times;
      }
    }
  }

  /** A request is admitted when fewer than `max` of the client's earlier ones were counted in its window. */
  ghost predicate Decided(entry: Entry, r: Request, past: seq<Request>, limit: Limit) {
    var windows := Windows(Times(past, r.key), limit.windowMs);
    && entry.key == r.key && entry.at == r.countedAt
    && entry.window == NextWindow(windows, r.countedAt, limit.windowMs)
    && (entry.admitted <==> Occurrences(windows, entry.window) < limit.max)
  }

  lemma {:induction false} HandleDecides(clients: Clients, past: seq<Request>, r: Request, limit: Limit)
    requires AllCount(clients, past, limit.windowMs) && Expiring(clients)
    ensures var s := Handle(clients, r, limit)[r.key];
      Decided(Entry(r.key, r.countedAt, s.counter.value.expiresAt.value, Admits(s, limit)), r, past, limit)
  {
    var windows := Windows(Times(past, r.key), limit.windowMs);
    assert Counts(StateOf(clients, r.key), windows);
    CountsNext(StateOf(clients, r.key), windows, r.readAt, r.countedAt, limit);
    var next := NextWindow(windows, r.countedAt, limit.windowMs);
    assert Occurrences(windows + [next], next) == Occurrences(windows, next) + 1;
  }

  ghost predicate DecidedAt(log: seq<Entry>, trace: seq<Request>, past: seq<Request>, limit: Limit, i: nat) {
    i < |log| && i < |trace| && Decided(log[i], trace[i], past + trace[..i], limit)
  }

  lemma DecidedLater(log: seq<Entry>, trace: seq<Request>, past: seq<Request>, limit: Limit, i: nat)
    requires log != [] && trace != [] && DecidedAt(log[1..], trace[1..], past + [trace[0]], limit, i)
    ensures DecidedAt(log, trace, past, limit, i + 1)
  {
    assert past + [trace[0]] + trace[1..][..i] == past + trace[..i + 1];
  }

  lemma {:induction false} FirstDecided(clients: Clients, past: seq<Request>, trace: seq<Request>, limit: Limit)
    requires AllCount(clients, past, limit.windowMs) && Expiring(clients) && trace != []
    ensures DecidedAt(Run(clients, trace, limit), trace, past, limit, 0)
  {
    HandleDecides(clients, past, trace[0], limit);
    assert past + trace[..0] == past;
  }

  lemma {:induction false} RunDecides(
    clients: Clients, past: seq<Request>, trace: seq<Request>, limit: Limit, i: nat)
    requires AllCount(clients, past, limit.windowMs) && Expiring(clients) && i < |trace|
    ensures DecidedAt(Run(clients, trace, limit), trace, past, limit, i)
    decreases |trace|
  {
    if i == 0 {
      FirstDecided(clients, past, trace, limit);
    } else {
      HandleCounts(clients, past, trace[0], limit);
      RunDecides(Handle(clients, trace[0], limit), past + [trace[0]], trace[1..], limit, i - 1);
      DecidedLater(Run(clients, trace, limit), trace, past, limit, i - 1);
    }
  }

  /**
    * Each request is decided by the client's own earlier requests alone, on whatever clock: it is counted in the window
    * that is open, or opens one when that is over, and is admitted exactly when fewer than `max` were counted there.
    */
  lemma {:induction false} AdmittedIff(trace: seq<Request>, limit: Limit, i: nat)
    requires i < |trace|
    ensures i < |Run(map[], trace, limit)|
    ensures Decided(Run(map[], trace, limit)[i], trace[i], trace[..i], limit)
  {
    RunDecides(map[], [], trace, limit, i);
    assert [] + trace[..i] == trace[..i];
  }

  // ---------- the two windows ----------

  /** The announced window and the counter's window end together. */
  predicate InStep(s: KeyState) {
    s.resetAt.Some? && s.counter.Some? && s.counter.value.expiresAt == s.resetAt
  }

  /**
    * The announced window stays the counted one exactly when the clock does not move past the end of the window, or
    * does not move at all, between its two readings. (Deleting the counter's key in the value store is no help: the
    * counters are kept elsewhere.)
    */
  lemma {:induction false} WindowsStayInStepIff(s: KeyState, readAt: int, countedAt: int, limit: Limit)
    requires readAt <= countedAt
    ensures InStep(s) ==>
              (InStep(Serve(s, readAt, countedAt, limit)) <==>
                 countedAt <= s.resetAt.value || (readAt > s.resetAt.value && readAt == countedAt))
    ensures s.resetAt.None? && s.counter.None? ==>
              (InStep(Serve(s, readAt, countedAt, limit)) <==> readAt == countedAt)
  {
  }
}

/** The in-process store and the limiter as objects updated in place. */
module RateLimitClasses {
  import opened Common
  import opened RateLimit

  class MemoryAdapter<V> {
    var namespaces: map<string, map<string, V>>
    var counters: map<string, map<string, CounterEntry>>

    function Stored(ns: string, key: string): Option<V>
      reads this
    {
      if ns in namespaces && key in namespaces[ns] then Some(namespaces[ns][key]) else None
    }

    function Counter(ns: string, key: string): Option<CounterEntry>
      reads this
    {
      if ns in counters && key in counters[ns] then Some(counters[ns][key]) else None
    }

    constructor ()
      ensures namespaces == map[] && counters == map[]
    {
      namespaces, counters := map[], map[];
    }

    /** Reading creates an empty bucket for an unknown namespace, which nobody can tell. */
    method Get(ns: string, key: string) returns (r: Option<V>)
      modifies this`namespaces
      ensures r == old(Stored(ns, key))
      ensures forall n, k :: Stored(n, k) == old(Stored(n, k))
    {
      if ns !in namespaces { namespaces := namespaces[ns := map[]]; }
      r := if key in namespaces[ns] then Some(namespaces[ns][key]) else None;
    }

    method Set(ns: string, key: string, value: V)
      modifies this`namespaces
      ensures forall n, k :: Stored(n, k) == if n == ns && k == key then Some(value) else old(Stored(n, k))
    {
      var bucket := if ns in namespaces then namespaces[ns] else map[];
      namespaces := namespaces[ns := bucket[key := value]];
    }

    method Delete(ns: string, key: string) returns (deleted: bool)
      modifies this`namespaces
      ensures deleted == old(Stored(ns, key)).Some?
      ensures forall n, k :: Stored(n, k) == if n == ns && k == key then None else old(Stored(n, k))
    {
      var bucket := if ns in namespaces then namespaces[ns] else map[];
      deleted := key in bucket;
      namespaces := namespaces[ns := bucket - {key}];
    }

    method IncrementCounter(ns: string, key: string, amount: int, ttlMs: Option<int>, now: int) returns (value: int)
      modifies this`counters
      ensures var entry := Increment(old(Counter(ns, key)), now, amount, ttlMs);
        && value == entry.value
        && forall n, k :: Counter(n, k) == if n == ns && k == key then Some(entry) else old(Counter(n, k))
    {
      var bucket := if ns in counters then counters[ns] else map[];
      if key !in bucket || (bucket[key].expiresAt.Some? && now > bucket[key].expiresAt.value) {
        bucket := bucket[key := CounterEntry(0, if ttlMs.Some? then Some(now + ttlMs.value) else None)];
      }
      bucket := bucket[key := bucket[key].(value := bucket[key].value + amount)];
      counters := counters[ns := bucket];
      value := bucket[key].value;
    }
  }

  /** Milliseconds in whole seconds, rounded up. */
  function Seconds(ms: int): (s: int)
    ensures 0 <= s * 1000 - ms < 1000
  {
    -(-ms / 1000)
  }

  datatype Headers = Headers(limit: nat, remaining: nat, reset: int, retryAfter: Option<int>)

  class RateLimiter {
    const limit: Limit
    const store: MemoryAdapter<int>
    const winNs: string
    const cntNs: string

    constructor (limit: Limit, store: MemoryAdapter<int>, id: string)
      ensures this.limit == limit && this.store == store
      ensures winNs == "ratelimit:win:" + id && cntNs == "ratelimit:cnt:" + id
    {
      this.limit, this.store := limit, store;
      winNs, cntNs := "ratelimit:win:" + id, "ratelimit:cnt:" + id;
    }

    function Client(key: string): KeyState
      reads store
    {
      KeyState(store.Stored(winNs, key), store.Counter(cntNs, key))
    }

    /** The window announced to the client, a new one when there is none or it is over. */
    method Announce(key: string, readAt: int) returns (resetAt: int)
      requires winNs != cntNs
      modifies store`namespaces
      ensures var meta := old(store.Stored(winNs, key));
        resetAt == if meta.None? || readAt > meta.value then readAt + limit.windowMs else meta.value
      ensures store.Stored(winNs, key) == Some(resetAt)
      ensures forall n, k :: n != winNs && n != cntNs ==> store.Stored(n, k) == old(store.Stored(n, k))
      ensures forall k :: k != key ==> store.Stored(winNs, k) == old(store.Stored(winNs, k))
    {
      var meta := store.Get(winNs, key);
      if meta.None? || readAt > meta.value {
        resetAt := readAt + limit.windowMs;
        store.Set(winNs, key, resetAt);
        var _ := store.Delete(cntNs, key);
      } else {
        resetAt := meta.value;
      }
    }

    /**
      * One request: the client's state moves as `Serve` says, and nothing else in the store changes. The reset time and
      * the wait after a refusal are told in whole seconds, rounded up.
      */
    method Handle(key: string, readAt: int, countedAt: int) returns (admitted: bool, headers: Headers)
      requires winNs != cntNs
      modifies store
      ensures Client(key) == Serve(old(Client(key)), readAt, countedAt, limit)
      ensures admitted == Admits(Client(key), limit)
      ensures headers.limit == limit.max
      ensures headers.remaining == Max(0, limit.max - Client(key).counter.value.value)
      ensures Client(key).resetAt.Some?
      ensures 0 <= headers.reset * 1000 - Client(key).resetAt.value < 1000
      ensures headers.retryAfter.Some? <==> !admitted
      ensures !admitted ==> 0 <= headers.retryAfter.value * 1000 - (Client(key).resetAt.value - readAt) < 1000
      ensures forall k :: k != key ==> Client(k) == old(Client(k))
      ensures forall n, k :: n != winNs && n != cntNs ==> store.Stored(n, k) == old(store.Stored(n, k))
      ensures forall n, k :: n != cntNs ==> store.Counter(n, k) == old(store.Counter(n, k))
    {
      var resetAt := Announce(key, readAt);
      var count := store.IncrementCounter(cntNs, key, 1, Some(limit.windowMs), countedAt);
      admitted := count <= limit.max;
      headers := Headers(limit.max, Max(0, limit.max - count), Seconds(resetAt),
                         if admitted then None else Some(Seconds(resetAt - readAt)));
    }
  }
}
