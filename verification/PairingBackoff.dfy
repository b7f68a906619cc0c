/** What the pairing limiter guarantees over whole runs of attempts and clearing successes. */
module PairingBackoff {
  import opened Int64
  import opened Outcomes
  import opened PairingLimiter

  datatype Event = Attempt(source: string, now: int) | Clear(key: Key, startedAt: int)

  function Apply(entries: Entries, e: Event): Entries {
    match e
    case Attempt(source, now) => BeginPairing(entries, source, now).0
    case Clear(key, startedAt) => Cleared(entries, key, startedAt)
  }

  function Execute(entries: Entries, events: seq<Event>): Entries
    decreases |events|
  {
    if events == [] then entries else Execute(Apply(entries, events[0]), events[1..])
  }

  function ClockAfter(e: Event, clock: int): int {
    if e.Attempt? then e.now else clock
  }

  /** The attempts of a run read a clock that starts at `clock` and never goes back. */
  ghost predicate Timed(events: seq<Event>, clock: int)
    decreases |events|
  {
    events == [] ||
    (clock <= ClockAfter(events[0], clock) && Timed(events[1..], ClockAfter(events[0], clock)))
  }

  predicate AdmittedUnder(entries: Entries, e: Event, key: Key) {
    e.Attempt? && BeginPairing(entries, e.source, e.now).1 == Admitted(key)
  }

  /** When attempts were admitted under `key`, in order. */
  function AdmittedTimes(entries: Entries, events: seq<Event>, key: Key): seq<int>
    decreases |events|
  {
    if events == [] then []
    else
      (if AdmittedUnder(entries, events[0], key) then [events[0].now] else [])
      + AdmittedTimes(Apply(entries, events[0]), events[1..], key)
  }

  /** No success in the run forgets the failures under `key`. */
  ghost predicate NeverCleared(entries: Entries, events: seq<Event>, key: Key)
    decreases |events|
  {
    events == [] ||
    (&& (events[0].Clear? && events[0].key == key ==> Apply(entries, events[0]) == entries)
     && NeverCleared(Apply(entries, events[0]), events[1..], key))
  }

  // ----- the table at rest

  predicate ValidState(s: FailureState, clock: int) {
    && 1 <= s.failures <= 7
    && s.blockedUntil == s.lastFailure + Seconds(BackoffSecs(s.failures))
    && s.lastFailure <= s.lastSeen <= clock
  }

  ghost predicate Valid(entries: Entries, clock: int) {
    forall k :: k in entries ==> ValidState(entries[k], clock)
  }

  lemma AttemptStaysValid(entries: Entries, key: Key, now: int, clock: int)
    requires Valid(entries, clock) && clock <= now
    ensures Valid(BeginAttempt(entries, key, now).0, now)
  {
  }

  lemma PairingStaysValid(entries: Entries, source: string, now: int, clock: int)
    requires Valid(entries, clock) && clock <= now
    ensures Valid(BeginPairing(entries, source, now).0, now)
  {
    if Source(source) in entries || |entries| < AUTH_FAILURE_CAPACITY {
      AttemptStaysValid(entries, Source(source), now, clock);
    } else {
      var kept := DropIfExpired(entries, Overflow, now);
      if !(Overflow in kept && kept[Overflow].blockedUntil > now) {
        var seen := if Overflow in kept then Touched(kept, Overflow, now) else kept;
        var live := ExpireEntries(seen, now);
        assert Valid(live, now) && Valid(live - {Overflow}, now);
        AttemptStaysValid(live, Overflow, now, now);
        AttemptStaysValid(live - {Overflow}, Source(source), now, now);
      }
    }
  }

  lemma EventStaysValid(entries: Entries, e: Event, clock: int)
    requires Valid(entries, clock) && clock <= ClockAfter(e, clock)
    ensures Valid(Apply(entries, e), ClockAfter(e, clock))
  {
    if e.Attempt? {
      PairingStaysValid(entries, e.source, e.now, clock);
    }
  }

  // ----- what an attempt does to the entry of a source

  predicate DropsOnlyExpired(before: Entries, after: Entries, key: Key, now: int) {
    key in before ==>
      if key in after then after[key] == before[key] else Expired(before[key], now)
  }

  /** Attempts from elsewhere never change a source's entry, and remove it only once it expired. */
  lemma OtherSourcesUnharmed(entries: Entries, source: string, now: int, key: Key)
    requires key.Source? && key != Source(source)
    ensures DropsOnlyExpired(entries, BeginPairing(entries, source, now).0, key, now)
    ensures key !in entries ==> key !in BeginPairing(entries, source, now).0
  {
  }

  /** An attempt admitted under its own source key recorded one more failure, or the first. */
  lemma OwnAttempt(entries: Entries, source: string, now: int)
    ensures var (after, outcome) := BeginPairing(entries, source, now);
      var key := Source(source);
      if outcome == Admitted(key) then
        && (key in entries && entries[key].blockedUntil > now ==> Expired(entries[key], now))
        && key in after
        && ((after[key] == NextState(FailureState(0, now, now, now), now)
          && (key in entries ==> Expired(entries[key], now)))
            || (key in entries && after[key] == NextState(entries[key], now)))
      else if key in entries then key in after && after[key] == entries[key].(lastSeen := now)
      else key !in after
  {
  }

  // ----- pacing

  /** How far, in seconds, the first `failures` waits of a row fall short of a minute each. */
  function Shortfall(failures: nat): nat
    requires failures <= 7
  {
    if failures == 0 then 0 else Shortfall(failures - 1) + AUTH_BACKOFF_MAX_SECS - BackoffSecs(failures)
  }

  lemma ShortfallBound(failures: nat)
    requires failures <= 7
    ensures Shortfall(failures) <= 297
  {
    Backoffs();
    assert Shortfall(3) == 173;
    assert Shortfall(5) == 269;
    assert Shortfall(7) == 297;
  }

  lemma Backoffs()
    ensures BackoffSecs(1) == 1 && BackoffSecs(2) == 2 && BackoffSecs(3) == 4 && BackoffSecs(4) == 8
    ensures BackoffSecs(5) == 16 && BackoffSecs(6) == 32 && BackoffSecs(7) == 60
  {
    assert PowerOfTwo(3) == 8;
    assert PowerOfTwo(6) == 64;
  }

  /** The earliest an admission can follow the n-th one before it. */
  function Due(n: nat): int { Seconds(60 * n - 297) }

  /** After `n` admissions since `start`, the entry (or its absence) pushes the next one this far out. */
  ghost predicate Owed(entries: Entries, clock: int, key: Key, start: int, n: nat) {
    if key in entries then
      entries[key].failures <= 7
      && entries[key].blockedUntil >= start + Seconds(60 * n - Shortfall(entries[key].failures))
    else clock >= start + Seconds(60 * n)
  }

  lemma ExpiryPaysUp(entries: Entries, clock: int, now: int, key: Key, start: int, n: nat)
    requires Valid(entries, clock) && clock <= now && Owed(entries, clock, key, start, n)
    requires key in entries && Expired(entries[key], now)
    ensures now >= start + Seconds(60 * n)
  {
    ShortfallBound(entries[key].failures);
  }

  lemma OwnAttemptPaces(entries: Entries, source: string, now: int, clock: int, start: int, n: nat)
    requires Valid(entries, clock) && clock <= now && Owed(entries, clock, Source(source), start, n)
    ensures var (after, outcome) := BeginPairing(entries, source, now);
      if outcome == Admitted(Source(source)) then
        now >= start + Due(n) && Owed(after, now, Source(source), start, n + 1)
      else Owed(after, now, Source(source), start, n)
  {
    var key := Source(source);
    OwnAttempt(entries, source, now);
    if key in entries {
      ShortfallBound(entries[key].failures);
      if Expired(entries[key], now) {
        ExpiryPaysUp(entries, clock, now, key, start, n);
      }
    }
    var (after, outcome) := BeginPairing(entries, source, now);
    if outcome == Admitted(key) {
      var previous :=
        if key in entries && after[key] == NextState(entries[key], now) then entries[key]
        else FailureState(0, now, now, now);
      NextStatePaces(previous, now, start, n);
    }
  }

  lemma NextStatePaces(s: FailureState, now: int, start: int, n: nat)
    requires s.failures <= 7 && now >= start + Seconds(60 * n - Shortfall(s.failures))
    ensures var t := NextState(s, now);
      1 <= t.failures <= 7 && t.blockedUntil >= start + Seconds(60 * (n + 1) - Shortfall(t.failures))
  {
    Backoffs();
    ShortfallBound(s.failures);
  }

  lemma EventPaces(entries: Entries, e: Event, clock: int, key: Key, start: int, n: nat)
    requires key.Source? && Valid(entries, clock) && clock <= ClockAfter(e, clock)
      && Owed(entries, clock, key, start, n)
    requires e.Clear? && e.key == key ==> Apply(entries, e) == entries
    ensures if AdmittedUnder(entries, e, key) then
        e.now >= start + Due(n) && Owed(Apply(entries, e), e.now, key, start, n + 1)
      else Owed(Apply(entries, e), ClockAfter(e, clock), key, start, n)
  {
    if e.Attempt? && key == Source(e.source) {
      OwnAttemptPaces(entries, e.source, e.now, clock, start, n);
    } else if e.Attempt? {
      OtherSourcesUnharmed(entries, e.source, e.now, key);
      if key in entries && Expired(entries[key], e.now) {
        ExpiryPaysUp(entries, clock, e.now, key, start, n);
      }
      OnlyOwnKeyOrOverflow(entries, e.source, e.now);
    }
  }

  lemma OnlyOwnKeyOrOverflow(entries: Entries, source: string, now: int)
    ensures BeginPairing(entries, source, now).1.Admitted? ==>
      BeginPairing(entries, source, now).1.key in {Source(source), Overflow}
  {
  }

  /** Each time is at least as late as its place after `n` others since `start` demands. */
  ghost predicate OnTime(times: seq<int>, start: int, n: nat) {
    forall j :: 0 <= j < |times| ==> times[j] >= start + Due(n + j)
  }

  /** Any two times lie as far apart as the number of steps between them demands. */
  ghost predicate Paced(times: seq<int>) {
    forall i, j :: 0 <= i <= j < |times| ==> times[j] - times[i] >= Due(j - i)
  }

  lemma OneMoreOnTime(now: int, rest: seq<int>, start: int, n: nat)
    requires now >= start + Due(n) && OnTime(rest, start, n + 1)
    ensures OnTime([now] + rest, start, n)
  {
    var times := [now] + rest;
    forall j | 0 <= j < |times| ensures times[j] >= start + Due(n + j) {
      if j > 0 {
        assert times[j] == rest[j - 1] && n + 1 + (j - 1) == n + j;
      }
    }
  }

  lemma OneMorePaced(now: int, rest: seq<int>)
    requires Paced(rest) && OnTime(rest, now, 1)
    ensures Paced([now] + rest)
  {
    var times := [now] + rest;
    forall i, j | 0 <= i <= j < |times| ensures times[j] - times[i] >= Due(j - i) {
      if 0 < i {
        assert times[j] == rest[j - 1] && times[i] == rest[i - 1] && (j - 1) - (i - 1) == j - i;
      } else if 0 < j {
        assert times[j] == rest[j - 1] && 1 + (j - 1) == j;
      }
    }
  }

  /** Counting from a moment with `n` admissions behind it, every further admission waits its turn. */
  lemma {:induction false} LaterAdmissionsWait(entries: Entries, events: seq<Event>, clock: int, key: Key, start: int,
      n: nat)
    requires key.Source? && Valid(entries, clock) && Timed(events, clock) && NeverCleared(entries, events, key)
    requires Owed(entries, clock, key, start, n)
    ensures OnTime(AdmittedTimes(entries, events, key), start, n)
    decreases |events|
  {
    if events != [] {
      var e := events[0];
      var next := Apply(entries, e);
      EventPaces(entries, e, clock, key, start, n);
      EventStaysValid(entries, e, clock);
      var rest := AdmittedTimes(next, events[1..], key);
      if AdmittedUnder(entries, e, key) {
        LaterAdmissionsWait(next, events[1..], e.now, key, start, n + 1);
        OneMoreOnTime(e.now, rest, start, n);
      } else {
        LaterAdmissionsWait(next, events[1..], ClockAfter(e, clock), key, start, n);
        assert AdmittedTimes(entries, events, key) == rest;
      }
    }
  }

  /**
   * In every run from a well-formed table, with a clock that never goes back and no success that
   * clears the key, any k + 1 consecutive admissions under one source key span at least
   * 60 k - 297 seconds, resets by expiry included.
   */
  lemma {:induction false} AdmissionsArePaced(entries: Entries, events: seq<Event>, clock: int, key: Key)
    requires key.Source? && Valid(entries, clock) && Timed(events, clock) && NeverCleared(entries, events, key)
    ensures Paced(AdmittedTimes(entries, events, key))
    decreases |events|
  {
    if events != [] {
      var e := events[0];
      var next := Apply(entries, e);
      EventStaysValid(entries, e, clock);
      AdmissionsArePaced(next, events[1..], ClockAfter(e, clock), key);
      var rest := AdmittedTimes(next, events[1..], key);
      if AdmittedUnder(entries, e, key) {
        FirstAdmission(entries, e.source, e.now, key);
        LaterAdmissionsWait(next, events[1..], e.now, key, e.now, 1);
        OneMorePaced(e.now, rest);
      } else {
        assert AdmittedTimes(entries, events, key) == rest;
      }
    }
  }

  lemma FirstAdmission(entries: Entries, source: string, now: int, key: Key)
    requires key.Source? && BeginPairing(entries, source, now).1 == Admitted(key)
    ensures Owed(BeginPairing(entries, source, now).0, now, key, now, 1)
  {
    OnlyOwnKeyOrOverflow(entries, source, now);
    OwnAttempt(entries, source, now);
    var after := BeginPairing(entries, source, now).0;
    NextStatePaces(FailureState(0, now, now, now), now, now, 0);
    if key in entries && after[key] == NextState(entries[key], now) {
      FirstOfRow(entries[key], now);
    }
  }

  lemma FirstOfRow(s: FailureState, now: int)
    ensures var t := NextState(s, now);
      1 <= t.failures <= 7 && t.blockedUntil >= now + Seconds(60 - Shortfall(t.failures))
  {
  }

  // ----- capacity

  ghost predicate Bounded(entries: Entries) {
    |TrackedSources(entries)| <= AUTH_FAILURE_CAPACITY
  }

  lemma FewerSources(some: Entries, all: Entries)
    requires some.Keys <= all.Keys
    ensures |TrackedSources(some)| <= |TrackedSources(all)|
  {
    SubsetSize(TrackedSources(some), TrackedSources(all));
  }

  lemma SubsetSize<T>(a: set<T>, b: set<T>)
    requires a <= b
    ensures |a| <= |b|
  {
    assert b == a + (b - a);
  }

  lemma AttemptAddsOneSource(entries: Entries, key: Key, now: int)
    ensures TrackedSources(BeginAttempt(entries, key, now).0) <= TrackedSources(entries)
      + (if key.Source? then {key} else {})
  {
  }

  lemma AttemptAddsAtMostOne(entries: Entries, key: Key, now: int)
    ensures |TrackedSources(BeginAttempt(entries, key, now).0)|
      <= |TrackedSources(entries)| + if key.Source? && key !in entries then 1 else 0
  {
    AttemptAddsOneSource(entries, key, now);
    SubsetSize(TrackedSources(BeginAttempt(entries, key, now).0),
               TrackedSources(entries) + (if key.Source? then {key} else {}));
    assert key in entries && key.Source? ==> TrackedSources(entries) + {key} == TrackedSources(entries);
  }

  lemma CrowdedStaysBounded(entries: Entries, source: string, now: int)
    requires Bounded(entries)
    ensures Bounded(BeginCrowded(entries, source, now).0)
  {
    var kept := DropIfExpired(entries, Overflow, now);
    if Overflow in kept && kept[Overflow].blockedUntil > now {
      assert TrackedSources(Touched(kept, Overflow, now)) == TrackedSources(entries);
    } else {
      var seen := if Overflow in kept then Touched(kept, Overflow, now) else kept;
      var live := ExpireEntries(seen, now);
      SubsetSize(TrackedSources(live), TrackedSources(entries));
      assert TrackedSources(live - {Overflow}) == TrackedSources(live);
      AttemptAddsAtMostOne(live, Overflow, now);
      AttemptAddsAtMostOne(live - {Overflow}, Source(source), now);
    }
  }

  lemma PairingStaysBounded(entries: Entries, source: string, now: int)
    requires Bounded(entries)
    ensures Bounded(BeginPairing(entries, source, now).0)
  {
    if Source(source) in entries || |entries| < AUTH_FAILURE_CAPACITY {
      SubsetSize(TrackedSources(entries), entries.Keys);
      AttemptAddsAtMostOne(entries, Source(source), now);
    } else {
      CrowdedStaysBounded(entries, source, now);
    }
  }

  /** Over every run the table holds at most 1024 sources, besides the one overflow bucket. */
  lemma {:induction false} CapacityHolds(entries: Entries, events: seq<Event>)
    requires Bounded(entries)
    ensures Bounded(Execute(entries, events)) && |Execute(entries, events)| <= 1025
    ensures |TrackedSources(Execute(entries, events))| <= 1024
    decreases |events|
  {
    if events == [] {
      SubsetSize(entries.Keys, TrackedSources(entries) + {Overflow});
    } else {
      if events[0].Attempt? {
        PairingStaysBounded(entries, events[0].source, events[0].now);
      } else {
        FewerSources(Apply(entries, events[0]), entries);
      }
      CapacityHolds(Apply(entries, events[0]), events[1..]);
    }
  }

  // ----- a source's entry outlives everyone else's attempts

  /** Every event of the run concerns other keys, and happens before `until`. */
  ghost predicate Elsewhere(events: seq<Event>, key: Key, until: int) {
    forall e :: e in events ==>
      if e.Attempt? then Source(e.source) != key && e.now < until else e.key != key
  }

  lemma {:induction false} SourceEntrySurvives(entries: Entries, events: seq<Event>, clock: int, key: Key)
    requires key.Source? && key in entries && entries[key].lastSeen <= clock && Timed(events, clock)
    requires Elsewhere(events, key, entries[key].lastSeen + AUTH_FAILURE_TTL)
    ensures key in Execute(entries, events) && Execute(entries, events)[key] == entries[key]
    decreases |events|
  {
    if events != [] {
      var e := events[0];
      assert e in events;
      if e.Attempt? {
        OtherSourcesUnharmed(entries, e.source, e.now, key);
      }
      SourceEntrySurvives(Apply(entries, e), events[1..], ClockAfter(e, clock), key);
    }
  }

  /**
   * The advertised wait is exact to the second, whatever other sources do meanwhile: a source
   * refused at `now` is refused again until less than a second short of it, and admitted from
   * then until its entry would have expired.
   */
  lemma RetryAfterIsHonest(entries: Entries, source: string, now: int, events: seq<Event>, later: int)
    requires Source(source) in entries && BeginPairing(entries, source, now).1.Refused?
    requires Timed(events, now) && Elsewhere(events, Source(source), later + 1)
    requires now <= later < now + AUTH_FAILURE_TTL
    ensures var (after, outcome) := BeginPairing(entries, source, now);
      var again := BeginPairing(Execute(after, events), source, later).1;
      && (later >= now + Seconds(outcome.retryAfter) ==> again == Admitted(Source(source)))
      && (later <= now + Seconds(outcome.retryAfter - 1) ==> again.Refused?)
  {
    var (after, outcome) := BeginPairing(entries, source, now);
    SourceEntrySurvives(after, events, now, Source(source));
  }

  /** Seconds to wait after the first, second, and further failures in a row. */
  const WAITS: seq<int> := [1, 2, 4, 8, 16, 32, 60]

  /**
   * What an admitted attempt of a tracked source leaves: one more failure and its wait, or, when it
   * was last seen at least 15 minutes ago, the first failure again.
   */
  lemma WaitsGrow(entries: Entries, source: string, now: int)
    requires Source(source) in entries && entries[Source(source)].failures <= 7
    requires BeginPairing(entries, source, now).1.Admitted?
    ensures var was := entries[Source(source)];
      var failures :=
        if now - was.lastSeen >= Seconds(900) then 1 else if was.failures == 7 then 7 else was.failures + 1;
      BeginPairing(entries, source, now).0
        == entries[Source(source) := FailureState(failures, now + Seconds(WAITS[failures - 1]), now, now)]
  {
    Backoffs();
  }

  /** An attempt of a tracked source is refused exactly while its wait lasts and it was seen within 15 minutes. */
  lemma RefusedExactly(entries: Entries, source: string, now: int)
    requires Source(source) in entries
    ensures var was := entries[Source(source)];
      BeginPairing(entries, source, now).1.Refused?
      <==> now < was.blockedUntil && now - was.lastSeen < Seconds(900)
  {
  }

  // ----- a success

  /** The table is full even without the source, and its overflow bucket is waiting. */
  predicate CrowdedOut(entries: Entries, now: int) {
    && |entries| >= AUTH_FAILURE_CAPACITY && Overflow in entries
    && !Expired(entries[Overflow], now) && entries[Overflow].blockedUntil > now
  }

  /**
   * A success of the latest attempt forgets its failures. The next attempt of that source is then
   * admitted, at any time, exactly unless it finds the table full and the overflow bucket waiting.
   */
  lemma SuccessForgets(entries: Entries, source: string, now: int, later: int)
    requires BeginPairing(entries, source, now).1.Admitted?
    ensures var (after, outcome) := BeginPairing(entries, source, now);
      var cleared := Cleared(after, outcome.key, now);
      && outcome.key in after && cleared == after - {outcome.key}
      && (BeginPairing(cleared, source, later).1.Admitted? <==> !CrowdedOut(cleared, later))
  {
    OwnAttempt(entries, source, now);
    var (after, outcome) := BeginPairing(entries, source, now);
    LatestIsCleared(entries, source, now);
    assert Source(source) !in Cleared(after, outcome.key, now);
    UntrackedAdmittedExactly(Cleared(after, outcome.key, now), source, later);
  }

  lemma AdmittedIsRecorded(entries: Entries, key: Key, now: int)
    ensures BeginAttempt(entries, key, now).1.Admitted? ==>
      var (after, outcome) := BeginAttempt(entries, key, now);
      outcome.key == key && key in after && after[key].lastFailure == now
  {
  }

  lemma LatestIsCleared(entries: Entries, source: string, now: int)
    requires BeginPairing(entries, source, now).1.Admitted?
    ensures var (after, outcome) := BeginPairing(entries, source, now);
      && outcome.key in after && after[outcome.key].lastFailure == now
      && (outcome.key == Source(source) || (outcome.key == Overflow && Source(source) !in after))
  {
    if Source(source) in entries || |entries| < AUTH_FAILURE_CAPACITY {
      AdmittedIsRecorded(entries, Source(source), now);
    } else {
      var kept := DropIfExpired(entries, Overflow, now);
      var live := ExpireEntries(if Overflow in kept then Touched(kept, Overflow, now) else kept, now);
      AdmittedIsRecorded(live, Overflow, now);
      AdmittedIsRecorded(live - {Overflow}, Source(source), now);
    }
  }

  lemma UntrackedAdmittedExactly(entries: Entries, source: string, now: int)
    requires Source(source) !in entries
    ensures BeginPairing(entries, source, now).1.Admitted? <==> !CrowdedOut(entries, now)
  {
  }

  /** A success that is not of the latest attempt under its key changes nothing. */
  lemma StaleSuccessForgetsNothing(entries: Entries, key: Key, first: int, second: int)
    requires key in entries && entries[key].lastFailure == second && first != second
    ensures Cleared(entries, key, first) == entries
  {
  }

  // ----- the bound is reached

  /** When the attempt after `j` others is first due, if every attempt is made as early as allowed. */
  function EagerTime(j: nat): int { Seconds(60 * j - Shortfall(Min(j, 7))) }

  function EagerRun(ip: string, j: nat, n: nat): seq<Event>
    requires j <= n
    decreases n - j
  {
    if j == n then [] else [Attempt(ip, EagerTime(j))] + EagerRun(ip, j + 1, n)
  }

  function EagerEntries(ip: string, j: nat): Entries {
    if j == 0 then map[]
    else map[Source(ip) := FailureState(Min(j, 7), EagerTime(j), EagerTime(j - 1), EagerTime(j - 1))]
  }

  lemma EagerGap(j: nat)
    ensures EagerTime(j + 1) == EagerTime(j) + Seconds(BackoffSecs(Min(j + 1, 7)))
  {
    Backoffs();
  }

  lemma EagerStep(ip: string, j: nat)
    ensures BeginPairing(EagerEntries(ip, j), ip, EagerTime(j)) == (EagerEntries(ip, j + 1), Admitted(Source(ip)))
  {
    EagerGap(j);
    var now := EagerTime(j);
    var s := if j == 0 then FailureState(0, now, now, now) else EagerEntries(ip, j)[Source(ip)];
    assert NextState(s, now) == EagerEntries(ip, j + 1)[Source(ip)];
    if j > 0 {
      Backoffs();
      EagerGap(j - 1);
      assert !Expired(s, now);
    }
    assert RecordEntry(EagerEntries(ip, j), Source(ip), now) == EagerEntries(ip, j + 1);
  }

  lemma SlowestPace(n: nat)
    requires n >= 6
    ensures EagerTime(n) - EagerTime(0) == Due(n)
  {
    Backoffs();
    assert Shortfall(2) == 117;
    assert Shortfall(4) == 225;
    assert Shortfall(6) == 297;
  }

  lemma AdmittedHead(entries: Entries, ip: string, now: int, rest: seq<Event>, next: Entries, key: Key)
    requires BeginPairing(entries, ip, now) == (next, Admitted(key))
    ensures AdmittedTimes(entries, [Attempt(ip, now)] + rest, key) == [now] + AdmittedTimes(next, rest, key)
  {
    var events := [Attempt(ip, now)] + rest;
    assert events[1..] == rest;
  }

  function EagerTimes(j: nat, n: nat): seq<int>
    requires j <= n
    decreases n - j
  {
    if j == n then [] else [EagerTime(j)] + EagerTimes(j + 1, n)
  }

  /**
   * Every attempt of the eager run from an empty table is admitted; between its first and its
   * n-th further admission, n >= 6, lies exactly the bound above.
   */
  lemma {:induction false} PacingIsReached(ip: string, j: nat, n: nat)
    requires j <= n
    ensures AdmittedTimes(EagerEntries(ip, j), EagerRun(ip, j, n), Source(ip)) == EagerTimes(j, n)
    ensures n >= 6 ==> EagerTime(n) - EagerTime(0) == Due(n)
    decreases n - j
  {
    if n >= 6 { SlowestPace(n); }
    if j < n {
      EagerStep(ip, j);
      PacingIsReached(ip, j + 1, n);
      AdmittedHead(EagerEntries(ip, j), ip, EagerTime(j), EagerRun(ip, j + 1, n), EagerEntries(ip, j + 1), Source(ip));
    }
  }
}
