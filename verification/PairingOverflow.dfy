/** What the overflow bucket promises a source that the full table has no place for. */
module PairingOverflow {
  import opened Int64
  import opened Outcomes
  import opened PairingLimiter
  import opened PairingBackoff

  /** The table has no entry for the source and no place for one. */
  predicate Crowded(entries: Entries, source: string) {
    Source(source) !in entries && |entries| >= AUTH_FAILURE_CAPACITY
  }

  // ----- while the bucket is blocked

  ghost predicate AllBefore(events: seq<Event>, until: int) {
    forall e :: e in events ==> e.Attempt? ==> e.now < until
  }

  lemma BlockedIsLive(s: FailureState, clock: int, now: int)
    requires ValidState(s, clock) && now < s.blockedUntil
    ensures !Expired(s, now)
  {
    Backoffs();
  }

  /** Before its wait ends, no attempt changes when the bucket is due. */
  lemma BlockedStepHolds(entries: Entries, e: Event, clock: int)
    requires Valid(entries, clock) && clock <= ClockAfter(e, clock) && Overflow in entries
    requires e.Attempt? ==> e.now < entries[Overflow].blockedUntil
    requires e.Clear? && e.key == Overflow ==> Apply(entries, e) == entries
    ensures Overflow in Apply(entries, e) && Apply(entries, e)[Overflow].blockedUntil == entries[Overflow].blockedUntil
  {
    if e.Attempt? {
      BlockedIsLive(entries[Overflow], clock, e.now);
    }
  }

  lemma {:induction false} BlockedHolds(entries: Entries, events: seq<Event>, clock: int)
    requires Valid(entries, clock) && Timed(events, clock) && Overflow in entries
    requires AllBefore(events, entries[Overflow].blockedUntil) && NeverCleared(entries, events, Overflow)
    ensures var reached := Execute(entries, events);
      Overflow in reached && reached[Overflow].blockedUntil == entries[Overflow].blockedUntil
    decreases |events|
  {
    if events != [] {
      assert events[0] in events;
      BlockedStepHolds(entries, events[0], clock);
      EventStaysValid(entries, events[0], clock);
      BlockedHolds(Apply(entries, events[0]), events[1..], ClockAfter(events[0], clock));
    }
  }

  lemma {:induction false} RunsStayValid(entries: Entries, events: seq<Event>, clock: int, later: int)
    requires Valid(entries, clock) && Timed(events, clock) && clock <= later && AllBefore(events, later + 1)
    ensures Valid(Execute(entries, events), later)
    decreases |events|
  {
    if events != [] {
      assert events[0] in events;
      EventStaysValid(entries, events[0], clock);
      RunsStayValid(Apply(entries, events[0]), events[1..], ClockAfter(events[0], clock), later);
    }
  }

  /**
   * A source refused through the bucket is refused again until less than a second before the
   * advertised wait ends, exactly as long as the table is full: when a place becomes free it is
   * admitted under its own key.
   */
  lemma OverflowRefusalLasts(entries: Entries, clock: int, source: string, now: int, events: seq<Event>, later: int)
    requires Valid(entries, clock) && clock <= now && Crowded(entries, source)
    requires BeginPairing(entries, source, now).1.Refused?
    requires now <= later <= now + Seconds(BeginPairing(entries, source, now).1.retryAfter - 1)
    requires var after := BeginPairing(entries, source, now).0;
      Timed(events, now) && AllBefore(events, later + 1) && NeverCleared(after, events, Overflow)
    requires Source(source) !in Execute(BeginPairing(entries, source, now).0, events)
    ensures var reached := Execute(BeginPairing(entries, source, now).0, events);
      BeginPairing(reached, source, later).1.Refused? <==> |reached| >= AUTH_FAILURE_CAPACITY
  {
    var (after, outcome) := BeginPairing(entries, source, now);
    RefusedThroughBucket(entries, clock, source, now);
    PairingStaysValid(entries, source, now, clock);
    assert AllBefore(events, after[Overflow].blockedUntil);
    BlockedHolds(after, events, now);
    RunsStayValid(after, events, now, later);
    var reached := Execute(after, events);
    BlockedIsLive(reached[Overflow], later, later);
  }

  lemma RefusedThroughBucket(entries: Entries, clock: int, source: string, now: int)
    requires Valid(entries, clock) && clock <= now && Crowded(entries, source)
    requires BeginPairing(entries, source, now).1.Refused?
    ensures var (after, outcome) := BeginPairing(entries, source, now);
      && Overflow in after && now < after[Overflow].blockedUntil
      && outcome.retryAfter == RetryAfterSeconds(after[Overflow].blockedUntil, now)
      && now + Seconds(outcome.retryAfter - 1) < after[Overflow].blockedUntil <= now + Seconds(outcome.retryAfter)
  {
    var live := ExpireEntries(if Overflow in DropIfExpired(entries, Overflow, now)
                              then Touched(DropIfExpired(entries, Overflow, now), Overflow, now)
                              else DropIfExpired(entries, Overflow, now), now);
    assert Source(source) !in live - {Overflow};
  }

  // ----- after the wait

  /** Unless an attempt was admitted under the bucket, it is due when it was, or gone. */
  ghost predicate DueBy(entries: Entries, until: int) {
    Overflow in entries ==> entries[Overflow].blockedUntil == until
  }

  lemma StepKeepsDue(entries: Entries, e: Event, until: int)
    requires DueBy(entries, until) && !AdmittedUnder(entries, e, Overflow)
    ensures DueBy(Apply(entries, e), until)
  {
  }

  lemma {:induction false} RunsKeepDue(entries: Entries, events: seq<Event>, until: int)
    requires DueBy(entries, until) && AdmittedTimes(entries, events, Overflow) == []
    ensures DueBy(Execute(entries, events), until)
    decreases |events|
  {
    if events != [] {
      StepKeepsDue(entries, events[0], until);
      RunsKeepDue(Apply(entries, events[0]), events[1..], until);
    }
  }

  /** From the end of the wait on, the source is admitted unless the bucket admitted another attempt meanwhile. */
  lemma OverflowWaitEnds(entries: Entries, clock: int, source: string, now: int, events: seq<Event>, later: int)
    requires Valid(entries, clock) && clock <= now && Crowded(entries, source)
    requires BeginPairing(entries, source, now).1.Refused?
    requires later >= now + Seconds(BeginPairing(entries, source, now).1.retryAfter)
    requires AdmittedTimes(BeginPairing(entries, source, now).0, events, Overflow) == []
    requires Source(source) !in Execute(BeginPairing(entries, source, now).0, events)
    ensures BeginPairing(Execute(BeginPairing(entries, source, now).0, events), source, later).1.Admitted?
  {
    var (after, outcome) := BeginPairing(entries, source, now);
    RefusedThroughBucket(entries, clock, source, now);
    RunsKeepDue(after, events, after[Overflow].blockedUntil);
    UnblockedIsAdmitted(Execute(after, events), source, later);
  }

  lemma UnblockedIsAdmitted(entries: Entries, source: string, now: int)
    requires Source(source) !in entries && (Overflow in entries ==> entries[Overflow].blockedUntil <= now)
    ensures BeginPairing(entries, source, now).1.Admitted?
  {
  }

  // ----- the wait can be extended

  /** `n` different addresses. */
  function Address(n: nat): string { seq(n, i => 'a') }

  /** Attempts of the first `n` addresses at time 0. */
  function Fill(n: nat): seq<Event> {
    if n == 0 then [] else Fill(n - 1) + [Attempt(Address(n - 1), 0)]
  }

  lemma {:induction false} ExecuteAppend(entries: Entries, events: seq<Event>, e: Event)
    ensures Execute(entries, events + [e]) == Apply(Execute(entries, events), e)
    decreases |events|
  {
    if events == [] {
      assert events + [e] == [e] && [e][1..] == [];
    } else {
      assert (events + [e])[1..] == events[1..] + [e];
      ExecuteAppend(Apply(entries, events[0]), events[1..], e);
    }
  }

  const FIRST := FailureState(1, Seconds(1), 0, 0)

  /** Exactly the first `n` addresses are tracked, each after one failure at time 0. */
  ghost predicate HoldsAddresses(entries: Entries, n: nat) {
    && |entries| == n
    && (forall k :: k in entries <==> k.Source? && |k.ip| < n && k.ip == Address(|k.ip|))
    && forall k :: k in entries ==> entries[k] == FIRST
  }

  lemma OneMoreAddress(entries: Entries, n: nat)
    requires HoldsAddresses(entries, n) && n < AUTH_FAILURE_CAPACITY
    ensures HoldsAddresses(Apply(entries, Attempt(Address(n), 0)), n + 1)
  {
    var key := Source(Address(n));
    var r := Apply(entries, Attempt(Address(n), 0));
    assert |Address(n)| == n && key !in entries;
    assert PowerOfTwo(0) == 1 && BackoffSecs(1) == 1;
    assert r == entries[key := FIRST];
    assert r.Keys == entries.Keys + {key};
    forall k ensures k in r <==> k.Source? && |k.ip| < n + 1 && k.ip == Address(|k.ip|) {
      if k.Source? && |k.ip| == n && k.ip == Address(|k.ip|) {
        assert k == key;
      }
    }
  }

  lemma {:induction false} FilledIsFull(start: Entries, n: nat)
    requires start == map[] && n <= AUTH_FAILURE_CAPACITY
    ensures HoldsAddresses(Execute(start, Fill(n)), n)
  {
    if n > 0 {
      FilledIsFull(start, n - 1);
      ExecuteAppend(start, Fill(n - 1), Attempt(Address(n - 1), 0));
      OneMoreAddress(Execute(start, Fill(n - 1)), n - 1);
    }
  }

  /** A table of live sources only, all seen at time 0, as seen within the expiry time. */
  lemma FullStaysFull(entries: Entries, now: int, source: string)
    requires 0 <= now < AUTH_FAILURE_TTL && Source(source) !in entries
    requires |TrackedSources(entries)| == AUTH_FAILURE_CAPACITY && forall k :: k in entries ==> entries[k].lastSeen == 0
    ensures var blocked := Overflow in entries && entries[Overflow].blockedUntil > now;
      BeginPairing(entries, source, now) ==
        if blocked then (Touched(entries, Overflow, now),
          Refused(RetryAfterSeconds(entries[Overflow].blockedUntil, now)))
        else (RecordEntry(if Overflow in entries then Touched(entries, Overflow, now) else entries, Overflow, now),
          Admitted(Overflow))
  {
    SubsetSize(TrackedSources(entries), entries.Keys);
    var seen := if Overflow in entries then Touched(entries, Overflow, now) else entries;
    assert ExpireEntries(seen, now) == seen;
    assert TrackedSources(seen) == TrackedSources(entries);
  }

  /**
   * Reached from an empty table: 1024 sources fill it and one more opens the bucket. The next is
   * refused for one second; when that is over another comes first, and it is refused again.
   */
  lemma OverflowWaitIsExtended(start: Entries, n: nat)
    requires start == map[] && n == AUTH_FAILURE_CAPACITY
    ensures var full := Execute(start, Fill(n));
      var shared := Apply(full, Attempt("b", 0));
      var late := Attempt("d", Seconds(1));
      && BeginPairing(full, "b", 0).1 == Admitted(Overflow)
      && BeginPairing(shared, "c", 0).1 == Refused(1)
      && AdmittedUnder(Apply(shared, Attempt("c", 0)), late, Overflow)
      && BeginPairing(Apply(Apply(shared, Attempt("c", 0)), late), "c", Seconds(1)).1.Refused?
  {
    FilledIsFull(start, n);
    var full := Execute(start, Fill(n));
    Strangers();
    assert TrackedSources(full) == full.Keys;
    ExtendedFrom(full, "b", "c", "d");
  }

  lemma Strangers()
    ensures forall n: nat :: Address(n) != "b" && Address(n) != "c" && Address(n) != "d"
  {
    forall n: nat ensures Address(n) != "b" && Address(n) != "c" && Address(n) != "d" {
      assert n == 1 ==> Address(n)[0] == 'a';
    }
  }

  lemma ExtendedFrom(full: Entries, a: string, b: string, c: string)
    requires |TrackedSources(full)| == AUTH_FAILURE_CAPACITY && Overflow !in full
    requires forall k :: k in full ==> full[k] == FIRST
    requires Source(a) !in full && Source(b) !in full && Source(c) !in full
    ensures var shared := Apply(full, Attempt(a, 0));
      var late := Attempt(c, Seconds(1));
      && BeginPairing(full, a, 0).1 == Admitted(Overflow)
      && BeginPairing(shared, b, 0).1 == Refused(1)
      && AdmittedUnder(Apply(shared, Attempt(b, 0)), late, Overflow)
      && BeginPairing(Apply(Apply(shared, Attempt(b, 0)), late), b, Seconds(1)).1.Refused?
  {
    FullStaysFull(full, 0, a);
    var shared := Apply(full, Attempt(a, 0));
    assert PowerOfTwo(0) == 1 && BackoffSecs(1) == 1;
    assert shared == full[Overflow := FIRST];
    assert TrackedSources(shared) == TrackedSources(full);
    FullStaysFull(shared, 0, b);
    var refused := Apply(shared, Attempt(b, 0));
    assert refused == shared;
    FullStaysFull(refused, Seconds(1), c);
    var extended := Apply(refused, Attempt(c, Seconds(1)));
    ExtendedIsBlocked(refused, extended, b);
  }

  lemma ExtendedIsBlocked(refused: Entries, extended: Entries, b: string)
    requires Overflow in refused && refused[Overflow] == FIRST && Source(b) !in refused
    requires |TrackedSources(refused)| == AUTH_FAILURE_CAPACITY
    requires extended == RecordEntry(Touched(refused, Overflow, Seconds(1)), Overflow, Seconds(1))
    ensures BeginPairing(extended, b, Seconds(1)).1.Refused?
  {
    Backoffs();
    SubsetSize(TrackedSources(extended), extended.Keys);
    assert TrackedSources(extended) == TrackedSources(refused);
    assert extended[Overflow].failures == 2;
  }

  /**
   * A success can leave its source worse off. Reached from an empty table: 1024 sources fill it and
   * one more opens the bucket; when one of the first succeeds its entry goes, the table is still full
   * counting the bucket, and its next attempt shares the bucket's wait.
   */
  lemma SuccessThenRefused(start: Entries, n: nat)
    requires start == map[] && n == AUTH_FAILURE_CAPACITY
    ensures var shared := Apply(Execute(start, Fill(n)), Attempt("b", 0));
      var cleared := Apply(shared, Clear(Source(Address(1)), 0));
      && Source(Address(1)) in shared && Source(Address(1)) !in cleared
      && BeginPairing(cleared, Address(1), 0).1 == Refused(1)
  {
    FilledIsFull(start, n);
    Strangers();
    var full := Execute(start, Fill(n));
    assert TrackedSources(full) == full.Keys;
    FullStaysFull(full, 0, "b");
    ClearedIsCrowded(full, Apply(full, Attempt("b", 0)), Source(Address(1)));
  }

  lemma ClearedIsCrowded(full: Entries, shared: Entries, key: Key)
    requires |full| == AUTH_FAILURE_CAPACITY && Overflow !in full && key.Source? && key in full && full[key] == FIRST
    requires shared == RecordEntry(full, Overflow, 0)
    ensures var cleared := Apply(shared, Clear(key, 0));
      key in shared && key !in cleared && BeginPairing(cleared, key.ip, 0).1 == Refused(1)
  {
    assert PowerOfTwo(0) == 1 && BackoffSecs(1) == 1;
    assert shared == full[Overflow := FIRST];
    var cleared := Apply(shared, Clear(key, 0));
    assert shared.Keys == full.Keys + {Overflow} && cleared.Keys == shared.Keys - {key};
    assert |cleared.Keys| == AUTH_FAILURE_CAPACITY;
  }
}
