/** The failure limiter that paces pairing attempts: its table, and one attempt against it. */
module PairingLimiter {
  import opened Int64
  import opened Outcomes

  const AUTH_FAILURE_CAPACITY := 1024
  const AUTH_BACKOFF_MAX_SECS := 60
  const AUTH_FAILURE_TTL := Seconds(15 * 60)

  /** Instants are counted in nanoseconds. */
  function Seconds(n: int): int { n * 1_000_000_000 }

  datatype Key = Source(ip: string) | Overflow

  datatype FailureState = FailureState(failures: nat, blockedUntil: int, lastFailure: int, lastSeen: int)

  type Entries = map<Key, FailureState>

  /** An attempt is admitted under a key, or refused with the seconds to wait. */
  datatype Admission = Admitted(key: Key) | Refused(retryAfter: nat)

  /** Elapsed time, zero when the clock reads earlier. */
  function Since(now: int, earlier: int): (d: nat) {
    if now >= earlier then now - earlier else 0
  }

  function PowerOfTwo(n: nat): nat {
    if n == 0 then 1 else 2 * PowerOfTwo(n - 1)
  }

  function BackoffSecs(failures: nat): nat
    requires failures >= 1
  {
    Min(PowerOfTwo(failures - 1), AUTH_BACKOFF_MAX_SECS)
  }

  /** The time left, in whole seconds rounded up. */
  function RetryAfterSeconds(blockedUntil: int, now: int): (secs: nat)
    ensures blockedUntil > now ==> Seconds(secs - 1) < blockedUntil - now <= Seconds(secs)
  {
    var remaining := Since(blockedUntil, now);
    remaining / 1_000_000_000 + if remaining % 1_000_000_000 != 0 then 1 else 0
  }

  predicate Expired(s: FailureState, now: int) {
    Since(now, s.lastSeen) >= AUTH_FAILURE_TTL
  }

  function ExpireEntries(entries: Entries, now: int): Entries {
    map k | k in entries && !Expired(entries[k], now) :: entries[k]
  }

  function DropIfExpired(entries: Entries, key: Key, now: int): Entries {
    if key in entries && Expired(entries[key], now) then entries - {key} else entries
  }

  /** The state after one more failure at `now`. */
  function NextState(s: FailureState, now: int): FailureState {
    var failures := Min(s.failures + 1, 7);
    FailureState(failures, now + Seconds(BackoffSecs(failures)), now, now)
  }

  function RecordEntry(entries: Entries, key: Key, now: int): Entries {
    entries[key := NextState(if key in entries then entries[key] else FailureState(0, now, now, now), now)]
  }

  /** A refusal still counts as being seen. */
  function Touched(entries: Entries, key: Key, now: int): Entries
    requires key in entries
  {
    entries[key := entries[key].(lastSeen := now)]
  }

  function BeginAttempt(entries: Entries, key: Key, now: int): (Entries, Admission) {
    var kept := DropIfExpired(entries, key, now);
    if key in kept && kept[key].blockedUntil > now then
      (Touched(kept, key, now), Refused(RetryAfterSeconds(kept[key].blockedUntil, now)))
    else
      (RecordEntry(kept, key, now), Admitted(key))
  }

  function TrackedSources(entries: Entries): set<Key> {
    set k | k in entries && k.Source?
  }

  /** The table was full: the attempt shares the overflow bucket unless expiry frees a place. */
  function BeginCrowded(entries: Entries, source: string, now: int): (Entries, Admission) {
    var kept := DropIfExpired(entries, Overflow, now);
    if Overflow in kept && kept[Overflow].blockedUntil > now then
      (Touched(kept, Overflow, now), Refused(RetryAfterSeconds(kept[Overflow].blockedUntil, now)))
    else
      var seen := if Overflow in kept then Touched(kept, Overflow, now) else kept;
      var live := ExpireEntries(seen, now);
      if |TrackedSources(live)| < AUTH_FAILURE_CAPACITY then
        BeginAttempt(live - {Overflow}, Source(source), now)
      else
        BeginAttempt(live, Overflow, now)
  }

  function BeginPairing(entries: Entries, source: string, now: int): (Entries, Admission) {
    if Source(source) in entries || |entries| < AUTH_FAILURE_CAPACITY then
      BeginAttempt(entries, Source(source), now)
    else
      BeginCrowded(entries, source, now)
  }

  /** A success forgets the failures only if no later attempt was recorded under the key. */
  function Cleared(entries: Entries, key: Key, startedAt: int): Entries {
    if key in entries && entries[key].lastFailure == startedAt then entries - {key} else entries
  }

  class FailureLimiter {
    var entries: Entries

    constructor ()
      ensures entries == map[]
    {
      entries := map[];
    }

    method BeginFailureAttempt(key: Key, now: int) returns (outcome: Admission)
      modifies this
      ensures (entries, outcome) == BeginAttempt(old(entries), key, now)
    {
      if key in entries && Expired(entries[key], now) {
        entries := entries - {key};
      }
      if key in entries {
        entries := entries[key := entries[key].(lastSeen := now)];
        if entries[key].blockedUntil > now {
          return Refused(RetryAfterSeconds(entries[key].blockedUntil, now));
        }
      }
      ghost var kept := DropIfExpired(old(entries), key, now);
      assert key in kept ==> entries == kept[key := kept[key].(lastSeen := now)];
      RecordFailure(key, now);
      assert entries == RecordEntry(kept, key, now);
      return Admitted(key);
    }

    method RecordFailure(key: Key, now: int)
      modifies this
      ensures entries == RecordEntry(old(entries), key, now)
    {
      if key !in entries {
        entries := entries[key := FailureState(0, now, now, now)];
      }
      var state := entries[key];
      state := state.(failures := Min(state.failures + 1, 7));
      state := state.(blockedUntil := now + Seconds(BackoffSecs(state.failures)));
      state := state.(lastFailure := now, lastSeen := now);
      entries := entries[key := state];
    }

    method BeginPairingAttempt(source: string, now: int) returns (outcome: Admission)
      modifies this
      ensures (entries, outcome) == BeginPairing(old(entries), source, now)
    {
      var key := Source(source);
      if Source(source) !in entries && |entries| >= AUTH_FAILURE_CAPACITY {
        if Overflow in entries && Expired(entries[Overflow], now) {
          entries := entries - {Overflow};
        }
        if Overflow in entries {
          entries := entries[Overflow := entries[Overflow].(lastSeen := now)];
          if entries[Overflow].blockedUntil > now {
            return Refused(RetryAfterSeconds(entries[Overflow].blockedUntil, now));
          }
        }
        entries := map k | k in entries && !Expired(entries[k], now) :: entries[k];
        if |TrackedSources(entries)| < AUTH_FAILURE_CAPACITY {
          entries := entries - {Overflow};
        } else {
          key := Overflow;
        }
      }
      outcome := BeginFailureAttempt(key, now);
    }

    method ClearIfLatest(key: Key, startedAt: int)
      modifies this
      ensures entries == Cleared(old(entries), key, startedAt)
    {
      if key in entries && entries[key].lastFailure == startedAt {
        entries := entries - {key};
      }
    }
  }
}
