/** The authentication part of the database object: each method is one transaction. */
module AuthDb {
  import opened Outcomes
  import opened AuthStore

  class AuthDb {
    var admin: Option<Admin>
    var setup: Option<SetupToken>
    var sessions: map<string, Session>
    var pairings: map<string, PairingCode>

    function State(): AuthTables
      reads this
    {
      AuthTables(admin, setup, sessions, pairings)
    }

    constructor ()
      ensures State() == AuthTables(None, None, map[], map[])
    {
      admin, setup, sessions, pairings := None, None, map[], map[];
    }

    method ReplaceAdminPassword(username: string, hash: string, now: int)
      modifies this
      ensures State() == AuthStore.ReplaceAdminPassword(old(State()), username, hash, now)
      ensures forall id :: id in sessions ==> sessions[id].revokedAt.Some?
      ensures forall id :: id in pairings ==> pairings[id].usedAt.Some?
    {
      if admin.Some? {
        admin := Some(Admin(username, hash, admin.value.version + 1));
      }
      sessions := map id | id in sessions :: RevokeUnrevoked(sessions[id], now);
      pairings := map id | id in pairings :: UseUnused(pairings[id], now);
    }

    method StoreSetupTokenIfNoAdmin(hash: string, expiresAt: int) returns (stored: bool)
      modifies this
      ensures (State(), stored) == AuthStore.StoreSetupTokenIfNoAdmin(old(State()), hash, expiresAt)
    {
      if admin.Some? {
        return false;
      }
      setup := Some(SetupToken(hash, expiresAt, None));
      return true;
    }

    method InvalidateSetupTokenIfMatches(hash: string, now: int) returns (changed: bool)
      modifies this
      ensures (State(), changed) == InvalidateSetupToken(old(State()), hash, now)
    {
      if !SetupHashMatches(State(), hash) {
        return false;
      }
      setup := Some(SetupToken("", 0, Some(now)));
      return true;
    }

    method ConsumeSetupAndCreateAdminAndSession(hash: string, now: int, username: string, passwordHash: string,
        s: Session)
      returns (r: Result<bool>)
      modifies this
      ensures var spec := ConsumeSetup(old(State()), hash, now, username, passwordHash, s);
        if spec.Ok? then r == Ok(spec.value.1) && State() == spec.value.0
          else r == Err(spec.error) && State() == old(State())
    {
      if s.username != username || s.role != Administrator || s.kind != Standard || s.authMethod != Password {
        return Err(InvalidCommand);
      }
      if !SetupTokenIsValid(State(), hash, now) {
        return Ok(false);
      }
      if !SessionInsertable(State(), s) {
        return Err(Storage);
      }
      setup := Some(setup.value.(usedAt := Some(now)));
      admin := Some(Admin(username, passwordHash, 1));
      sessions := sessions[s.id := s];
      return Ok(true);
    }

    method InsertStandardSessionIfAdminVersion(s: Session, version: int) returns (r: Result<bool>)
      modifies this
      ensures var spec := AuthStore.InsertStandardSessionIfAdminVersion(old(State()), s, version);
        if spec.Ok? then r == Ok(spec.value.1) && State() == spec.value.0
          else r == Err(spec.error) && State() == old(State())
    {
      var credentialsUnchanged := admin.Some? && admin.value.username == s.username && admin.value.version == version;
      if !credentialsUnchanged || s.kind != Standard || s.role != Administrator || s.authMethod != Password {
        return Ok(false);
      }
      if !SessionInsertable(State(), s) {
        return Err(Storage);
      }
      sessions := sessions[s.id := s];
      return Ok(true);
    }

    method TouchSessionIfActiveThrottled(c: Caller, now: int, interval: int) returns (active: bool)
      modifies this
      ensures (State(), active) == TouchSession(old(State()), c, now, interval)
    {
      if SessionIsActive(State(), c, now) && sessions[c.id].lastSeen <= now - interval {
        var s := sessions[c.id];
        var idle := if s.kind == Standard then Some(now + STANDARD_IDLE_SECS) else None;
        sessions := sessions[c.id := s.(lastSeen := now, idleExpiresAt := idle)];
        return true;
      }
      return SessionIsActive(State(), c, now);
    }

    method RevokeSession(id: string, now: int) returns (changed: bool)
      modifies this
      ensures (State(), changed) == AuthStore.RevokeSession(old(State()), id, now)
    {
      if id in sessions && sessions[id].revokedAt.None? {
        sessions := sessions[id := sessions[id].(revokedAt := Some(now))];
        return true;
      }
      return false;
    }

    method InsertPairingIfAuthorized(id: string, codeHash: string, role: Role, expiresAt: int, c: Caller, now: int,
        expected: Option<int>)
      returns (r: Result<bool>)
      modifies this
      ensures var spec := InsertPairing(old(State()), id, codeHash, role, expiresAt, c, now, expected);
        if spec.Ok? then r == Ok(spec.value.1) && State() == spec.value.0
          else r == Err(spec.error) && State() == old(State())
    {
      var authorized := SessionIsActive(State(), c, now) && c.role == Administrator
                        && (expected.None? || (admin.Some? && admin.value.version == expected.value));
      if !authorized {
        return Ok(false);
      }
      if id in pairings || exists k :: k in pairings && pairings[k].codeHash == codeHash {
        return Err(Storage);
      }
      pairings := pairings[id := PairingCode(id, codeHash, role, c.id, now, expiresAt, None)];
      return Ok(true);
    }

    /**
     * Consumes the pairing with the code: at most one matches, and only an eligible one is
     * used, exactly together with the insertion of its session.
     */
    method ConsumePairingAndInsertSession(codeHash: string, now: int, id: string, tokenHash: string)
      returns (r: Result<Option<Session>>)
      requires CodeHashesUnique(State())
      modifies this
      ensures r == Ok(None) ==> State() == old(State()) && forall k :: !PairingFor(old(State()), codeHash, now, k)
      ensures r.Err? ==> State() == old(State())
      ensures r.Ok? && r.value.Some? ==>
        exists k :: PairingFor(old(State()), codeHash, now, k)
          && ConsumePairingAt(old(State()), k, now, id, tokenHash) == Ok((State(), r.value))
    {
      if !exists k :: k in pairings && pairings[k].codeHash == codeHash && PairingEligible(State(), pairings[k], now) {
        return Ok(None);
      }
      var k :| k in pairings && pairings[k].codeHash == codeHash && PairingEligible(State(), pairings[k], now);
      assert PairingFor(old(State()), codeHash, now, k);
      var p := pairings[k];
      var s := PairedSession(id, tokenHash, sessions[p.creator], p.role, now);
      if !SessionInsertable(State(), s) {
        return Err(Storage);
      }
      sessions := sessions[id := s];
      pairings := pairings[k := p.(usedAt := Some(now))];
      return Ok(Some(s));
    }
  }
}
