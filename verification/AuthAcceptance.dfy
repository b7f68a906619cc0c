/** Which credential, session and pairing steps take effect, and what they then leave. */
module AuthAcceptance {
  import opened Int64
  import opened Outcomes
  import opened AuthStore
  import opened AuthSystem

  const HOUR := 3600
  const DAY := 86_400

  /** Neither the id nor the token hash is taken. */
  predicate Free(t: AuthTables, id: string, tokenHash: string) {
    id !in t.sessions && tokenHash !in set k | k in t.sessions :: t.sessions[k].tokenHash
  }

  lemma FreeIsInsertable(t: AuthTables, s: Session)
    ensures SessionInsertable(t, s) <==> Free(t, s.id, s.tokenHash)
  {
    var taken := set k | k in t.sessions :: t.sessions[k].tokenHash;
    forall k | k in t.sessions ensures t.sessions[k].tokenHash in taken {
    }
  }

  /** An active session: not revoked, not past its end, and not idle for too long. */
  predicate Live(s: Session, now: int) {
    && s.revokedAt == None && now < s.absoluteExpiresAt
    && (s.idleExpiresAt == None || now < s.idleExpiresAt.value)
  }

  /** The caller's session is in the table as it presents it, and active. */
  predicate CallerLive(t: AuthTables, c: Caller, now: int) {
    && c.id in t.sessions && Live(t.sessions[c.id], now)
    && (t.sessions[c.id].username, t.sessions[c.id].role, t.sessions[c.id].kind) == (c.username, c.role, c.kind)
  }

  /** A browser session created at `at`: idle after 12 hours, over after 7 days. */
  function BrowserSession(id: string, token: string, username: string, role: Role, m: Method, policy: Option<string>,
      at: int): Session
  {
    Session(id, token, username, role, Standard, m, policy, at, at, Some(at + 12 * HOUR), at + 7 * DAY, None)
  }

  // ----- logging in

  /**
   * A login takes effect exactly when the administrator still has the name and version it read and
   * the session's id and token are free; then it adds that administrator's session.
   */
  lemma LoginExactly(sys: System, step: Step)
    requires step.action.FinishLogin?
    ensures var a := step.action;
      var r := Apply(sys, step);
      if a.ticket in sys.logins && sys.db.admin.Some?
         && sys.db.admin.value.username == sys.logins[a.ticket].username
         && sys.db.admin.value.version == sys.logins[a.ticket].version && Free(sys.db, a.id, a.tokenHash)
      then r.db == sys.db.(sessions := sys.db.sessions[a.id :=
        BrowserSession(a.id, a.tokenHash, sys.logins[a.ticket].username, Administrator, Password, None, a.born)])
      else r == sys
  {
    var a := step.action;
    if a.ticket in sys.logins {
      FreeIsInsertable(sys.db,
                       NewStandardSession(a.id, a.tokenHash, sys.logins[a.ticket].username, Administrator, Password,
                                          None, a.born));
    }
  }

  /** An undisturbed login succeeds whenever there is an administrator, and its session is active. */
  lemma UndisturbedLoginSucceeds(sys: System, begin: Step, finish: Step, now: int)
    requires finish.action.FinishLogin? && begin.action == BeginLogin(finish.action.ticket) && sys.db.admin.Some?
    requires Free(sys.db, finish.action.id, finish.action.tokenHash)
    requires now < finish.action.born + 12 * HOUR
    ensures var r := Apply(Apply(sys, begin), finish);
      && finish.action.id in r.db.sessions && ActiveAt(r.db.sessions[finish.action.id], now)
      && r.db.sessions[finish.action.id].role == Administrator
  {
    LoginExactly(Apply(sys, begin), finish);
  }

  /** An OIDC login takes effect exactly when an administrator exists and its id and token are free. */
  lemma OidcLoginExactly(sys: System, step: Step)
    requires step.action.OidcLogin?
    ensures var a := step.action;
      var r := Apply(sys, step);
      if sys.db.admin.Some? && Free(sys.db, a.id, a.tokenHash)
      then r.db == sys.db.(sessions := sys.db.sessions[a.id :=
        BrowserSession(a.id, a.tokenHash, a.username, a.role, Oidc, Some(a.policy), a.born)])
      else r == sys
  {
    var a := step.action;
    FreeIsInsertable(sys.db, NewStandardSession(a.id, a.tokenHash, a.username, a.role, Oidc, Some(a.policy), a.born));
  }

  // ----- setting up

  /**
   * Setup takes effect exactly while there is no administrator, with the unused, unexpired token of
   * the table, and a free session; then token, administrator and session change together.
   */
  lemma SetupExactly(sys: System, step: Step)
    requires step.action.Setup?
    ensures var a := step.action;
      var r := Apply(sys, step);
      if sys.db.admin == None && sys.db.setup.Some? && sys.db.setup.value.hash == a.setupHash
         && sys.db.setup.value.usedAt == None && step.now < sys.db.setup.value.expiresAt
         && Free(sys.db, a.id, a.tokenHash)
      then r.db == AuthTables(
        Some(Admin(a.username, a.passwordHash, 1)),
        Some(SetupToken(a.setupHash, sys.db.setup.value.expiresAt, Some(step.now))),
        sys.db.sessions[a.id := BrowserSession(a.id, a.tokenHash, a.username, Administrator, Password, None, a.born)],
        sys.db.pairings)
      else r == sys
  {
    var a := step.action;
    FreeIsInsertable(sys.db, NewStandardSession(a.id, a.tokenHash, a.username, Administrator, Password, None, a.born));
  }

  /** Issuing replaces the token exactly while there is no administrator. */
  lemma IssuedExactly(sys: System, step: Step)
    requires step.action.IssueSetupToken?
    ensures var a, r := step.action, Apply(sys, step);
      if sys.db.admin == None then r.db == sys.db.(setup := Some(SetupToken(a.setupHash, a.expiresAt, None)))
      else r == sys
  {
  }

  /** Invalidating needs the hash of the unused token. */
  lemma InvalidatedExactly(sys: System, step: Step)
    requires step.action.InvalidateSetup?
    ensures var a, r := step.action, Apply(sys, step);
      if sys.db.setup.Some? && sys.db.setup.value.hash == a.setupHash && sys.db.setup.value.usedAt == None
      then r.db == sys.db.(setup := Some(SetupToken("", 0, Some(step.now))))
      else r == sys
  {
  }

  // ----- pairing

  predicate CodeFree(t: AuthTables, pairing: string, codeHash: string) {
    pairing !in t.pairings && codeHash !in set k | k in t.pairings :: t.pairings[k].codeHash
  }

  lemma CodeFreeMeaning(t: AuthTables, pairing: string, codeHash: string)
    ensures CodeFree(t, pairing, codeHash)
       <==> !(pairing in t.pairings || exists k :: k in t.pairings && t.pairings[k].codeHash == codeHash)
  {
    var taken := set k | k in t.pairings :: t.pairings[k].codeHash;
    forall k | k in t.pairings ensures t.pairings[k].codeHash in taken {
    }
  }

  /** What creating a code does to the tables, whatever the handler checked before. */
  lemma CodeInserted(t: AuthTables, id: string, codeHash: string, role: Role, c: Caller, now: int,
      expected: Option<int>)
    ensures var inserted := InsertPairing(t, id, codeHash, role, now + 600, c, now, expected);
      if CallerLive(t, c, now) && c.role == Administrator && CodeFree(t, id, codeHash)
         && (expected == None || (t.admin.Some? && Some(t.admin.value.version) == expected))
      then inserted == Ok((t.(pairings := t.pairings[id :=
        PairingCode(id, codeHash, role, c.id, now, now + 600, None)]), true))
      else inserted.Err? || inserted == Ok((t, false))
  {
    CodeFreeMeaning(t, id, codeHash);
  }

  /** A viewer's code is created exactly for the live session of an administrator; it is valid for ten minutes. */
  lemma ViewerCodeExactly(sys: System, step: Step)
    requires step.action.CreateViewerPairing?
    ensures var a, r := step.action, Apply(sys, step);
      if CallerLive(sys.db, a.caller, step.now) && a.caller.role == Administrator
         && CodeFree(sys.db, a.pairing, a.codeHash)
      then r.db == sys.db.(pairings := sys.db.pairings[a.pairing :=
        PairingCode(a.pairing, a.codeHash, Viewer, a.caller.id, step.now, step.now + 600, None)])
      else r == sys
  {
    CodeInserted(sys.db, step.action.pairing, step.action.codeHash, Viewer, step.action.caller, step.now, None);
  }

  /** An administrator's code needs the credential version that was read as well. */
  lemma AdminCodeExactly(sys: System, step: Step)
    requires step.action.CreateAdminPairing?
    ensures var a, r := step.action, Apply(sys, step);
      if CallerLive(sys.db, a.caller, step.now) && a.caller.role == Administrator
         && CodeFree(sys.db, a.pairing, a.codeHash) && a.ticket in sys.pairingReads
         && sys.db.admin.Some? && sys.db.admin.value.version == sys.pairingReads[a.ticket].version
      then r.db == sys.db.(pairings := sys.db.pairings[a.pairing :=
        PairingCode(a.pairing, a.codeHash, Administrator, a.caller.id, step.now, step.now + 600, None)])
      else r == sys
  {
    var a := step.action;
    if a.ticket in sys.pairingReads {
      CodeInserted(sys.db, a.pairing, a.codeHash, Administrator, a.caller, step.now,
                   Some(sys.pairingReads[a.ticket].version));
    }
  }

  /**
   * A code is used exactly when it is unused, unexpired, of that hash, its creator is the live
   * session of an administrator, and the new session is free. The session has the code's role and
   * the creator's name, for 180 days as a viewer and 30 as an administrator.
   */
  lemma PairedExactly(sys: System, step: Step)
    requires step.action.Pair?
    ensures var a := step.action;
      var r := Apply(sys, step);
      if a.pairing in sys.db.pairings && PairingUsable(sys.db, sys.db.pairings[a.pairing], a.codeHash, step.now)
         && Free(sys.db, a.id, a.tokenHash)
      then
        var p := sys.db.pairings[a.pairing];
        r.db == sys.db.(
          sessions := sys.db.sessions[a.id :=
            Session(a.id, a.tokenHash, sys.db.sessions[p.creator].username, p.role, Fixed, Pairing, None, step.now,
                    step.now, None, Min(step.now + (if p.role == Viewer then 180 * DAY else 30 * DAY), I64_MAX), None)],
          pairings := sys.db.pairings[a.pairing := p.(usedAt := Some(step.now))])
      else r == sys
  {
    var a := step.action;
    if a.pairing in sys.db.pairings && PairingUsable(sys.db, sys.db.pairings[a.pairing], a.codeHash, step.now) {
      var p := sys.db.pairings[a.pairing];
      FreeIsInsertable(sys.db, PairedSession(a.id, a.tokenHash, sys.db.sessions[p.creator], p.role, step.now));
    }
  }

  predicate PairingUsable(t: AuthTables, p: PairingCode, codeHash: string, now: int) {
    && p.codeHash == codeHash && p.usedAt == None && now < p.expiresAt
    && p.creator in t.sessions && t.sessions[p.creator].role == Administrator && Live(t.sessions[p.creator], now)
  }

  // ----- using and ending sessions

  /**
   * A touch answers whether the caller's session is live, and extends it exactly when it was last
   * seen at least an interval ago.
   */
  lemma TouchedExactly(t: AuthTables, c: Caller, now: int, interval: int)
    ensures TouchSession(t, c, now, interval).1 <==> CallerLive(t, c, now)
    ensures TouchSession(t, c, now, interval).0 ==
      if CallerLive(t, c, now) && now - t.sessions[c.id].lastSeen >= interval
      then t.(sessions := t.sessions[c.id := t.sessions[c.id].(
        lastSeen := now, idleExpiresAt := if c.kind == Standard then Some(now + 12 * HOUR) else None)])
      else t
  {
  }

  /** A session that keeps being used stays alive until its absolute end. */
  lemma TouchKeepsAlive(t: AuthTables, c: Caller, now: int, interval: int, later: int)
    requires CallerLive(t, c, now) && now - t.sessions[c.id].lastSeen >= interval
    requires now <= later < now + 12 * HOUR && later < t.sessions[c.id].absoluteExpiresAt
    ensures CallerLive(TouchSession(t, c, now, interval).0, c, later)
  {
  }

  /** Revoking ends the named session for good and touches nothing else. */
  lemma RevokedExactly(sys: System, step: Step)
    requires step.action.Revoke?
    ensures var id := step.action.id;
      Apply(sys, step).db ==
      if id in sys.db.sessions && sys.db.sessions[id].revokedAt == None
      then sys.db.(sessions := sys.db.sessions[id := sys.db.sessions[id].(revokedAt := Some(step.now))])
      else sys.db
    ensures step.action.id in sys.db.sessions ==>
      forall now :: !ActiveAt(Apply(sys, step).db.sessions[step.action.id], now)
  {
  }

  /** A reset ends every session and uses up every pairing code. */
  lemma ResetEndsAll(sys: System, step: Step)
    requires step.action.ResetPassword? && sys.db.admin.Some?
    ensures var r := Apply(sys, step);
      && r.db.sessions.Keys == sys.db.sessions.Keys && r.db.pairings.Keys == sys.db.pairings.Keys
      && (forall id, now :: id in r.db.sessions ==> !ActiveAt(r.db.sessions[id], now))
      && forall k, now :: k in r.db.pairings ==> !PairingEligible(r.db, r.db.pairings[k], now)
  {
  }

  /** A change of the OIDC policy ends exactly the OIDC sessions admitted under another one. */
  lemma PoliciesRevokedExactly(sys: System, step: Step, id: string)
    requires step.action.RevokePolicies? && id in sys.db.sessions
    ensures var s := sys.db.sessions[id];
      id in Apply(sys, step).db.sessions && Apply(sys, step).db.sessions[id] ==
      if s.authMethod == Oidc && s.revokedAt == None && (step.action.current == None || step.action.current != s.policy)
      then s.(revokedAt := Some(step.now)) else s
    ensures Apply(sys, step).db == sys.db.(sessions := Apply(sys, step).db.sessions)
    ensures Apply(sys, step).db.sessions.Keys == sys.db.sessions.Keys
  {
  }
}
