/** Credential, session, setup-token and pairing tables with their transactions. Times are seconds. */
module AuthStore {
  import opened Int64
  import opened Outcomes

  const STANDARD_IDLE_SECS: int := 12 * 60 * 60
  const STANDARD_ABSOLUTE_SECS: int := 7 * 24 * 60 * 60
  const FIXED_VIEWER_SECS: int := 180 * 24 * 60 * 60
  const FIXED_ADMIN_SECS: int := 30 * 24 * 60 * 60
  const PAIRING_SECS: int := 10 * 60
  const HTTP_SESSION_TOUCH_SECS: int := 5 * 60

  datatype Role = Viewer | Administrator
  datatype Kind = Standard | Fixed
  datatype Method = Password | Oidc | Pairing

  datatype Admin = Admin(username: string, passwordHash: string, version: int)

  datatype SetupToken = SetupToken(hash: string, expiresAt: int, usedAt: Option<int>)

  datatype Session = Session(
    id: string, tokenHash: string, username: string, role: Role, kind: Kind, authMethod: Method,
    policy: Option<string>, createdAt: int, lastSeen: int, idleExpiresAt: Option<int>,
    absoluteExpiresAt: int, revokedAt: Option<int>)

  datatype PairingCode = PairingCode(
    id: string, codeHash: string, role: Role, creator: string, createdAt: int, expiresAt: int, usedAt: Option<int>)

  datatype AuthTables = AuthTables(
    admin: Option<Admin>, setup: Option<SetupToken>,
    sessions: map<string, Session>, pairings: map<string, PairingCode>)

  /** Identity a request presents: the session's id and the fields it was read with. */
  datatype Caller = Caller(id: string, username: string, role: Role, kind: Kind)

  // ----- activity

  predicate ActiveAt(s: Session, now: int) {
    s.revokedAt.None? && s.absoluteExpiresAt > now && (s.idleExpiresAt.None? || s.idleExpiresAt.value > now)
  }

  predicate Presents(s: Session, c: Caller) {
    s.username == c.username && s.role == c.role && s.kind == c.kind
  }

  predicate SessionIsActive(t: AuthTables, c: Caller, now: int) {
    c.id in t.sessions && Presents(t.sessions[c.id], c) && ActiveAt(t.sessions[c.id], now)
  }

  // ----- administrator

  function RevokeUnrevoked(s: Session, now: int): Session {
    if s.revokedAt.None? then s.(revokedAt := Some(now)) else s
  }

  function UseUnused(p: PairingCode, now: int): PairingCode {
    if p.usedAt.None? then p.(usedAt := Some(now)) else p
  }

  function ReplaceAdminPassword(t: AuthTables, username: string, hash: string, now: int): AuthTables {
    t.(admin := if t.admin.Some? then Some(Admin(username, hash, t.admin.value.version + 1)) else None,
       sessions := map id | id in t.sessions :: RevokeUnrevoked(t.sessions[id], now),
       pairings := map id | id in t.pairings :: UseUnused(t.pairings[id], now))
  }

  function CreateAdmin(t: AuthTables, username: string, hash: string): Result<AuthTables> {
    if t.admin.Some? then Err(Storage) else Ok(t.(admin := Some(Admin(username, hash, 1))))
  }

  // ----- sessions

  /** Ids and token hashes are unique. */
  predicate SessionInsertable(t: AuthTables, s: Session) {
    s.id !in t.sessions && forall id :: id in t.sessions ==> t.sessions[id].tokenHash != s.tokenHash
  }

  function InsertSession(t: AuthTables, s: Session): Result<AuthTables> {
    if SessionInsertable(t, s) then Ok(t.(sessions := t.sessions[s.id := s])) else Err(Storage)
  }

  /** The record of a new browser session. */
  function NewStandardSession(id: string, tokenHash: string, username: string, role: Role, m: Method,
      policy: Option<string>, now: int): Session {
    Session(id, tokenHash, username, role, Standard, m, policy, now, now, Some(now + STANDARD_IDLE_SECS),
            now + STANDARD_ABSOLUTE_SECS, None)
  }

  function InsertStandardSessionIfAdminVersion(t: AuthTables, s: Session, version: int): Result<(AuthTables, bool)> {
    if !(t.admin.Some? && t.admin.value.username == s.username && t.admin.value.version == version)
       || s.kind != Standard || s.role != Administrator || s.authMethod != Password
    then Ok((t, false))
    else
      var t' :- InsertSession(t, s);
      Ok((t', true))
  }

  function InsertOidcSession(t: AuthTables, s: Session): Result<AuthTables> {
    if s.kind != Standard || s.authMethod != Oidc || s.policy.None? then Err(InvalidCommand) else InsertSession(t, s)
  }

  /** Extends an active session unless it was seen within the interval; says whether it is active. */
  function TouchSession(t: AuthTables, c: Caller, now: int, interval: int): (AuthTables, bool) {
    if SessionIsActive(t, c, now) && t.sessions[c.id].lastSeen <= now - interval then
      var s := t.sessions[c.id];
      var idle := if s.kind == Standard then Some(now + STANDARD_IDLE_SECS) else None;
      (t.(sessions := t.sessions[c.id := s.(lastSeen := now, idleExpiresAt := idle)]), true)
    else (t, SessionIsActive(t, c, now))
  }

  function RevokeSession(t: AuthTables, id: string, now: int): (AuthTables, bool) {
    if id in t.sessions && t.sessions[id].revokedAt.None? then
      (t.(sessions := t.sessions[id := t.sessions[id].(revokedAt := Some(now))]), true)
    else (t, false)
  }

  predicate OtherPolicy(s: Session, policy: Option<string>) {
    s.authMethod == Oidc && (policy.None? || s.policy != policy)
  }

  function RevokeOtherPolicies(t: AuthTables, policy: Option<string>, now: int): AuthTables {
    t.(sessions := map id | id in t.sessions ::
      if OtherPolicy(t.sessions[id], policy) then RevokeUnrevoked(t.sessions[id], now) else t.sessions[id])
  }

  // ----- setup token

  function StoreSetupTokenIfNoAdmin(t: AuthTables, hash: string, expiresAt: int): (AuthTables, bool) {
    if t.admin.Some? then (t, false) else (t.(setup := Some(SetupToken(hash, expiresAt, None))), true)
  }

  /** The single setup row is unused and carries the hash. */
  predicate SetupHashMatches(t: AuthTables, hash: string) {
    t.setup.Some? && t.setup.value.hash == hash && t.setup.value.usedAt.None?
  }

  predicate SetupTokenIsValid(t: AuthTables, hash: string, now: int) {
    SetupHashMatches(t, hash) && t.setup.value.expiresAt > now && t.admin.None?
  }

  function InvalidateSetupToken(t: AuthTables, hash: string, now: int): (AuthTables, bool) {
    if SetupHashMatches(t, hash) then (t.(setup := Some(SetupToken("", 0, Some(now)))), true) else (t, false)
  }

  function ConsumeSetup(t: AuthTables, hash: string, now: int, username: string, passwordHash: string, s: Session)
    : Result<(AuthTables, bool)>
  {
    if s.username != username || s.role != Administrator || s.kind != Standard || s.authMethod != Password then
      Err(InvalidCommand)
    else if !SetupTokenIsValid(t, hash, now) then Ok((t, false))
    else
      var used := t.(setup := Some(t.setup.value.(usedAt := Some(now))),
        admin := Some(Admin(username, passwordHash, 1)));
      var t' :- InsertSession(used, s);
      Ok((t', true))
  }

  // ----- pairing codes

  /** Creates a pairing code for an active admin session, under the expected credential version if one is given. */
  function InsertPairing(t: AuthTables, id: string, codeHash: string, role: Role, expiresAt: int, c: Caller, now: int,
      expected: Option<int>)
    : Result<(AuthTables, bool)>
  {
    if !(SessionIsActive(t, c, now) && c.role == Administrator
         && (expected.None? || (t.admin.Some? && t.admin.value.version == expected.value)))
    then Ok((t, false))
    else if id in t.pairings || exists k :: k in t.pairings && t.pairings[k].codeHash == codeHash then Err(Storage)
    else Ok((t.(pairings := t.pairings[id := PairingCode(id, codeHash, role, c.id, now, expiresAt, None)]), true))
  }

  /** The code is unused, unexpired, and its creator is an active admin session. */
  predicate PairingEligible(t: AuthTables, p: PairingCode, now: int) {
    && p.usedAt.None? && p.expiresAt > now
    && p.creator in t.sessions && t.sessions[p.creator].role == Administrator && ActiveAt(t.sessions[p.creator], now)
  }

  /** Code hashes are unique, so at most one pairing matches. */
  ghost predicate CodeHashesUnique(t: AuthTables) {
    forall a, b :: a in t.pairings && b in t.pairings && t.pairings[a].codeHash == t.pairings[b].codeHash ==> a == b
  }

  function PairedSession(id: string, tokenHash: string, creator: Session, role: Role, now: int): Session {
    var lifetime := if role == Viewer then FIXED_VIEWER_SECS else FIXED_ADMIN_SECS;
    Session(id, tokenHash, creator.username, role, Fixed, Pairing, None, now, now, None,
            Min(now + lifetime, I64_MAX), None)
  }

  /** Uses up the pairing with key `k` and inserts its session. */
  function ConsumePairingAt(t: AuthTables, k: string, now: int, id: string, tokenHash: string)
    : Result<(AuthTables, Option<Session>)>
    requires k in t.pairings && t.pairings[k].creator in t.sessions
  {
    var p := t.pairings[k];
    var s := PairedSession(id, tokenHash, t.sessions[p.creator], p.role, now);
    var t' :- InsertSession(t, s);
    Ok((t'.(pairings := t'.pairings[k := p.(usedAt := Some(now))]), Some(s)))
  }

  ghost predicate PairingFor(t: AuthTables, codeHash: string, now: int, k: string) {
    k in t.pairings && t.pairings[k].codeHash == codeHash && PairingEligible(t, t.pairings[k], now)
  }
}
