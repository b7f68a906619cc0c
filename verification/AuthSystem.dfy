/**
 * Interleavings of login, pairing, setup, reset and request handling.
 *
 * Login and admin pairing read the administrator record first and use it later; between the
 * two any other transaction may run. What the password check decides is left open: a handler
 * may or may not go on after it, so every run of the program is a run of this system.
 */
module AuthSystem {
  import opened Outcomes
  import opened AuthStore

  datatype Action =
    | BeginLogin(ticket: nat)
    | FinishLogin(ticket: nat, id: string, tokenHash: string, born: int)
    | BeginAdminPairing(ticket: nat)
    | CreateAdminPairing(ticket: nat, pairing: string, codeHash: string, caller: Caller)
    | CreateViewerPairing(pairing: string, codeHash: string, caller: Caller)
    | Pair(pairing: string, codeHash: string, id: string, tokenHash: string)
    | OidcLogin(id: string, tokenHash: string, username: string, role: Role, policy: string, born: int)
    | Setup(setupHash: string, username: string, passwordHash: string, id: string, tokenHash: string, born: int)
    | IssueSetupToken(setupHash: string, expiresAt: int)
    | InvalidateSetup(setupHash: string)
    | ResetPassword(username: string, passwordHash: string)
    | CreateAdminFromCli(username: string, passwordHash: string)
    | Touch(caller: Caller, interval: int)
    | Revoke(id: string)
    | RevokePolicies(current: Option<string>)

  datatype Step = Step(now: int, action: Action)

  /** One use of a pairing code. */
  datatype Use = Use(pairing: string, session: string, at: int)

  /**
   * The tables, the records handlers have read, and the history the guarantees speak about:
   * the number of resets so far, how many there had been when each session was created, the
   * credential version each password session and admin pairing was checked against, the
   * number of successful setups, the setup token now outstanding, all pairing uses, and the name
   * and password hash that the last setup, creation or reset was given.
   */
  datatype System = System(
    db: AuthTables, logins: map<nat, Admin>, pairingReads: map<nat, Admin>,
    resets: nat, bornIn: map<string, nat>, checkedAt: map<string, int>, pairedAt: map<string, int>,
    setups: nat, outstanding: Option<(string, int)>, uses: seq<Use>, given: Option<(string, string)>)

  const INITIAL :=
    System(AuthTables(None, None, map[], map[]), map[], map[], 0, map[], map[], map[], 0, None, [], None)

  function Born(sys: System, db: AuthTables, id: string): System {
    sys.(db := db, bornIn := sys.bornIn[id := sys.resets])
  }

  /** No record is read, and an administrator stays with a version that never goes back. */
  predicate Framed(sys: System, r: System) {
    && r.logins == sys.logins && r.pairingReads == sys.pairingReads
    && (sys.db.admin.Some? ==> r.db.admin.Some? && r.db.admin.value.version >= sys.db.admin.value.version)
  }

  /** Neither setups nor setup tokens nor the presence of an administrator change. */
  predicate SetupUntouched(sys: System, r: System) {
    && r.setups == sys.setups && r.outstanding == sys.outstanding && r.db.setup == sys.db.setup
    && (sys.db.admin.Some? ==> r.db.admin.Some?)
  }

  /** Neither the administrator nor what is remembered of it changes. */
  predicate AdminKept(sys: System, r: System) {
    r.db.admin == sys.db.admin && r.resets == sys.resets && r.given == sys.given
  }

  /** Existing pairings change at most by being used up, and no use is recorded. */
  ghost predicate PairingsKept(sys: System, r: System) {
    && r.uses == sys.uses
    && forall k :: k in sys.db.pairings ==>
         && k in r.db.pairings
         && r.db.pairings[k] == sys.db.pairings[k].(usedAt := r.db.pairings[k].usedAt)
         && (sys.db.pairings[k].usedAt.Some? ==> r.db.pairings[k].usedAt.Some?)
  }

  /** Existing sessions change at most by being revoked. */
  ghost predicate SessionsOnlyRevoked(sys: System, r: System) {
    forall id :: id in sys.db.sessions ==>
      && id in r.db.sessions
      && r.db.sessions[id] == sys.db.sessions[id].(revokedAt := r.db.sessions[id].revokedAt)
      && (sys.db.sessions[id].revokedAt.Some? ==> r.db.sessions[id].revokedAt.Some?)
  }

  /** How long a session of its kind and role may live. */
  function Lifetime(s: Session): int {
    if s.kind == Standard then STANDARD_ABSOLUTE_SECS
    else if s.role == Viewer then FIXED_VIEWER_SECS
    else FIXED_ADMIN_SECS
  }

  /** Sessions that appear were created and last seen at `at`, and idle out and expire from then. */
  ghost predicate NewSessionsSeen(sys: System, r: System, at: int) {
    forall id :: id in r.db.sessions && id !in sys.db.sessions ==>
      r.db.sessions[id].lastSeen == r.db.sessions[id].createdAt == at
      && r.db.sessions[id].absoluteExpiresAt <= at + Lifetime(r.db.sessions[id])
      && (r.db.sessions[id].kind == Standard ==> r.db.sessions[id].idleExpiresAt == Some(at + STANDARD_IDLE_SECS))
  }

  ghost predicate NoNewSessions(sys: System, r: System) {
    forall id :: id in r.db.sessions ==> id in sys.db.sessions
  }

  function LoginStep(sys: System, k: nat, id: string, token: string, born: int): (r: System)
    ensures Framed(sys, r) && AdminKept(sys, r)
    ensures SessionsOnlyRevoked(sys, r) && NewSessionsSeen(sys, r, born)
    ensures SetupUntouched(sys, r) && PairingsKept(sys, r)
  {
    if k !in sys.logins then sys else
    var read := sys.logins[k];
    var s := NewStandardSession(id, token, read.username, Administrator, Password, None, born);
    var inserted := InsertStandardSessionIfAdminVersion(sys.db, s, read.version);
    if inserted.Ok? && inserted.value.1 then
      Born(sys, inserted.value.0, id).(checkedAt := sys.checkedAt[id := read.version])
    else sys
  }

  function AdminPairingStep(sys: System, now: int, k: nat, id: string, code: string, c: Caller): (r: System)
    ensures Framed(sys, r) && AdminKept(sys, r)
    ensures SessionsOnlyRevoked(sys, r) && NoNewSessions(sys, r)
    ensures SetupUntouched(sys, r) && PairingsKept(sys, r)
  {
    if k !in sys.pairingReads then sys else
    var version := sys.pairingReads[k].version;
    var inserted := InsertPairing(sys.db, id, code, Administrator, now + PAIRING_SECS, c, now, Some(version));
    if inserted.Ok? && inserted.value.1 then sys.(db := inserted.value.0, pairedAt := sys.pairedAt[id := version])
      else sys
  }

  function ViewerPairingStep(sys: System, now: int, id: string, code: string, c: Caller): (r: System)
    ensures Framed(sys, r) && AdminKept(sys, r)
    ensures SessionsOnlyRevoked(sys, r) && NoNewSessions(sys, r)
    ensures SetupUntouched(sys, r) && PairingsKept(sys, r)
  {
    var inserted := InsertPairing(sys.db, id, code, Viewer, now + PAIRING_SECS, c, now, None);
    if inserted.Ok? && inserted.value.1 then sys.(db := inserted.value.0) else sys
  }

  function PairStep(sys: System, now: int, k: string, code: string, id: string, token: string): (r: System)
    ensures Framed(sys, r) && AdminKept(sys, r)
    ensures SessionsOnlyRevoked(sys, r) && NewSessionsSeen(sys, r, now)
    ensures SetupUntouched(sys, r)
  {
    var db := sys.db;
    if !(k in db.pairings && db.pairings[k].codeHash == code && PairingEligible(db, db.pairings[k], now)) then sys else
    var used := ConsumePairingAt(db, k, now, id, token);
    if used.Ok? then Born(sys, used.value.0, id).(uses := sys.uses + [Use(k, id, now)]) else sys
  }

  function OidcStep(sys: System, id: string, token: string, username: string, role: Role, policy: string,
      born: int): (r: System)
    ensures Framed(sys, r) && AdminKept(sys, r)
    ensures SessionsOnlyRevoked(sys, r) && NewSessionsSeen(sys, r, born)
    ensures SetupUntouched(sys, r) && PairingsKept(sys, r)
  {
    if sys.db.admin.None? then sys else
    var inserted := InsertOidcSession(sys.db, NewStandardSession(id, token, username, role, Oidc, Some(policy), born));
    if inserted.Ok? then Born(sys, inserted.value, id) else sys
  }

  function SetupStep(sys: System, now: int, hash: string, username: string, password: string, id: string, token: string,
      born: int): (r: System)
    ensures Framed(sys, r)
    ensures SessionsOnlyRevoked(sys, r) && NewSessionsSeen(sys, r, born)
    ensures PairingsKept(sys, r)
  {
    var s := NewStandardSession(id, token, username, Administrator, Password, None, born);
    var consumed := ConsumeSetup(sys.db, hash, now, username, password, s);
    if consumed.Ok? && consumed.value.1 then
      Born(sys, consumed.value.0, id)
        .(checkedAt := sys.checkedAt[id := 1], setups := sys.setups + 1, outstanding := None,
          given := Some((username, password)))
    else sys
  }

  function IssueStep(sys: System, hash: string, expiresAt: int): (r: System)
    ensures Framed(sys, r) && AdminKept(sys, r)
    ensures SessionsOnlyRevoked(sys, r) && NoNewSessions(sys, r)
    ensures PairingsKept(sys, r)
    ensures r.db.sessions == sys.db.sessions
  {
    var (db, stored) := StoreSetupTokenIfNoAdmin(sys.db, hash, expiresAt);
    if stored then sys.(db := db, outstanding := Some((hash, expiresAt))) else sys
  }

  function InvalidateStep(sys: System, now: int, hash: string): (r: System)
    ensures Framed(sys, r) && AdminKept(sys, r)
    ensures SessionsOnlyRevoked(sys, r) && NoNewSessions(sys, r)
    ensures PairingsKept(sys, r)
    ensures r.db.sessions == sys.db.sessions
  {
    var (db, changed) := InvalidateSetupToken(sys.db, hash, now);
    if changed then sys.(db := db, outstanding := None) else sys
  }

  function ResetStep(sys: System, now: int, username: string, password: string): (r: System)
    ensures Framed(sys, r)
    ensures SessionsOnlyRevoked(sys, r) && NoNewSessions(sys, r)
    ensures SetupUntouched(sys, r) && PairingsKept(sys, r)
  {
    if sys.db.admin.None? then sys
    else sys.(db := ReplaceAdminPassword(sys.db, username, password, now), resets := sys.resets + 1,
                 given := Some((username, password)))
  }

  function CreateAdminStep(sys: System, username: string, password: string): (r: System)
    ensures Framed(sys, r)
    ensures SessionsOnlyRevoked(sys, r) && NoNewSessions(sys, r)
    ensures SetupUntouched(sys, r) && PairingsKept(sys, r)
    ensures r.db.sessions == sys.db.sessions
  {
    var created := CreateAdmin(sys.db, username, password);
    if created.Ok? then sys.(db := created.value, given := Some((username, password))) else sys
  }

  /** Sessions change at most by an active standard or fixed session being seen now. */
  ghost predicate SessionsTouched(sys: System, r: System, now: int) {
    && r.db.sessions.Keys == sys.db.sessions.Keys
    && forall id :: id in sys.db.sessions && r.db.sessions[id] != sys.db.sessions[id] ==>
         var s := sys.db.sessions[id];
         ActiveAt(s, now)
         && r.db.sessions[id] == s.(
              lastSeen := now, idleExpiresAt := if s.kind == Standard then Some(now + STANDARD_IDLE_SECS) else None)
  }

  function TouchStep(sys: System, now: int, c: Caller, interval: int): (r: System)
    ensures Framed(sys, r) && AdminKept(sys, r)
    ensures SetupUntouched(sys, r) && PairingsKept(sys, r) && SessionsTouched(sys, r, now)
  {
    sys.(db := TouchSession(sys.db, c, now, interval).0)
  }

  function RevokeStep(sys: System, now: int, id: string): (r: System)
    ensures Framed(sys, r) && AdminKept(sys, r)
    ensures SessionsOnlyRevoked(sys, r) && NoNewSessions(sys, r)
    ensures SetupUntouched(sys, r) && PairingsKept(sys, r)
  {
    sys.(db := RevokeSession(sys.db, id, now).0)
  }

  function PoliciesStep(sys: System, now: int, policy: Option<string>): (r: System)
    ensures Framed(sys, r) && AdminKept(sys, r)
    ensures SessionsOnlyRevoked(sys, r) && NoNewSessions(sys, r)
    ensures SetupUntouched(sys, r) && PairingsKept(sys, r)
  {
    sys.(db := RevokeOtherPolicies(sys.db, policy, now))
  }

  function Apply(sys: System, step: Step): System {
    match step.action
    case BeginLogin(k) => if sys.db.admin.Some? then sys.(logins := sys.logins[k := sys.db.admin.value]) else sys
    case FinishLogin(k, id, token, born) => LoginStep(sys, k, id, token, born)
    case BeginAdminPairing(k) =>
      if sys.db.admin.Some? then sys.(pairingReads := sys.pairingReads[k := sys.db.admin.value]) else sys
    case CreateAdminPairing(k, id, code, c) => AdminPairingStep(sys, step.now, k, id, code, c)
    case CreateViewerPairing(id, code, c) => ViewerPairingStep(sys, step.now, id, code, c)
    case Pair(k, code, id, token) => PairStep(sys, step.now, k, code, id, token)
    case OidcLogin(id, token, username, role, policy, born) => OidcStep(sys, id, token, username, role, policy, born)
    case Setup(hash, username, password, id, token, born) =>
      SetupStep(sys, step.now, hash, username, password, id, token, born)
    case IssueSetupToken(hash, expiresAt) => IssueStep(sys, hash, expiresAt)
    case InvalidateSetup(hash) => InvalidateStep(sys, step.now, hash)
    case ResetPassword(username, password) => ResetStep(sys, step.now, username, password)
    case CreateAdminFromCli(username, password) => CreateAdminStep(sys, username, password)
    case Touch(c, interval) => TouchStep(sys, step.now, c, interval)
    case Revoke(id) => RevokeStep(sys, step.now, id)
    case RevokePolicies(policy) => PoliciesStep(sys, step.now, policy)
  }

  function Execute(sys: System, steps: seq<Step>): System
    decreases |steps|
  {
    if steps == [] then sys else Execute(Apply(sys, steps[0]), steps[1..])
  }
}
