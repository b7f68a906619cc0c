/** A password reset cuts off the past, in every interleaving. */
module AuthReset {
  import opened Outcomes
  import opened AuthStore
  import opened AuthSystem

  /** A session that is not revoked belongs to the time since the last reset. */
  ghost predicate SessionCurrent(sys: System, id: string)
    requires id in sys.db.sessions
  {
    var s := sys.db.sessions[id];
    s.revokedAt.None? ==>
      && id in sys.bornIn && sys.bornIn[id] == sys.resets
      && (s.authMethod == Password ==>
            && sys.db.admin.Some? && s.username == sys.db.admin.value.username
            && id in sys.checkedAt && sys.checkedAt[id] == sys.db.admin.value.version)
  }

  /** An unused admin pairing was authorised under the current credential version. */
  ghost predicate PairingCurrent(sys: System, id: string)
    requires id in sys.db.pairings
  {
    var p := sys.db.pairings[id];
    p.usedAt.None? && p.role == Administrator ==>
      sys.db.admin.Some? && id in sys.pairedAt && sys.pairedAt[id] == sys.db.admin.value.version
  }

  /** A record read earlier is the current one or has an older version. */
  ghost predicate ReadsOrdered(sys: System, taken: map<nat, Admin>) {
    forall k :: k in taken ==>
      sys.db.admin.Some? && (taken[k] == sys.db.admin.value || taken[k].version < sys.db.admin.value.version)
  }

  ghost predicate CredentialsCurrent(sys: System) {
    && (forall id :: id in sys.db.sessions ==> SessionCurrent(sys, id))
    && (forall id :: id in sys.db.pairings ==> PairingCurrent(sys, id))
    && ReadsOrdered(sys, sys.logins) && ReadsOrdered(sys, sys.pairingReads)
  }

  lemma ResetKeepsCurrent(sys: System, step: Step)
    requires CredentialsCurrent(sys) && step.action.ResetPassword?
    ensures CredentialsCurrent(Apply(sys, step))
  {
  }

  /** A session inserted now, with its history entries, keeps all sessions current. */
  lemma InsertedSessionCurrent(sys: System, sys': System, s: Session)
    requires CredentialsCurrent(sys) && SessionInsertable(sys.db, s)
    requires sys'.db == sys.db.(sessions := sys.db.sessions[s.id := s])
    requires sys'.bornIn == sys.bornIn[s.id := sys.resets] && sys'.resets == sys.resets
    requires sys'.logins == sys.logins && sys'.pairingReads == sys.pairingReads && sys'.pairedAt == sys.pairedAt
    requires forall id :: id in sys.db.sessions && id in sys.checkedAt ==>
      id in sys'.checkedAt && sys'.checkedAt[id] == sys.checkedAt[id]
    requires SessionCurrent(sys', s.id)
    ensures CredentialsCurrent(sys')
  {
    forall id | id in sys'.db.sessions ensures SessionCurrent(sys', id) {
      if id != s.id {
        assert SessionCurrent(sys, id);
      }
    }
    forall id | id in sys'.db.pairings ensures PairingCurrent(sys', id) {
      assert PairingCurrent(sys, id);
    }
  }

  lemma FinishLoginKeepsCurrent(sys: System, step: Step)
    requires CredentialsCurrent(sys) && step.action.FinishLogin?
    ensures CredentialsCurrent(Apply(sys, step))
  {
    var a := step.action;
    if a.ticket in sys.logins {
      var read := sys.logins[a.ticket];
      var s := NewStandardSession(a.id, a.tokenHash, read.username, Administrator, Password, None, a.born);
      var r := InsertStandardSessionIfAdminVersion(sys.db, s, read.version);
      if r.Ok? && r.value.1 {
        InsertedSessionCurrent(sys, Apply(sys, step), s);
      }
    }
  }

  lemma SetupKeepsCurrent(sys: System, step: Step)
    requires CredentialsCurrent(sys) && step.action.Setup?
    ensures CredentialsCurrent(Apply(sys, step))
  {
    var a, sys' := step.action, Apply(sys, step);
    if sys' != sys {
      forall id | id in sys'.db.sessions ensures SessionCurrent(sys', id) {
        if id in sys.db.sessions {
          assert SessionCurrent(sys, id);
        }
      }
      forall id | id in sys'.db.pairings ensures PairingCurrent(sys', id) {
        assert PairingCurrent(sys, id);
      }
    }
  }

  lemma OidcKeepsCurrent(sys: System, step: Step)
    requires CredentialsCurrent(sys) && step.action.OidcLogin?
    ensures CredentialsCurrent(Apply(sys, step))
  {
    var a, sys' := step.action, Apply(sys, step);
    if sys' != sys && sys.db.admin.Some? {
      InsertedSessionCurrent(sys, sys',
        NewStandardSession(a.id, a.tokenHash, a.username, a.role, Oidc, Some(a.policy), a.born));
    }
  }

  lemma PairKeepsCurrent(sys: System, now: int, k: string, code: string, id: string, token: string)
    requires CredentialsCurrent(sys)
    ensures CredentialsCurrent(PairStep(sys, now, k, code, id, token))
  {
    var sys' := PairStep(sys, now, k, code, id, token);
    if sys'.db != sys.db {
      forall x | x in sys'.db.sessions ensures SessionCurrent(sys', x) {
        if x != id {
          assert SessionCurrent(sys, x);
        }
      }
      forall x | x in sys'.db.pairings ensures PairingCurrent(sys', x) {
        assert PairingCurrent(sys, x);
      }
    }
  }

  lemma InsertedPairingCurrent(sys: System, sys': System, p: PairingCode)
    requires CredentialsCurrent(sys)
    requires sys'.db == sys.db.(pairings := sys.db.pairings[p.id := p]) && sys'.resets == sys.resets
    requires sys'.bornIn == sys.bornIn && sys'.checkedAt == sys.checkedAt
    requires sys'.logins == sys.logins && sys'.pairingReads == sys.pairingReads
    requires forall id :: id != p.id && id in sys.pairedAt ==>
      id in sys'.pairedAt && sys'.pairedAt[id] == sys.pairedAt[id]
    requires PairingCurrent(sys', p.id)
    ensures CredentialsCurrent(sys')
  {
    forall id | id in sys'.db.sessions ensures SessionCurrent(sys', id) {
      assert SessionCurrent(sys, id);
    }
    forall id | id in sys'.db.pairings ensures PairingCurrent(sys', id) {
      if id != p.id {
        assert PairingCurrent(sys, id);
      }
    }
  }

  lemma AdminPairingKeepsCurrent(sys: System, now: int, k: nat, id: string, code: string, c: Caller)
    requires CredentialsCurrent(sys)
    ensures CredentialsCurrent(AdminPairingStep(sys, now, k, id, code, c))
  {
    var sys' := AdminPairingStep(sys, now, k, id, code, c);
    if sys'.db != sys.db {
      InsertedPairingCurrent(sys, sys', PairingCode(id, code, Administrator, c.id, now, now + PAIRING_SECS, None));
    }
  }

  lemma ViewerPairingKeepsCurrent(sys: System, now: int, id: string, code: string, c: Caller)
    requires CredentialsCurrent(sys)
    ensures CredentialsCurrent(ViewerPairingStep(sys, now, id, code, c))
  {
    var sys' := ViewerPairingStep(sys, now, id, code, c);
    if sys'.db != sys.db {
      InsertedPairingCurrent(sys, sys', PairingCode(id, code, Viewer, c.id, now, now + PAIRING_SECS, None));
    }
  }

  lemma CreateAdminKeepsCurrent(sys: System, step: Step)
    requires CredentialsCurrent(sys) && step.action.CreateAdminFromCli?
    ensures CredentialsCurrent(Apply(sys, step))
  {
    var sys' := Apply(sys, step);
    if sys.db.admin.None? {
      forall id | id in sys'.db.sessions ensures SessionCurrent(sys', id) {
        assert SessionCurrent(sys, id);
      }
      forall id | id in sys'.db.pairings ensures PairingCurrent(sys', id) {
        assert PairingCurrent(sys, id);
      }
    }
  }

  /** Session `s'` is `s` after touches and revocations. */
  predicate Aged(s: Session, s': Session) {
    s'.username == s.username && s'.authMethod == s.authMethod && (s'.revokedAt.None? ==> s.revokedAt.None?)
  }

  /** Steps that leave credentials, pairings and history alone and only age sessions keep all current. */
  lemma AgedSessionsCurrent(sys: System, sys': System)
    requires CredentialsCurrent(sys)
    requires sys'.db.admin == sys.db.admin && sys'.db.pairings == sys.db.pairings && sys'.resets == sys.resets
    requires sys'.bornIn == sys.bornIn && sys'.checkedAt == sys.checkedAt && sys'.pairedAt == sys.pairedAt
    requires ReadsOrdered(sys', sys'.logins) && ReadsOrdered(sys', sys'.pairingReads)
    requires forall id :: id in sys'.db.sessions ==>
      id in sys.db.sessions && Aged(sys.db.sessions[id], sys'.db.sessions[id])
    ensures CredentialsCurrent(sys')
  {
    forall id | id in sys'.db.sessions ensures SessionCurrent(sys', id) {
      assert SessionCurrent(sys, id);
    }
    forall id | id in sys'.db.pairings ensures PairingCurrent(sys', id) {
      assert PairingCurrent(sys, id);
    }
  }

  lemma ReadKeepsCurrent(sys: System, step: Step)
    requires CredentialsCurrent(sys) && (step.action.BeginLogin? || step.action.BeginAdminPairing?)
    ensures CredentialsCurrent(Apply(sys, step))
  {
    AgedSessionsCurrent(sys, Apply(sys, step));
  }

  lemma TouchKeepsCurrent(sys: System, now: int, c: Caller, interval: int)
    requires CredentialsCurrent(sys)
    ensures CredentialsCurrent(TouchStep(sys, now, c, interval))
  {
    AgedSessionsCurrent(sys, TouchStep(sys, now, c, interval));
  }

  lemma RevokeKeepsCurrent(sys: System, now: int, id: string)
    requires CredentialsCurrent(sys)
    ensures CredentialsCurrent(RevokeStep(sys, now, id))
  {
    AgedSessionsCurrent(sys, RevokeStep(sys, now, id));
  }

  lemma PoliciesKeepCurrent(sys: System, now: int, policy: Option<string>)
    requires CredentialsCurrent(sys)
    ensures CredentialsCurrent(PoliciesStep(sys, now, policy))
  {
    AgedSessionsCurrent(sys, PoliciesStep(sys, now, policy));
  }

  lemma SetupTokenKeepsCurrent(sys: System, sys': System)
    requires CredentialsCurrent(sys)
    requires sys' == sys.(db := sys.db.(setup := sys'.db.setup), outstanding := sys'.outstanding)
    ensures CredentialsCurrent(sys')
  {
    AgedSessionsCurrent(sys, sys');
  }

  /** Steps that read the administrator or create sessions and pairings. */
  predicate Inserts(a: Action) {
    a.BeginLogin? || a.BeginAdminPairing? || a.FinishLogin? || a.CreateAdminPairing? || a.CreateViewerPairing?
      || a.Pair? || a.OidcLogin?
  }

  lemma InsertKeepsCurrent(sys: System, step: Step)
    requires CredentialsCurrent(sys) && Inserts(step.action)
    ensures CredentialsCurrent(Apply(sys, step))
  {
    match step.action
    case BeginLogin(_) => ReadKeepsCurrent(sys, step);
    case BeginAdminPairing(_) => ReadKeepsCurrent(sys, step);
    case FinishLogin(_, _, _, _) => FinishLoginKeepsCurrent(sys, step);
    case CreateAdminPairing(k, id, code, c) => AdminPairingKeepsCurrent(sys, step.now, k, id, code, c);
    case CreateViewerPairing(id, code, c) => ViewerPairingKeepsCurrent(sys, step.now, id, code, c);
    case Pair(k, code, id, token) => PairKeepsCurrent(sys, step.now, k, code, id, token);
    case OidcLogin(_, _, _, _, _, _) => OidcKeepsCurrent(sys, step);
  }

  lemma UpdateKeepsCurrent(sys: System, step: Step)
    requires CredentialsCurrent(sys) && !Inserts(step.action)
    ensures CredentialsCurrent(Apply(sys, step))
  {
    match step.action
    case Setup(_, _, _, _, _, _) => SetupKeepsCurrent(sys, step);
    case ResetPassword(_, _) => ResetKeepsCurrent(sys, step);
    case CreateAdminFromCli(_, _) => CreateAdminKeepsCurrent(sys, step);
    case IssueSetupToken(hash, expiresAt) => SetupTokenKeepsCurrent(sys, IssueStep(sys, hash, expiresAt));
    case InvalidateSetup(hash) => SetupTokenKeepsCurrent(sys, InvalidateStep(sys, step.now, hash));
    case Touch(c, interval) => TouchKeepsCurrent(sys, step.now, c, interval);
    case Revoke(id) => RevokeKeepsCurrent(sys, step.now, id);
    case RevokePolicies(policy) => PoliciesKeepCurrent(sys, step.now, policy);
  }

  lemma ApplyKeepsCurrent(sys: System, step: Step)
    requires CredentialsCurrent(sys)
    ensures CredentialsCurrent(Apply(sys, step))
  {
    if Inserts(step.action) {
      InsertKeepsCurrent(sys, step);
    } else {
      UpdateKeepsCurrent(sys, step);
    }
  }

  /**
   * In every interleaving: each unrevoked session was created after the last password reset;
   * each unrevoked password session carries the current administrator's name and was checked
   * against the current credential version; each unused admin pairing was authorised under it.
   */
  lemma {:induction false} ResetCutsOffThePast(sys: System, steps: seq<Step>)
    requires CredentialsCurrent(sys)
    ensures CredentialsCurrent(Execute(sys, steps))
    decreases |steps|
  {
    if steps != [] {
      ApplyKeepsCurrent(sys, steps[0]);
      ResetCutsOffThePast(Apply(sys, steps[0]), steps[1..]);
    }
  }

  lemma RunsFromInitialStayCurrent(steps: seq<Step>)
    ensures CredentialsCurrent(Execute(INITIAL, steps))
  {
    ResetCutsOffThePast(INITIAL, steps);
  }

  // ----- stale reads

  /** The record read under the login ticket is older than the current credentials. */
  predicate LoginStale(sys: System, k: nat) {
    sys.db.admin.Some? && (k in sys.logins ==> sys.logins[k].version < sys.db.admin.value.version)
  }

  /** The record read under the pairing ticket is older than the current credentials. */
  predicate PairingReadStale(sys: System, k: nat) {
    sys.db.admin.Some? && (k in sys.pairingReads ==> sys.pairingReads[k].version < sys.db.admin.value.version)
  }

  lemma StaleAfterReset(sys: System, reset: Step, k: nat)
    requires CredentialsCurrent(sys) && reset.action.ResetPassword? && sys.db.admin.Some?
    ensures LoginStale(Apply(sys, reset), k) && PairingReadStale(Apply(sys, reset), k)
  {
  }

  lemma FramedStaysStale(sys: System, r: System, k: nat)
    requires Framed(sys, r)
    ensures LoginStale(sys, k) ==> LoginStale(r, k)
    ensures PairingReadStale(sys, k) ==> PairingReadStale(r, k)
  {
  }

  lemma LoginStaleStep(sys: System, step: Step, k: nat)
    requires LoginStale(sys, k) && step.action != BeginLogin(k)
    ensures LoginStale(Apply(sys, step), k)
  {
    if !step.action.BeginLogin? && !step.action.BeginAdminPairing? {
      assert Framed(sys, Apply(sys, step));
      FramedStaysStale(sys, Apply(sys, step), k);
    }
  }

  lemma PairingStaleStep(sys: System, step: Step, k: nat)
    requires PairingReadStale(sys, k) && step.action != BeginAdminPairing(k)
    ensures PairingReadStale(Apply(sys, step), k)
  {
    if !step.action.BeginLogin? && !step.action.BeginAdminPairing? {
      assert Framed(sys, Apply(sys, step));
      FramedStaysStale(sys, Apply(sys, step), k);
    }
  }

  lemma {:induction false} LoginStaysStale(sys: System, steps: seq<Step>, k: nat)
    requires LoginStale(sys, k) && forall s :: s in steps ==> s.action != BeginLogin(k)
    ensures LoginStale(Execute(sys, steps), k)
    decreases |steps|
  {
    if steps != [] {
      assert steps[0] in steps;
      LoginStaleStep(sys, steps[0], k);
      LoginStaysStale(Apply(sys, steps[0]), steps[1..], k);
    }
  }

  lemma {:induction false} PairingStaysStale(sys: System, steps: seq<Step>, k: nat)
    requires PairingReadStale(sys, k) && forall s :: s in steps ==> s.action != BeginAdminPairing(k)
    ensures PairingReadStale(Execute(sys, steps), k)
    decreases |steps|
  {
    if steps != [] {
      assert steps[0] in steps;
      PairingStaleStep(sys, steps[0], k);
      PairingStaysStale(Apply(sys, steps[0]), steps[1..], k);
    }
  }

  /**
   * A login whose record was read before a reset is refused after it, whatever others do in
   * between, new logins with the new password included.
   */
  lemma StaleLoginIsRefused(sys: System, reset: Step, later: seq<Step>, step: Step)
    requires CredentialsCurrent(sys) && reset.action.ResetPassword? && sys.db.admin.Some? && step.action.FinishLogin?
    requires forall s :: s in later ==> s.action != BeginLogin(step.action.ticket)
    ensures var before := Execute(Apply(sys, reset), later);
      Apply(before, step) == before
  {
    StaleAfterReset(sys, reset, step.action.ticket);
    LoginStaysStale(Apply(sys, reset), later, step.action.ticket);
  }

  /** The same for an admin pairing. */
  lemma StalePairingIsRefused(sys: System, reset: Step, later: seq<Step>, step: Step)
    requires CredentialsCurrent(sys) && reset.action.ResetPassword? && sys.db.admin.Some?
      && step.action.CreateAdminPairing?
    requires forall s :: s in later ==> s.action != BeginAdminPairing(step.action.ticket)
    ensures var before := Execute(Apply(sys, reset), later);
      Apply(before, step) == before
  {
    StaleAfterReset(sys, reset, step.action.ticket);
    PairingStaysStale(Apply(sys, reset), later, step.action.ticket);
  }
}
