/** What pairing codes were used for, over every run. */
module AuthPairing {
  import opened Outcomes
  import opened AuthStore
  import opened AuthSystem
  import opened AuthGuarantees

  // ----- one use

  /**
   * A pairing request changes anything only with an unused, unexpired code whose creator is an
   * active admin session at that moment; it uses the code up and adds exactly one session, of
   * the code's role and the creator's name.
   */
  lemma PairNeedsActiveCreator(sys: System, step: Step)
    requires step.action.Pair? && Apply(sys, step) != sys
    ensures var a := step.action;
      && a.pairing in sys.db.pairings
      && var p := sys.db.pairings[a.pairing];
      && p.usedAt.None? && p.expiresAt > step.now && p.creator in sys.db.sessions
      && sys.db.sessions[p.creator].role == Administrator && ActiveAt(sys.db.sessions[p.creator], step.now)
      && var r := Apply(sys, step);
      && r.db.pairings == sys.db.pairings[a.pairing := p.(usedAt := Some(step.now))]
      && r.uses == sys.uses + [Use(a.pairing, a.id, step.now)]
      && a.id !in sys.db.sessions && a.id in r.db.sessions
      && r.db.sessions == sys.db.sessions[a.id := r.db.sessions[a.id]]
      && r.db.sessions[a.id].role == p.role && r.db.sessions[a.id].username == sys.db.sessions[p.creator].username
      && r.db.sessions[a.id].kind == Fixed && r.db.sessions[a.id].authMethod == Pairing
      && r.db.sessions[a.id].revokedAt.None?
  {
  }

  lemma OtherStepsKeepPairings(sys: System, step: Step)
    requires !step.action.Pair?
    ensures PairingsKept(sys, Apply(sys, step))
  {
  }

  /** Sessions other steps create are not pairing sessions. */
  ghost predicate NoNewPairedSessions(sys: System, r: System) {
    forall id :: id in r.db.sessions && id !in sys.db.sessions ==> r.db.sessions[id].authMethod != Pairing
  }

  lemma InsertingStepsPairNone(sys: System, step: Step)
    requires step.action.FinishLogin? || step.action.OidcLogin? || step.action.Setup?
    ensures NoNewPairedSessions(sys, Apply(sys, step))
  {
  }

  lemma OtherStepsPairNone(sys: System, step: Step)
    requires !step.action.Pair?
    ensures NoNewPairedSessions(sys, Apply(sys, step))
  {
    if AddsSession(step.action) {
      InsertingStepsPairNone(sys, step);
    } else {
      OtherStepsAddNone(sys, step);
      NoneNoPairing(sys, Apply(sys, step));
    }
  }

  lemma NoneNoPairing(sys: System, r: System)
    requires NoNewSessions(sys, r)
    ensures NoNewPairedSessions(sys, r)
  {
  }

  /** Existing sessions keep role, method, creation and lifetime, and are revoked at most now. */
  ghost predicate SessionsLast(sys: System, r: System, now: int) {
    forall id :: id in sys.db.sessions ==>
      && id in r.db.sessions
      && var s, s' := sys.db.sessions[id], r.db.sessions[id];
      && s'.role == s.role && s'.authMethod == s.authMethod && s'.absoluteExpiresAt == s.absoluteExpiresAt
      && (s'.revokedAt == s.revokedAt || (s.revokedAt.None? && s'.revokedAt == Some(now)))
  }

  lemma PairStepLasts(sys: System, step: Step)
    requires step.action.Pair?
    ensures SessionsLast(sys, Apply(sys, step), step.now)
  {
    if Apply(sys, step) != sys {
      PairNeedsActiveCreator(sys, step);
    }
  }

  lemma InsertingStepsLast(sys: System, step: Step)
    requires AddsSession(step.action) && !step.action.Pair?
    ensures SessionsLast(sys, Apply(sys, step), step.now)
  {
  }

  lemma RevokingStepsLast(sys: System, step: Step)
    requires step.action.ResetPassword? || step.action.Revoke? || step.action.RevokePolicies?
    ensures SessionsLast(sys, Apply(sys, step), step.now)
  {
  }

  /** Steps that do not write the session table. */
  predicate LeavesSessions(a: Action) {
    !AddsSession(a) && !a.ResetPassword? && !a.Revoke? && !a.RevokePolicies? && !a.Touch?
  }

  lemma CodeStepsLeaveSessions(sys: System, step: Step)
    requires step.action.CreateAdminPairing? || step.action.CreateViewerPairing?
    ensures Apply(sys, step).db.sessions == sys.db.sessions
  {
  }

  lemma CredentialStepsLeaveSessions(sys: System, step: Step)
    requires step.action.IssueSetupToken? || step.action.InvalidateSetup? || step.action.CreateAdminFromCli?
    ensures Apply(sys, step).db.sessions == sys.db.sessions
  {
    match step.action
    case IssueSetupToken(hash, expiresAt) => assert Apply(sys, step) == IssueStep(sys, hash, expiresAt);
    case InvalidateSetup(hash) => assert Apply(sys, step) == InvalidateStep(sys, step.now, hash);
    case CreateAdminFromCli(name, hash) => assert Apply(sys, step) == CreateAdminStep(sys, name, hash);
  }

  lemma ReadStepsLeaveSessions(sys: System, step: Step)
    requires step.action.BeginLogin? || step.action.BeginAdminPairing?
    ensures Apply(sys, step).db.sessions == sys.db.sessions
  {
  }

  lemma OtherStepsLeaveSessions(sys: System, step: Step)
    requires LeavesSessions(step.action)
    ensures Apply(sys, step).db.sessions == sys.db.sessions
  {
    var a := step.action;
    if a.CreateAdminPairing? || a.CreateViewerPairing? {
      CodeStepsLeaveSessions(sys, step);
    } else if a.BeginLogin? || a.BeginAdminPairing? {
      ReadStepsLeaveSessions(sys, step);
    } else {
      CredentialStepsLeaveSessions(sys, step);
    }
  }

  lemma TouchedSessionsLast(sys: System, r: System, now: int)
    requires SessionsTouched(sys, r, now)
    ensures SessionsLast(sys, r, now)
  {
  }

  lemma StepKeepsSessions(sys: System, step: Step)
    ensures SessionsLast(sys, Apply(sys, step), step.now)
  {
    if step.action.Pair? {
      PairStepLasts(sys, step);
    } else if AddsSession(step.action) {
      InsertingStepsLast(sys, step);
    } else if LeavesSessions(step.action) {
      OtherStepsLeaveSessions(sys, step);
    } else if step.action.Touch? {
      assert SessionsTouched(sys, Apply(sys, step), step.now);
      TouchedSessionsLast(sys, Apply(sys, step), step.now);
    } else {
      RevokingStepsLast(sys, step);
    }
  }

  // ----- all uses

  /** Each use used a code up and made one session of the code's role; no code and no session has two. */
  ghost predicate UsesHistory(sys: System) {
    && (forall u :: u in sys.uses ==> UseStands(sys, u))
    && (forall i, j :: 0 <= i < j < |sys.uses| ==>
          sys.uses[i].pairing != sys.uses[j].pairing && sys.uses[i].session != sys.uses[j].session)
    && forall id :: id in sys.db.sessions && sys.db.sessions[id].authMethod == Pairing ==> HasUse(sys, id)
  }

  ghost predicate HasUse(sys: System, id: string) {
    exists u :: u in sys.uses && u.session == id
  }

  /**
   * The code is used up, its session exists with its role, and its creator was an administrator
   * that had neither expired nor been revoked when the code was used.
   */
  ghost predicate UseStands(sys: System, u: Use) {
    && u.pairing in sys.db.pairings && u.session in sys.db.sessions
    && var p, s := sys.db.pairings[u.pairing], sys.db.sessions[u.session];
    && p.usedAt.Some? && s.authMethod == Pairing && s.role == p.role && p.creator in sys.db.sessions
    && var c := sys.db.sessions[p.creator];
    && c.role == Administrator && u.at < c.absoluteExpiresAt && (c.revokedAt.Some? ==> u.at <= c.revokedAt.value)
  }

  ghost predicate UsedBy(sys: System, clock: int) {
    forall u :: u in sys.uses ==> u.at <= clock
  }

  lemma UseStillStands(sys: System, r: System, u: Use, now: int)
    requires UseStands(sys, u) && u.at <= now && SessionsLast(sys, r, now)
    requires u.pairing in r.db.pairings && r.db.pairings[u.pairing].usedAt.Some?
    requires r.db.pairings[u.pairing] == sys.db.pairings[u.pairing].(usedAt := r.db.pairings[u.pairing].usedAt)
    ensures UseStands(r, u)
  {
  }

  lemma OtherStepsKeepUses(sys: System, r: System, clock: int, now: int)
    requires UsesHistory(sys) && UsedBy(sys, clock) && clock <= now
    requires PairingsKept(sys, r) && NoNewPairedSessions(sys, r) && SessionsLast(sys, r, now)
    ensures UsesHistory(r) && UsedBy(r, now)
  {
    forall u | u in r.uses ensures UseStands(r, u) {
      UseStillStands(sys, r, u, now);
    }
    forall id | id in r.db.sessions && r.db.sessions[id].authMethod == Pairing ensures HasUse(r, id) {
      assert HasUse(sys, id);
    }
  }

  /** The code is unused and the session id is free. */
  ghost predicate Fresh(sys: System, u: Use) {
    u.pairing in sys.db.pairings && sys.db.pairings[u.pairing].usedAt.None? && u.session !in sys.db.sessions
  }

  /** The use of a fresh code, which makes one session. */
  ghost predicate UsesUp(sys: System, r: System, u: Use) {
    && Fresh(sys, u) && r.uses == sys.uses + [u]
    && r.db.pairings == sys.db.pairings[u.pairing := sys.db.pairings[u.pairing].(usedAt := Some(u.at))]
    && forall id :: id in r.db.sessions ==> id in sys.db.sessions || id == u.session
  }

  lemma OldUsesStand(sys: System, r: System, u: Use, clock: int)
    requires UsesHistory(sys) && UsedBy(sys, clock) && clock <= u.at && SessionsLast(sys, r, u.at) && UsesUp(sys, r, u)
    ensures forall v :: v in sys.uses ==> UseStands(r, v)
  {
    forall v | v in sys.uses ensures UseStands(r, v) {
      UseStillStands(sys, r, v, u.at);
    }
  }

  lemma UsesStayDistinct(sys: System, r: System, u: Use)
    requires UsesHistory(sys) && UsesUp(sys, r, u)
    ensures forall i, j :: 0 <= i < j < |r.uses| ==>
      r.uses[i].pairing != r.uses[j].pairing && r.uses[i].session != r.uses[j].session
  {
    forall i | 0 <= i < |sys.uses| ensures sys.uses[i].pairing != u.pairing && sys.uses[i].session != u.session {
      assert sys.uses[i] in sys.uses && UseStands(sys, sys.uses[i]);
    }
  }

  lemma PairedSessionsHaveUses(sys: System, r: System, u: Use)
    requires UsesHistory(sys) && UsesUp(sys, r, u) && SessionsLast(sys, r, u.at)
    ensures forall id :: id in r.db.sessions && r.db.sessions[id].authMethod == Pairing ==> HasUse(r, id)
  {
    assert u in r.uses;
    forall id | id in r.db.sessions && r.db.sessions[id].authMethod == Pairing ensures HasUse(r, id) {
      if id != u.session {
        assert HasUse(sys, id);
        var v :| v in sys.uses && v.session == id;
        assert v in r.uses;
      }
    }
  }

  lemma NewUseKeepsUses(sys: System, r: System, u: Use, clock: int)
    requires UsesHistory(sys) && UsedBy(sys, clock) && clock <= u.at && SessionsLast(sys, r, u.at)
    requires UsesUp(sys, r, u) && UseStands(r, u)
    ensures UsesHistory(r) && UsedBy(r, u.at)
  {
    OldUsesStand(sys, r, u, clock);
    UsesStayDistinct(sys, r, u);
    PairedSessionsHaveUses(sys, r, u);
  }

  lemma ApplyKeepsUses(sys: System, step: Step, clock: int)
    requires UsesHistory(sys) && UsedBy(sys, clock) && clock <= step.now
    ensures UsesHistory(Apply(sys, step)) && UsedBy(Apply(sys, step), step.now)
  {
    var r := Apply(sys, step);
    StepKeepsSessions(sys, step);
    if !step.action.Pair? {
      OtherStepsKeepPairings(sys, step);
      OtherStepsPairNone(sys, step);
      OtherStepsKeepUses(sys, r, clock, step.now);
    } else if r != sys {
      PairNeedsActiveCreator(sys, step);
      NewUseKeepsUses(sys, r, Use(step.action.pairing, step.action.id, step.now), clock);
    }
  }

  /**
   * Over every run of a clock that never goes back: each pairing code made at most one session,
   * each pairing session came from one use of one code and has that code's role, and no code was
   * used after its creator had expired or been revoked.
   */
  lemma {:induction false} PairingsUsedOnce(sys: System, steps: seq<Step>, clock: int)
    requires UsesHistory(sys) && UsedBy(sys, clock) && ClockFrom(steps, clock)
    ensures UsesHistory(Execute(sys, steps)) && UsedBy(Execute(sys, steps), ClockAfter(steps, clock))
    decreases |steps|
  {
    if steps != [] {
      ApplyKeepsUses(sys, steps[0], clock);
      PairingsUsedOnce(Apply(sys, steps[0]), steps[1..], steps[0].now);
    }
  }

  lemma UsesFromInitial(steps: seq<Step>, clock: int)
    requires ClockFrom(steps, clock)
    ensures UsesHistory(Execute(INITIAL, steps))
  {
    PairingsUsedOnce(INITIAL, steps, clock);
  }
}
