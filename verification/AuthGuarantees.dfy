/** One-shot tokens, final expiry, and the tightness of the touch throttle, over every run. */
module AuthGuarantees {
  import opened Int64
  import opened Outcomes
  import opened AuthStore
  import opened AuthSystem
  import opened AuthReset

  // ----- setup succeeds at most once

  /** The history agrees with the tables about setups and the outstanding token. */
  ghost predicate SetupHistory(sys: System) {
    && sys.setups <= 1 && (sys.setups == 1 ==> sys.db.admin.Some?)
    && (sys.outstanding.Some? <==> sys.db.setup.Some? && sys.db.setup.value.usedAt.None?)
    && (sys.outstanding.Some? ==> sys.outstanding.value == (sys.db.setup.value.hash, sys.db.setup.value.expiresAt))
  }

  lemma OtherStepsLeaveSetup(sys: System, step: Step)
    requires !step.action.Setup? && !step.action.IssueSetupToken? && !step.action.InvalidateSetup?
    ensures SetupUntouched(sys, Apply(sys, step))
  {
  }

  /**
   * A setup call changes anything only with the token now outstanding (not replaced,
   * invalidated or used), before its expiry, while no administrator exists and none was set up.
   */
  lemma SetupNeedsOutstandingToken(sys: System, step: Step)
    requires SetupHistory(sys) && step.action.Setup?
    ensures Apply(sys, step) == sys ||
      (&& sys.setups == 0 && sys.db.admin.None?
       && sys.outstanding.Some? && sys.outstanding.value.0 == step.action.setupHash
         && sys.outstanding.value.1 > step.now
       && Apply(sys, step).setups == 1 && Apply(sys, step).db.admin.Some?)
    ensures SetupHistory(Apply(sys, step))
  {
  }

  lemma UntouchedKeepsHistory(sys: System, r: System)
    requires SetupHistory(sys) && SetupUntouched(sys, r)
    ensures SetupHistory(r)
  {
  }

  lemma TokenStepsKeepHistory(sys: System, step: Step)
    requires SetupHistory(sys) && (step.action.IssueSetupToken? || step.action.InvalidateSetup?)
    ensures SetupHistory(Apply(sys, step))
  {
  }

  lemma ApplyKeepsSetupHistory(sys: System, step: Step)
    requires SetupHistory(sys)
    ensures SetupHistory(Apply(sys, step))
  {
    if step.action.Setup? {
      SetupNeedsOutstandingToken(sys, step);
    } else if step.action.IssueSetupToken? || step.action.InvalidateSetup? {
      TokenStepsKeepHistory(sys, step);
    } else {
      OtherStepsLeaveSetup(sys, step);
      UntouchedKeepsHistory(sys, Apply(sys, step));
    }
  }

  /** Over every run at most one setup call succeeds. */
  lemma {:induction false} SetupSucceedsOnce(sys: System, steps: seq<Step>)
    requires SetupHistory(sys)
    ensures SetupHistory(Execute(sys, steps))
    decreases |steps|
  {
    if steps != [] {
      ApplyKeepsSetupHistory(sys, steps[0]);
      SetupSucceedsOnce(Apply(sys, steps[0]), steps[1..]);
    }
  }

  lemma NoSetupOnceAdminExists(sys: System, steps: seq<Step>, step: Step)
    requires SetupHistory(sys) && sys.db.admin.Some? && step.action.Setup?
    ensures Apply(Execute(sys, steps), step) == Execute(sys, steps)
  {
    SetupSucceedsOnce(sys, steps);
    AdminStays(sys, steps);
    SetupNeedsOutstandingToken(Execute(sys, steps), step);
  }

  lemma {:induction false} AdminStays(sys: System, steps: seq<Step>)
    requires sys.db.admin.Some?
    ensures Execute(sys, steps).db.admin.Some?
    decreases |steps|
  {
    if steps != [] {
      AdminStaysStep(sys, steps[0]);
      AdminStays(Apply(sys, steps[0]), steps[1..]);
    }
  }

  lemma AdminStaysStep(sys: System, step: Step)
    requires sys.db.admin.Some?
    ensures Apply(sys, step).db.admin.Some?
  {
    if !step.action.BeginLogin? && !step.action.BeginAdminPairing? {
      assert Framed(sys, Apply(sys, step));
    }
  }

  // ----- expiry is final

  /** The steps follow a clock that never goes back, starting at `clock`. */
  ghost predicate ClockFrom(steps: seq<Step>, clock: int)
    decreases |steps|
  {
    steps == [] || (clock <= steps[0].now && ClockFrom(steps[1..], steps[0].now))
  }

  /** The session exists and is inactive from time `t` on. */
  ghost predicate Dead(db: AuthTables, id: string, t: int) {
    id in db.sessions && !ActiveAt(db.sessions[id], t)
  }

  lemma DeadStaysDead(s: Session, t: int, later: int)
    requires !ActiveAt(s, t) && t <= later
    ensures !ActiveAt(s, later)
  {
  }

  lemma StepNeverRevives(sys: System, step: Step, id: string, t: int)
    requires Dead(sys.db, id, t) && t <= step.now
    ensures Dead(Apply(sys, step).db, id, t)
  {
    DeadStaysDead(sys.db.sessions[id], t, step.now);
    if step.action.Touch? {
      assert SessionsTouched(sys, Apply(sys, step), step.now);
    } else {
      StepOnlyRevokes(sys, step);
    }
  }

  lemma StepOnlyRevokes(sys: System, step: Step)
    requires !step.action.Touch?
    ensures SessionsOnlyRevoked(sys, Apply(sys, step))
  {
  }

  /** Once revoked, idle-expired or absolutely expired, a session is never active again in any run. */
  lemma {:induction false} ExpiryIsFinal(sys: System, steps: seq<Step>, id: string, t: int, later: int)
    requires Dead(sys.db, id, t) && ClockFrom(steps, t) && t <= later
    ensures Dead(Execute(sys, steps).db, id, later)
    decreases |steps|
  {
    if steps == [] {
      DeadStaysDead(sys.db.sessions[id], t, later);
    } else {
      StepNeverRevives(sys, steps[0], id, t);
      ClockFromEarlier(steps[1..], steps[0].now, t);
      ExpiryIsFinal(Apply(sys, steps[0]), steps[1..], id, t, later);
    }
  }

  lemma ClockFromEarlier(steps: seq<Step>, clock: int, earlier: int)
    requires ClockFrom(steps, clock) && earlier <= clock
    ensures ClockFrom(steps, earlier)
  {
  }

  // ----- the throttle is tight

  /** Standard sessions idle out a fixed time after they were last seen; others never idle out. */
  ghost predicate IdleFollowsSeen(db: AuthTables, clock: int) {
    forall id :: id in db.sessions ==>
      db.sessions[id].lastSeen <= clock
      && (db.sessions[id].kind == Standard ==>
        db.sessions[id].idleExpiresAt == Some(db.sessions[id].lastSeen + STANDARD_IDLE_SECS))
  }

  /** New sessions are recorded with a time no later than the step that inserts them. */
  predicate Timely(step: Step) {
    && (step.action.FinishLogin? ==> step.action.born <= step.now)
    && (step.action.OidcLogin? ==> step.action.born <= step.now)
    && (step.action.Setup? ==> step.action.born <= step.now)
  }

  /** When the sessions a step inserts were last seen. */
  function SeenAt(step: Step): int {
    match step.action
    case FinishLogin(_, _, _, born) => born
    case OidcLogin(_, _, _, _, _, born) => born
    case Setup(_, _, _, _, _, born) => born
    case _ => step.now
  }

  predicate AddsSession(a: Action) { a.FinishLogin? || a.OidcLogin? || a.Setup? || a.Pair? }

  lemma AddingStepSeen(sys: System, step: Step)
    requires AddsSession(step.action)
    ensures NewSessionsSeen(sys, Apply(sys, step), SeenAt(step))
  {
  }

  lemma OtherStepsAddNone(sys: System, step: Step)
    requires !AddsSession(step.action)
    ensures NoNewSessions(sys, Apply(sys, step))
  {
    if step.action.Touch? {
      assert SessionsTouched(sys, Apply(sys, step), step.now);
    }
  }

  lemma StepInsertsSeen(sys: System, step: Step)
    ensures NewSessionsSeen(sys, Apply(sys, step), SeenAt(step))
  {
    if AddsSession(step.action) {
      AddingStepSeen(sys, step);
    } else {
      OtherStepsAddNone(sys, step);
    }
  }

  lemma RevokedKeepIdle(sys: System, r: System, at: int, clock: int, now: int)
    requires IdleFollowsSeen(sys.db, clock) && clock <= now && at <= now
    requires SessionsOnlyRevoked(sys, r) && NewSessionsSeen(sys, r, at)
    ensures IdleFollowsSeen(r.db, now)
  {
  }

  lemma TouchedKeepIdle(sys: System, r: System, at: int, clock: int, now: int)
    requires IdleFollowsSeen(sys.db, clock) && clock <= now && at <= now
    requires SessionsTouched(sys, r, now) && NewSessionsSeen(sys, r, at)
    ensures IdleFollowsSeen(r.db, now)
  {
  }

  lemma StepKeepsIdle(sys: System, step: Step, clock: int)
    requires IdleFollowsSeen(sys.db, clock) && clock <= step.now && Timely(step)
    ensures IdleFollowsSeen(Apply(sys, step).db, step.now)
  {
    StepInsertsSeen(sys, step);
    var r := Apply(sys, step);
    if step.action.Touch? {
      assert SessionsTouched(sys, r, step.now);
      TouchedKeepIdle(sys, r, SeenAt(step), clock, step.now);
    } else {
      StepOnlyRevokes(sys, step);
      RevokedKeepIdle(sys, r, SeenAt(step), clock, step.now);
    }
  }

  function ClockAfter(steps: seq<Step>, clock: int): int
    decreases |steps|
  {
    if steps == [] then clock else ClockAfter(steps[1..], steps[0].now)
  }

  lemma {:induction false} RunsKeepIdle(sys: System, steps: seq<Step>, clock: int)
    requires IdleFollowsSeen(sys.db, clock) && ClockFrom(steps, clock) && forall s :: s in steps ==> Timely(s)
    ensures IdleFollowsSeen(Execute(sys, steps).db, ClockAfter(steps, clock))
    decreases |steps|
  {
    if steps != [] {
      assert steps[0] in steps;
      StepKeepsIdle(sys, steps[0], clock);
      RunsKeepIdle(Apply(sys, steps[0]), steps[1..], steps[0].now);
    }
  }

  /**
   * After any run, an accepted HTTP touch of a standard session leaves an idle expiry less than
   * 300 seconds below the one an unthrottled touch would set, and never above it.
   */
  lemma ThrottleIsTight(sys: System, steps: seq<Step>, clock: int, c: Caller, now: int)
    requires IdleFollowsSeen(sys.db, clock) && ClockFrom(steps, clock) && forall s :: s in steps ==> Timely(s)
    requires ClockAfter(steps, clock) <= now
    requires TouchSession(Execute(sys, steps).db, c, now, HTTP_SESSION_TOUCH_SECS).1 && c.kind == Standard
    ensures var db := Execute(sys, steps).db;
      var throttled := TouchSession(db, c, now, HTTP_SESSION_TOUCH_SECS).0;
      var unthrottled := TouchSession(db, c, now, 0).0;
      && c.id in throttled.sessions && c.id in unthrottled.sessions
      && throttled.sessions[c.id].idleExpiresAt.Some? && unthrottled.sessions[c.id].idleExpiresAt.Some?
      && unthrottled.sessions[c.id].idleExpiresAt.value - HTTP_SESSION_TOUCH_SECS
         < throttled.sessions[c.id].idleExpiresAt.value <= unthrottled.sessions[c.id].idleExpiresAt.value
  {
    RunsKeepIdle(sys, steps, clock);
  }

  // ----- no session outlives its kind

  ghost predicate LifetimesHold(db: AuthTables) {
    forall id :: id in db.sessions ==>
      db.sessions[id].absoluteExpiresAt <= db.sessions[id].createdAt + Lifetime(db.sessions[id])
  }

  lemma RevokedKeepLifetimes(sys: System, r: System, at: int)
    requires LifetimesHold(sys.db) && SessionsOnlyRevoked(sys, r) && NewSessionsSeen(sys, r, at)
    ensures LifetimesHold(r.db)
  {
  }

  lemma TouchedKeepLifetimes(sys: System, r: System, now: int)
    requires LifetimesHold(sys.db) && SessionsTouched(sys, r, now)
    ensures LifetimesHold(r.db)
  {
  }

  lemma StepKeepsLifetimes(sys: System, step: Step)
    requires LifetimesHold(sys.db)
    ensures LifetimesHold(Apply(sys, step).db)
  {
    var r := Apply(sys, step);
    if step.action.Touch? {
      assert SessionsTouched(sys, r, step.now);
      TouchedKeepLifetimes(sys, r, step.now);
    } else {
      StepInsertsSeen(sys, step);
      StepOnlyRevokes(sys, step);
      RevokedKeepLifetimes(sys, r, SeenAt(step));
    }
  }

  /** After any run, however often it was touched, no session is active beyond the lifetime of its kind and role. */
  lemma {:induction false} NoSessionOutlivesItsKind(sys: System, steps: seq<Step>, id: string, t: int)
    requires LifetimesHold(sys.db)
    requires id in Execute(sys, steps).db.sessions && ActiveAt(Execute(sys, steps).db.sessions[id], t)
    ensures var s := Execute(sys, steps).db.sessions[id]; t < s.createdAt + Lifetime(s)
    decreases |steps|
  {
    if steps != [] {
      StepKeepsLifetimes(sys, steps[0]);
      NoSessionOutlivesItsKind(Apply(sys, steps[0]), steps[1..], id, t);
    }
  }

  /** The empty system satisfies every premise above. */
  lemma InitialSatisfiesPremises(clock: int)
    ensures CredentialsCurrent(INITIAL) && SetupHistory(INITIAL) && IdleFollowsSeen(INITIAL.db, clock)
      && LifetimesHold(INITIAL.db)
  {
  }
}
