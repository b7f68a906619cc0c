/** Which name, password hash and version the administrator has, over every run. */
module AuthCredentials {
  import opened Outcomes
  import opened AuthStore
  import opened AuthSystem

  /**
   * The administrator has the name and hash last given, and its version counts the resets; without
   * one nothing was given and nothing was reset.
   */
  predicate CredentialsStored(sys: System) {
    if sys.db.admin.Some? then
      && sys.given == Some((sys.db.admin.value.username, sys.db.admin.value.passwordHash))
      && sys.db.admin.value.version == sys.resets + 1
    else sys.given.None? && sys.resets == 0
  }

  predicate ChangesAdmin(a: Action) { a.Setup? || a.ResetPassword? || a.CreateAdminFromCli? }

  lemma OtherStepsKeepAdmin(sys: System, step: Step)
    requires !ChangesAdmin(step.action)
    ensures AdminKept(sys, Apply(sys, step))
  {
  }

  lemma SetupStores(sys: System, step: Step)
    requires CredentialsStored(sys) && step.action.Setup?
    ensures CredentialsStored(Apply(sys, step))
    ensures Apply(sys, step) != sys ==>
      Apply(sys, step).db.admin == Some(Admin(step.action.username, step.action.passwordHash, 1))
  {
  }

  /** An administrator is created from the command line exactly while there is none. */
  lemma CreationStores(sys: System, step: Step)
    requires CredentialsStored(sys) && step.action.CreateAdminFromCli?
    ensures CredentialsStored(Apply(sys, step))
    ensures var r := Apply(sys, step);
      if sys.db.admin.Some? then r == sys
      else r.db == sys.db.(admin := Some(Admin(step.action.username, step.action.passwordHash, 1)))
  {
  }

  /** A reset stores the new name and hash one version later; without an administrator it does nothing. */
  lemma ResetStores(sys: System, step: Step)
    requires CredentialsStored(sys) && step.action.ResetPassword?
    ensures CredentialsStored(Apply(sys, step))
    ensures var r := Apply(sys, step);
      if sys.db.admin.None? then r == sys
      else r.db.admin == Some(Admin(step.action.username, step.action.passwordHash, sys.db.admin.value.version + 1))
  {
  }

  lemma StepStores(sys: System, step: Step)
    requires CredentialsStored(sys)
    ensures CredentialsStored(Apply(sys, step))
  {
    if step.action.Setup? {
      SetupStores(sys, step);
    } else if step.action.CreateAdminFromCli? {
      CreationStores(sys, step);
    } else if step.action.ResetPassword? {
      ResetStores(sys, step);
    } else {
      OtherStepsKeepAdmin(sys, step);
    }
  }

  /**
   * Over every run the administrator has the name and password hash that the last successful setup,
   * creation or reset was given, and a version one above the number of resets.
   */
  lemma {:induction false} AdminHasLastCredentials(sys: System, steps: seq<Step>)
    requires CredentialsStored(sys)
    ensures CredentialsStored(Execute(sys, steps))
    decreases |steps|
  {
    if steps != [] {
      StepStores(sys, steps[0]);
      AdminHasLastCredentials(Apply(sys, steps[0]), steps[1..]);
    }
  }

  /** After a reset, until the next one, the administrator has exactly the credentials it was given. */
  lemma {:induction false} ResetLasts(sys: System, reset: Step, later: seq<Step>)
    requires CredentialsStored(sys) && sys.db.admin.Some? && reset.action.ResetPassword?
    requires forall s :: s in later ==> !s.action.ResetPassword?
    ensures Execute(Apply(sys, reset), later).db.admin
         == Some(Admin(reset.action.username, reset.action.passwordHash, sys.db.admin.value.version + 1))
  {
    ResetStores(sys, reset);
    AdminStays(Apply(sys, reset), later);
  }

  /** Only a reset changes an administrator. */
  lemma {:induction false} AdminStays(sys: System, steps: seq<Step>)
    requires CredentialsStored(sys) && sys.db.admin.Some? && forall s :: s in steps ==> !s.action.ResetPassword?
    ensures Execute(sys, steps).db.admin == sys.db.admin
    decreases |steps|
  {
    if steps != [] {
      assert steps[0] in steps;
      StepKeepsAdmin(sys, steps[0]);
      StepStores(sys, steps[0]);
      AdminStays(Apply(sys, steps[0]), steps[1..]);
    }
  }

  lemma StepKeepsAdmin(sys: System, step: Step)
    requires CredentialsStored(sys) && sys.db.admin.Some? && !step.action.ResetPassword?
    ensures Apply(sys, step).db.admin == sys.db.admin
  {
    if step.action.Setup? {
      SetupStores(sys, step);
    } else if step.action.CreateAdminFromCli? {
      CreationStores(sys, step);
    } else {
      OtherStepsKeepAdmin(sys, step);
    }
  }

  lemma CredentialsFromInitial(steps: seq<Step>)
    ensures CredentialsStored(Execute(INITIAL, steps))
  {
    AdminHasLastCredentials(INITIAL, steps);
  }
}
