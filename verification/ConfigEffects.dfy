/** What an update asks for, when it is accepted, and what the database and the loader make of it. */
module ConfigEffects {
  import opened Int64
  import opened Outcomes
  import opened TextForms
  import opened ConfigUpdate
  import opened ConfigReload

  /** A flag is a boolean or one of four words. */
  function FlagRead(v: BoolValue): Option<bool> {
    if v in {Flag(true), Text("true"), Text("1")} then Some(true)
    else if v in {Flag(false), Text("false"), Text("0")} then Some(false)
    else None
  }

  predicate Readable(v: Option<BoolValue>) { v.None? || FlagRead(v.value).Some? }

  lemma FlagsRead(v: BoolValue)
    ensures BoolOf(v) == FlagRead(v)
  {
  }

  predicate Masked(p: string) { p == "********" }

  /** The password the update leaves, if its decision is allowed. */
  function AskedPassword(c: Config, b: Body, moved: bool): Option<string> {
    match b.passwordMode
    case Some(Clear) => Some("")
    case Some(Keep) => if moved then None else Some(c.password)
    case Some(Replace) => Usable(b.password)
    case None =>
      if b.password == None || b.password.value == "" || Masked(b.password.value) then
        if moved then None else Some(c.password)
      else Usable(b.password)
  }

  function Usable(p: Option<string>): Option<string> {
    if p.Some? && p.value != "" && !Masked(p.value) && ByteLength(p.value) <= 1024 then p else None
  }

  /** The configuration the request asks for, field by field. */
  function Asked(c: Config, b: Body): Config
    requires Readable(b.acceptInvalidCerts)
  {
    Config(
      c.revision,
      if b.host.Some? then Trim(b.host.value) else c.host,
      if b.port.Some? then b.port.value else c.port,
      if b.scheme.Some? then Lower(b.scheme.value) else c.scheme,
      if b.username.Some? then Trim(b.username.value) else c.username,
      c.password,
      if b.acceptInvalidCerts.Some? then FlagRead(b.acceptInvalidCerts.value).value else c.acceptInvalidCerts,
      if b.pollSecs.Some? then b.pollSecs.value else c.pollSecs,
      if b.probeSecs.Some? then b.probeSecs.value else c.probeSecs,
      c.serverPort,
      if b.rawRetentionDays.Some? then b.rawRetentionDays.value else c.rawRetentionDays,
      if b.totalRetentionDays.Some? then b.totalRetentionDays.value else c.totalRetentionDays,
      if b.theme.Some? then Lower(b.theme.value) else c.theme,
      if b.latencyGoodMs.Some? then b.latencyGoodMs.value else c.latencyGoodMs,
      if b.latencyPoorMs.Some? then b.latencyPoorMs.value else c.latencyPoorMs,
      c.allowInsecureHttp)
  }

  /** The router would be reached in another way. */
  predicate Moves(c: Config, n: Config) {
    (c.host, c.port, c.scheme, c.username, c.acceptInvalidCerts)
      != (n.host, n.port, n.scheme, n.username, n.acceptInvalidCerts)
  }

  lemma EditsAsAsked(c: Config, b: Body)
    requires Readable(b.acceptInvalidCerts)
    ensures !BadFlag(b.acceptInvalidCerts) && Edited(c, b) == Asked(c, b)
  {
    if b.acceptInvalidCerts.Some? {
      FlagsRead(b.acceptInvalidCerts.value);
    }
  }

  lemma PasswordAsAsked(c: Config, b: Body, edited: Config)
    requires edited.password == c.password
    ensures var asked := AskedPassword(c, b, Moves(c, edited));
      if asked.None? then WithPassword(c, b, edited) == Failed(InvalidData)
      else WithPassword(c, b, edited).Done? && WithPassword(c, b, edited).value.0 == edited.(password := asked.value)
  {
    assert ConnectionChanged(edited, c) <==> Moves(c, edited);
  }

  /** The request is one the handler can carry out on this copy. */
  predicate Acceptable(c: Config, b: Body) {
    && b.expectedRevision == Some(c.revision) && Readable(b.acceptInvalidCerts) && Readable(b.wizardCompleted)
    && AskedPassword(c, b, Moves(c, Asked(c, b))).Some? && WithinLimits(Asked(c, b))
  }

  /**
   * An update is accepted exactly when it names the copy's revision, its flags can be read, its
   * password decision is allowed and the configuration asked for is within the limits. The result is
   * that configuration. It is a conflict exactly when it names another revision.
   */
  lemma UpdateDoesAsAsked(c: Config, b: Body)
    ensures PlanUpdate(c, b).Done? <==> Acceptable(c, b)
    ensures PlanUpdate(c, b).Done? ==>
      PlanUpdate(c, b).value.next
        == Asked(c, b).(password := AskedPassword(c, b, Moves(c, Asked(c, b))).value)
    ensures PlanUpdate(c, b) == Failed(Conflict) <==>
      b.expectedRevision.Some? && b.expectedRevision != Some(c.revision)
  {
    if b.acceptInvalidCerts.Some? {
      FlagsRead(b.acceptInvalidCerts.value);
    }
    if b.wizardCompleted.Some? {
      FlagsRead(b.wizardCompleted.value);
    }
    if Readable(b.acceptInvalidCerts) {
      EditsAsAsked(c, b);
      PasswordAsAsked(c, b, Asked(c, b));
      ValidIsWithinLimits(Asked(c, b));
    }
  }

  /** The documented limits of a configuration. */
  predicate WithinLimits(c: Config) {
    && 1 <= c.port <= 65535 && 1 <= c.pollSecs <= 30 && 10 <= c.probeSecs <= 600
    && 1 <= c.rawRetentionDays <= 30 && 7 <= c.totalRetentionDays <= 365 && c.rawRetentionDays <= c.totalRetentionDays
    && 1 <= c.latencyGoodMs <= 500 && c.latencyGoodMs < c.latencyPoorMs <= 2000
    && HasText(c.host) && ByteLength(c.host) <= 253
    && HasText(c.username) && ByteLength(c.username) <= 128
    && (c.scheme == "https" || (c.scheme == "http" && c.allowInsecureHttp))
    && c.theme in {"system", "light", "dark"}
  }

  lemma ValidIsWithinLimits(c: Config)
    ensures Valid(c) <==> WithinLimits(c)
    ensures forall p: string :: Valid(c.(password := p)) <==> Valid(c)
  {
    TrimMeaning(c.host);
    TrimMeaning(c.username);
  }

  // ----- what the transaction leaves

  lemma WizardRowWritten(c: Config, b: Body)
    requires PlanUpdate(c, b).Done? && b.wizardCompleted.Some?
    ensures var p := PlanUpdate(c, b).value;
      |p.values| == 13 && p.values[12]
        == (WizardCompleted, if FlagRead(b.wizardCompleted.value) == Some(true) then "true" else "false")
  {
    FlagsRead(b.wizardCompleted.value);
  }

  lemma NoWizardRowWritten(c: Config, b: Body)
    requires PlanUpdate(c, b).Done? && b.wizardCompleted.None?
    ensures |PlanUpdate(c, b).value.values| == 12
  {
    assert Persisted(PlanUpdate(c, b).value.next) + [] == Persisted(PlanUpdate(c, b).value.next);
  }

  lemma KeyUntouched(values: map<Key, string>, rows: seq<(Key, string)>, c: Config, key: Key)
    requires ExtraOnly(rows, c) && (key == WizardCompleted ==> |rows| == 12)
    requires key in {WizardCompleted, ServerPort, LegacyHost, LegacyPort, LegacyScheme, LegacyUsername}
    ensures key in PutAll(values, rows) <==> key in values
    ensures key in values ==> PutAll(values, rows)[key] == values[key]
  {
    forall j | 0 <= j < |rows| ensures rows[j].0 != key {
      if j < 12 {
        assert rows[j] == rows[..12][j];
      }
    }
    PutAllKeeps(values, rows, key);
  }

  /** A committed update stores the wizard flag it names, and leaves every key that updates do not write. */
  lemma CommitLeavesRest(db: Db, c: Config, b: Body, key: Key)
    requires PlanUpdate(c, b).Done? && c.revision == DbRevision(db)
    requires key in {WizardCompleted, ServerPort, LegacyHost, LegacyPort, LegacyScheme, LegacyUsername}
    ensures var p := PlanUpdate(c, b).value;
      var after := SaveTransaction(db, p.values, p.secret, b.expectedRevision).0;
      if key == WizardCompleted && b.wizardCompleted.Some?
      then Lookup(after, key) == Some(if FlagRead(b.wizardCompleted.value) == Some(true) then "true" else "false")
      else Lookup(after, key) == Lookup(db, key)
  {
    var p := PlanUpdate(c, b).value;
    PlanWrites(c, b);
    if b.wizardCompleted.Some? {
      WizardRowWritten(c, b);
    } else {
      NoWizardRowWritten(c, b);
    }
    if key == WizardCompleted && b.wizardCompleted.Some? {
      PutAllReads(db.values, p.values, 12);
    } else {
      KeyUntouched(db.values, p.values, p.next, key);
    }
  }

  /** The stored secret is kept, replaced or deleted as the request says. */
  lemma SecretAsAsked(db: Db, c: Config, b: Body)
    requires PlanUpdate(c, b).Done? && c.revision == DbRevision(db)
    ensures var p := PlanUpdate(c, b).value;
      var after := SaveTransaction(db, p.values, p.secret, b.expectedRevision).0;
      after.secret ==
        if b.passwordMode == Some(Clear) then None
        else if b.passwordMode == Some(Replace) || (b.passwordMode == None && Usable(b.password).Some?) then b.password
        else db.secret
  {
    SecretDecided(c, b, Edited(c, b));
    assert PlanUpdate(c, b).value.secret == WithPassword(c, b, Edited(c, b)).value.1;
  }

  lemma SecretDecided(c: Config, b: Body, edited: Config)
    requires WithPassword(c, b, edited).Done?
    ensures WithPassword(c, b, edited).value.1 ==
      if b.passwordMode == Some(Clear) then Delete
      else if b.passwordMode == Some(Replace) || (b.passwordMode == None && Usable(b.password).Some?) then
        Store(if b.password.Some? then b.password.value else "")
      else Unchanged
    ensures b.passwordMode == Some(Replace) ==> b.password.Some?
  {
  }

  // ----- what loading reads

  /** The names of the four router fields before they were renamed are read where the new ones are missing. */
  lemma LegacyNamesAreRead(env: Env, db: Db, host: string, port: u16, scheme: string, username: string)
    requires db.values.Keys !! {RouterHost, RouterPort, RouterScheme, RouterUsername}
    requires Lookup(db, LegacyHost) == Some(host) && Lookup(db, LegacyPort) == Some(ToText(port))
    requires Lookup(db, LegacyScheme) == Some(scheme) && Lookup(db, LegacyUsername) == Some(username)
    requires scheme in {"http", "https"}
    ensures var c := Merged(env, db); (c.host, c.port, c.scheme, c.username) == (host, port, scheme, username)
  {
    NumberRoundTrip(port, 0xFFFF);
    SchemeKept(scheme);
  }

  /** An empty table loads the environment's settings, its password included, and stores that password. */
  lemma EmptyTableLoadsEnvironment(env: Env)
    requires WithinLimits(Config(0, env.host, env.port, env.scheme, env.username, env.password, env.acceptInvalidCerts,
                                 env.pollSecs, env.probeSecs, env.serverPort, env.rawRetentionDays,
                                 env.totalRetentionDays, "system", env.latencyGoodMs, env.latencyPoorMs,
                                 env.allowInsecureHttp))
    ensures Load(env, Db(map[], None)) == Done((
      Config(0, env.host, env.port, env.scheme, env.username, env.password, env.acceptInvalidCerts, env.pollSecs,
             env.probeSecs, env.serverPort, env.rawRetentionDays, env.totalRetentionDays, "system", env.latencyGoodMs,
             env.latencyPoorMs, env.allowInsecureHttp),
      Db(map[], if env.password == "" then None else Some(env.password))))
  {
    ValidIsWithinLimits(Merged(env, Db(map[], None)));
  }

  /** Loading refuses exactly a configuration outside the limits, and changes only a missing secret. */
  lemma LoadChecksLimits(env: Env, db: Db)
    ensures Load(env, db).Done? <==> WithinLimits(Merged(env, db))
    ensures Load(env, db).Done? ==>
      Load(env, db).value
        == (Merged(env, db), db.(secret := if db.secret == None && env.password != "" then Some(env.password)
                                           else db.secret))
  {
    ValidIsWithinLimits(Merged(env, db));
  }
}
