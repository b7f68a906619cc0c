/** What a restart reads back after an update was committed. */
module ConfigReload {
  import opened Int64
  import opened Outcomes
  import opened TextForms
  import opened ConfigUpdate

  lemma {:induction false} PutAllReads(values: map<Key, string>, rows: seq<(Key, string)>, i: nat)
    requires i < |rows| && forall j :: i < j < |rows| ==> rows[j].0 != rows[i].0
    ensures rows[i].0 in PutAll(values, rows) && PutAll(values, rows)[rows[i].0] == rows[i].1
    decreases |rows|
  {
    var front := rows[..|rows| - 1];
    if i < |front| {
      assert front[i] == rows[i];
      PutAllReads(values, front, i);
    }
  }

  lemma {:induction false} PutAllKeeps(values: map<Key, string>, rows: seq<(Key, string)>, key: Key)
    requires forall j :: 0 <= j < |rows| ==> rows[j].0 != key
    ensures key in PutAll(values, rows) <==> key in values
    ensures key in values ==> PutAll(values, rows)[key] == values[key]
    decreases |rows|
  {
    if rows != [] {
      PutAllKeeps(values, rows[..|rows| - 1], key);
    }
  }

  /** The configuration table holds exactly the text of `c` for everything an update writes. */
  ghost predicate Holds(values: map<Key, string>, c: Config) {
    forall i :: 0 <= i < 12 ==> Persisted(c)[i].0 in values && values[Persisted(c)[i].0] == Persisted(c)[i].1
  }

  ghost predicate ExtraOnly(rows: seq<(Key, string)>, c: Config) {
    && |rows| >= 12 && rows[..12] == Persisted(c)
    && forall j :: 12 <= j < |rows| ==> rows[j].0 == WizardCompleted
  }

  lemma PersistedKeysDiffer(c: Config, i: nat, j: nat)
    requires i < j < 12
    ensures Persisted(c)[i].0 != Persisted(c)[j].0
      && Persisted(c)[i].0 !in {WizardCompleted, ConfigRevision, ServerPort}
  {
  }

  lemma PersistedKeysKnown(c: Config, i: nat)
    requires i < 12
    ensures Persisted(c)[i].0 !in {WizardCompleted, ConfigRevision, ServerPort}
  {
  }

  lemma SavedRowsHold(values: map<Key, string>, rows: seq<(Key, string)>, c: Config)
    requires ExtraOnly(rows, c)
    ensures Holds(PutAll(values, rows), c)
  {
    forall i | 0 <= i < 12
      ensures Persisted(c)[i].0 in PutAll(values, rows) && PutAll(values, rows)[Persisted(c)[i].0] == Persisted(c)[i].1
    {
      assert rows[i] == rows[..12][i];
      PersistedKeysKnown(c, i);
      forall j | i < j < |rows| ensures rows[j].0 != rows[i].0 {
        if j < 12 {
          assert rows[j] == rows[..12][j];
          PersistedKeysDiffer(c, i, j);
        }
      }
      PutAllReads(values, rows, i);
    }
  }

  lemma SavedRowsKeepServerPort(values: map<Key, string>, rows: seq<(Key, string)>, c: Config)
    requires ExtraOnly(rows, c)
    ensures ServerPort in PutAll(values, rows) <==> ServerPort in values
    ensures ServerPort in values ==> PutAll(values, rows)[ServerPort] == values[ServerPort]
  {
    forall j | 0 <= j < |rows| ensures rows[j].0 != ServerPort {
      if j < 12 {
        assert rows[j] == rows[..12][j];
        PersistedKeysKnown(c, j);
      }
    }
    PutAllKeeps(values, rows, ServerPort);
  }

  lemma PasswordPlanned(c: Config, b: Body, edited: Config)
    requires WithPassword(c, b, edited).Done?
    ensures var (next, change) := WithPassword(c, b, edited).value;
      && next == edited.(password := next.password)
      && (change == Unchanged ==> next.password == edited.password)
      && (change.Store? ==> next.password == change.password && next.password != "")
      && (change == Delete ==> next.password == "")
  {
  }

  lemma EditKeepsRest(c: Config, b: Body)
    requires !BadFlag(b.acceptInvalidCerts)
    ensures var e := Edited(c, b);
      e.serverPort == c.serverPort && e.allowInsecureHttp == c.allowInsecureHttp && e.revision == c.revision
        && e.password == c.password
  {
  }

  lemma PlanWrites(c: Config, b: Body)
    requires PlanUpdate(c, b).Done?
    ensures var p := PlanUpdate(c, b).value;
      && ExtraOnly(p.values, p.next) && Valid(p.next)
      && p.next.serverPort == c.serverPort && p.next.allowInsecureHttp == c.allowInsecureHttp
        && p.next.revision == c.revision
      && (p.secret == Unchanged ==> p.next.password == c.password)
      && (p.secret.Store? ==> p.next.password == p.secret.password && p.next.password != "")
      && (p.secret == Delete ==> p.next.password == "")
  {
    var p := PlanUpdate(c, b).value;
    EditKeepsRest(c, b);
    PasswordPlanned(c, b, Edited(c, b));
    assert p.values[..12] == Persisted(p.next);
  }

  lemma TextIsHeld(values: map<Key, string>, c: Config)
    requires Holds(values, c)
    ensures RouterHost in values && values[RouterHost] == c.host
    ensures RouterPort in values && values[RouterPort] == ToText(c.port)
    ensures RouterScheme in values && values[RouterScheme] == c.scheme
    ensures RouterUsername in values && values[RouterUsername] == c.username
    ensures AcceptInvalidCerts in values && values[AcceptInvalidCerts] == FlagText(c.acceptInvalidCerts)
    ensures Theme in values && values[Theme] == c.theme
  {
    assert Persisted(c)[0].0 == RouterHost && Persisted(c)[1].0 == RouterPort && Persisted(c)[2].0 == RouterScheme;
    assert Persisted(c)[3].0 == RouterUsername && Persisted(c)[4].0 == AcceptInvalidCerts
      && Persisted(c)[11].0 == Theme;
  }

  lemma NumbersAreHeld(values: map<Key, string>, c: Config)
    requires Holds(values, c)
    ensures PollSecs in values && values[PollSecs] == ToText(c.pollSecs)
    ensures ProbeSecs in values && values[ProbeSecs] == ToText(c.probeSecs)
    ensures RawRetentionDays in values && values[RawRetentionDays] == ToText(c.rawRetentionDays)
    ensures TotalRetentionDays in values && values[TotalRetentionDays] == ToText(c.totalRetentionDays)
    ensures LatencyGoodMs in values && values[LatencyGoodMs] == ToText(c.latencyGoodMs)
    ensures LatencyPoorMs in values && values[LatencyPoorMs] == ToText(c.latencyPoorMs)
  {
    assert Persisted(c)[5].0 == PollSecs && Persisted(c)[6].0 == ProbeSecs && Persisted(c)[7].0 == RawRetentionDays;
    assert Persisted(c)[8].0 == TotalRetentionDays && Persisted(c)[9].0 == LatencyGoodMs
      && Persisted(c)[10].0 == LatencyPoorMs;
  }

  /** Reading back a table that holds `c` gives `c`, apart from what updates do not write. */
  lemma HeldIsMerged(env: Env, db: Db, c: Config)
    requires Holds(db.values, c) && Valid(c)
    ensures Merged(env, db) == c.(revision := DbRevision(db), password := Or(db.secret, env.password),
                                  serverPort := Merged(env, db).serverPort, allowInsecureHttp := env.allowInsecureHttp)
  {
    TextIsHeld(db.values, c);
    NumbersAreHeld(db.values, c);
    NumberRoundTrip(c.port, 0xFFFF);
    NumberRoundTrip(c.pollSecs, U64_MAX);
    NumberRoundTrip(c.probeSecs, U64_MAX);
    NumberRoundTrip(c.rawRetentionDays, U64_MAX);
    NumberRoundTrip(c.totalRetentionDays, U64_MAX);
    NumberRoundTrip(c.latencyGoodMs, U64_MAX);
    NumberRoundTrip(c.latencyPoorMs, U64_MAX);
    SchemeKept(c.scheme);
    assert FlagText(true) in ["true", "1"] && FlagText(false) !in ["true", "1"] by {
      assert "false"[0] != "true"[0] && "false"[0] != "1"[0];
    }
  }

  lemma SchemeKept(scheme: string)
    requires scheme == "http" || scheme == "https"
    ensures Lower(scheme) == scheme
  {
  }

  /** The stored secret is the password in force, or there is none and no password. */
  predicate SecretAgrees(secret: Option<string>, password: string) {
    if secret.Some? then secret.value == password else password == ""
  }

  /** The database reads back as `c`, except that a missing password falls back to the environment's. */
  ghost predicate Restores(env: Env, db: Db, c: Config) {
    Merged(env, db) == c.(password := Or(db.secret, env.password)) && SecretAgrees(db.secret, c.password) && Valid(c)
  }

  /** A committed update leaves a database that restores exactly the configuration it published. */
  lemma CommitRestores(env: Env, db: Db, c: Config, b: Body)
    requires Restores(env, db, c) && PlanUpdate(c, b).Done?
    ensures var p := PlanUpdate(c, b).value;
      var (after, saved) := SaveTransaction(db, p.values, p.secret, b.expectedRevision);
      saved && Restores(env, after, p.next.(revision := NextRevision(c.revision)))
      && DbRevision(after) == NextRevision(c.revision)
  {
    var p := PlanUpdate(c, b).value;
    PlanWrites(c, b);
    assert c.revision == DbRevision(db);
    var (after, saved) := SaveTransaction(db, p.values, p.secret, b.expectedRevision);
    SavedRowsHold(db.values, p.values, p.next);
    SavedRowsKeepServerPort(db.values, p.values, p.next);
    NumberRoundTrip(NextRevision(c.revision), U64_MAX);
    assert Holds(after.values, p.next) by {
      forall i | 0 <= i < 12
        ensures Persisted(p.next)[i].0 in after.values && after.values[Persisted(p.next)[i].0] == Persisted(p.next)[i].1
      {
        PersistedKeysKnown(p.next, i);
      }
    }
    HeldIsMerged(env, after, p.next);
    assert Merged(env, after).serverPort == Merged(env, db).serverPort == c.serverPort;
    assert Merged(env, db).allowInsecureHttp == env.allowInsecureHttp == c.allowInsecureHttp;
    assert Valid(p.next.(revision := NextRevision(c.revision)));
  }

  /** Starting up leaves a database that restores what was loaded. */
  lemma LoadRestores(env: Env, db: Db)
    requires Load(env, db).Done?
    ensures var (c, after) := Load(env, db).value; Restores(env, after, c) && DbRevision(after) == c.revision
  {
  }

  /**
   * A restart brings back the committed configuration exactly when a password is stored or the
   * environment offers none: a cleared password comes back from the environment.
   */
  lemma RestartAgreesExactly(env: Env, db: Db, c: Config)
    requires Restores(env, db, c)
    ensures Load(env, db).Done?
    ensures Load(env, db).value.0 == c <==> (db.secret.Some? || env.password == "")
  {
    assert Valid(Merged(env, db)) by {
      assert Valid(c);
    }
  }

  // ----- what an update may do

  /** A stored password is never carried over to another router target: it is replaced or cleared. */
  lemma PasswordNeverMoves(c: Config, b: Body)
    requires PlanUpdate(c, b).Done? && ConnectionChanged(c, PlanUpdate(c, b).value.next)
    ensures var p := PlanUpdate(c, b).value;
      p.next.password == "" || (b.password == Some(p.next.password) && p.secret == Store(p.next.password))
  {
    PasswordOfChange(c, b, Edited(c, b));
  }

  lemma PasswordOfChange(c: Config, b: Body, edited: Config)
    requires WithPassword(c, b, edited).Done? && ConnectionChanged(c, WithPassword(c, b, edited).value.0)
    ensures var (next, change) := WithPassword(c, b, edited).value;
      next.password == "" || (b.password == Some(next.password) && change == Store(next.password))
  {
  }

  lemma EditTwice(c: Config, b: Body, n: Config)
    requires !BadFlag(b.acceptInvalidCerts) && n == Edited(c, b).(password := n.password, revision := n.revision)
    ensures Edited(n, b) == n
  {
    var first := EditedLimits(EditedConnection(c, b), b);
    assert n.host == EditedConnection(c, b).host && n.pollSecs == first.pollSecs;
    assert EditedConnection(n, b) == n;
    assert EditedLimits(n, b) == n;
    assert EditedDisplay(n, b) == n;
  }

  /** Sending an accepted update again, on the revision it produced, is accepted and changes nothing more. */
  lemma UpdateIsIdempotent(c: Config, b: Body)
    requires PlanUpdate(c, b).Done?
    ensures var p := PlanUpdate(c, b).value;
      var n := p.next.(revision := NextRevision(c.revision));
      PlanUpdate(n, b.(expectedRevision := Some(n.revision))) == Done(p.(next := n))
  {
    var p := PlanUpdate(c, b).value;
    var n := p.next.(revision := NextRevision(c.revision));
    var again := b.(expectedRevision := Some(n.revision));
    PasswordPlanned(c, b, Edited(c, b));
    EditKeepsRest(c, b);
    EditTwice(c, b, n);
    assert Edited(n, again) == Edited(n, b) == n;
    SamePassword(c, b, Edited(c, b), n);
    PasswordIgnoresRevision(n, b, Some(n.revision));
    assert Valid(n) && Persisted(n) == Persisted(p.next);
  }

  /** The password decision does not look at the expected revision. */
  lemma PasswordIgnoresRevision(n: Config, b: Body, revision: Option<u64>)
    ensures WithPassword(n, b.(expectedRevision := revision), n) == WithPassword(n, b, n)
  {
  }

  lemma SamePassword(c: Config, b: Body, edited: Config, n: Config)
    requires WithPassword(c, b, edited).Done? && n == WithPassword(c, b, edited).value.0.(revision := n.revision)
    ensures WithPassword(n, b, n) == Done((n, WithPassword(c, b, edited).value.1))
  {
  }

  /** A request that names no field and no password leaves every field as it is. */
  lemma EmptyUpdateKeepsAll(c: Config)
    requires Valid(c)
    ensures var b := Body(Some(c.revision), None, None, None, None, None, None, None, None, None, None, None, None,
      None, None, None);
      PlanUpdate(c, b) == Done(Plan(c, Persisted(c), Unchanged))
  {
    var b := Body(Some(c.revision), None, None, None, None, None, None, None, None, None, None, None, None, None, None,
      None);
    assert Edited(c, b) == c;
    assert Persisted(c) + [] == Persisted(c);
  }
}
