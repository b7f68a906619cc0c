/**
 * The three ways configuration updates fall short, each reached by a run from a start: for every
 * environment and database that load, and such a pair exists.
 */
module ConfigFailures {
  import opened Int64
  import opened Outcomes
  import opened TextForms
  import opened ConfigUpdate
  import opened ConfigReload
  import opened ConfigRuns

  /** A request that names nothing but the revision and perhaps what to do with the password. */
  function Request(revision: u64, mode: Option<PasswordMode>): Body {
    Body(Some(revision), None, None, None, None, None, mode, None, None, None, None, None, None, None, None, None)
  }

  lemma ClearIsSound(c: Config)
    requires Valid(c)
    ensures PlanUpdate(c, Request(c.revision, Some(Clear))) == Done(Plan(c.(password := ""), Persisted(c), Delete))
  {
    var b := Request(c.revision, Some(Clear));
    assert Edited(c, b) == c;
    assert Persisted(c.(password := "")) + [] == Persisted(c);
  }

  lemma NothingIsSound(c: Config)
    requires Valid(c)
    ensures PlanUpdate(c, Request(c.revision, None)) == Done(Plan(c, Persisted(c), Unchanged))
  {
    EmptyUpdateKeepsAll(c);
  }

  lemma FirstCopy(c: Config, db: Db, body: Body)
    ensures Apply(Started(c, db), Begin(0, body)) == System(db, c, map[0 := Copied(c, body)], [c])
  {
  }

  lemma CommitShape(sys: System, c: Config, body: Body, p: Plan)
    requires sys.cache == c && sys.handlers == map[0 := Copied(c, body)] && sys.contents == [c]
    requires DbRevision(sys.db) == c.revision && PlanUpdate(c, body) == Done(p)
    ensures var next := p.next.(revision := NextRevision(c.revision));
      var r := Apply(sys, Commit(0));
      && r.cache == c && r.handlers == map[0 := Committed(next)] && r.contents == [c, next]
      && (p.secret == Delete ==> r.db.secret.None?)
  {
    SoundCommit(sys, 0, c, body, p);
  }

  lemma FirstCommitConsistent(env: Env, c: Config, db: Db, body: Body)
    requires Consistent(env, Started(c, db)) && c.revision < U64_MAX
    ensures Consistent(env, Apply(Apply(Started(c, db), Begin(0, body)), Commit(0)))
  {
    var start := Started(c, db);
    StepConsistent(env, start, Begin(0, body));
    FirstCopy(c, db, body);
    StepConsistent(env, Apply(start, Begin(0, body)), Commit(0));
  }

  lemma StartRevision(env: Env, c: Config, db: Db)
    requires Consistent(env, Started(c, db))
    ensures DbRevision(db) == c.revision && Valid(c)
  {
  }

  /** The state after one handler copied and committed, right after a start. */
  lemma FirstCommit(env: Env, c: Config, db: Db, body: Body, p: Plan) returns (r: System)
    requires Consistent(env, Started(c, db)) && c.revision < U64_MAX && PlanUpdate(c, body) == Done(p)
    ensures r == Apply(Apply(Started(c, db), Begin(0, body)), Commit(0))
    ensures Consistent(env, r) && r.cache == c
    ensures var next := p.next.(revision := c.revision + 1);
      r.handlers == map[0 := Committed(next)] && r.contents == [c, next]
    ensures p.secret == Delete ==> r.db.secret.None?
  {
    FirstCommitConsistent(env, c, db, body);
    r := Apply(Apply(Started(c, db), Begin(0, body)), Commit(0));
    StartRevision(env, c, db);
    FirstCopy(c, db, body);
    CommitShape(Apply(Started(c, db), Begin(0, body)), c, body, p);
  }

  lemma HeadStep(sys: System, s: Step, rest: seq<Step>)
    ensures Execute(sys, [s] + rest) == Execute(Apply(sys, s), rest)
  {
    assert ([s] + rest)[1..] == rest;
  }

  lemma ThreeSteps(sys: System, a: Step, b: Step, d: Step)
    ensures Execute(sys, [a, b, d]) == Apply(Apply(Apply(sys, a), b), d)
  {
    assert [a, b, d] == [a] + [b, d] && [b, d] == [b] + [d] && [d] == [d] + [];
    HeadStep(sys, a, [b, d]);
    HeadStep(Apply(sys, a), b, [d]);
    HeadStep(Apply(Apply(sys, a), b), d, []);
  }

  lemma PublishedRestart(env: Env, committed: System, next: Config)
    requires Consistent(env, committed) && committed.handlers == map[0 := Committed(next)]
      && Last(committed.contents) == next
    requires committed.db.secret.None? && env.password != ""
    ensures var r := Apply(committed, Publish(0));
      && r.cache == next && r.db == committed.db && Load(env, r.db).Done?
      && Load(env, r.db).value.0 != next && Load(env, r.db).value.0.password == env.password
  {
    RestartAgreesExactly(env, committed.db, next);
  }

  /**
   * Wherever the environment has a password: clear it, publish, and restart. The cleared password
   * was in force, and the restart brings the environment's back.
   */
  lemma ClearedPasswordReturns(env: Env, db: Db, c: Config, after: Db) returns (r: System)
    requires Load(env, db) == Done((c, after)) && c.revision < U64_MAX && env.password != ""
    ensures r == Execute(Started(c, after), [Begin(0, Request(c.revision, Some(Clear))), Commit(0), Publish(0)])
    ensures r.cache.password == "" && Load(env, r.db).Done?
    ensures Load(env, r.db).value.0 != r.cache && Load(env, r.db).value.0.password == env.password
  {
    var body := Request(c.revision, Some(Clear));
    StartIsConsistent(env, db);
    StartRevision(env, c, after);
    ClearIsSound(c);
    var committed := FirstCommit(env, c, after, body, Plan(c.(password := ""), Persisted(c), Delete));
    PublishedRestart(env, committed, c.(password := "", revision := c.revision + 1));
    r := Apply(committed, Publish(0));
    ThreeSteps(Started(c, after), Begin(0, body), Commit(0), Publish(0));
  }

  lemma VanishedState(env: Env, committed: System, c: Config, next: Config, steps: seq<Step>)
    requires Consistent(env, committed) && committed.handlers == map[0 := Committed(next)]
    requires committed.contents == [c, next] && committed.cache == c
    ensures var stuck := Apply(committed, Vanish(0));
      && stuck.contents == [c, next] && stuck.cache == c && DbRevision(stuck.db) == next.revision
      && Execute(stuck, steps).contents == stuck.contents
      && Execute(stuck, steps).db == stuck.db && Execute(stuck, steps).cache == c
  {
    VanishedPublisherBlocks(committed, 0, steps);
  }

  /**
   * From every start below the last revision: copy, commit, vanish. Whatever follows, memory stays
   * one revision behind and nothing is committed any more.
   */
  lemma LostPublicationReached(env: Env, db: Db, c: Config, after: Db, steps: seq<Step>) returns (stuck: System)
    requires Load(env, db) == Done((c, after)) && c.revision < U64_MAX
    ensures stuck == Execute(Started(c, after), [Begin(0, Request(c.revision, None)), Commit(0), Vanish(0)])
    ensures Execute(stuck, steps).contents == stuck.contents == [c, c.(revision := c.revision + 1)]
    ensures Execute(stuck, steps).db == stuck.db && Execute(stuck, steps).cache == c
      && DbRevision(stuck.db) == c.revision + 1
  {
    var body := Request(c.revision, None);
    StartIsConsistent(env, db);
    StartRevision(env, c, after);
    NothingIsSound(c);
    var committed := FirstCommit(env, c, after, body, Plan(c, Persisted(c), Unchanged));
    stuck := Apply(committed, Vanish(0));
    ThreeSteps(Started(c, after), Begin(0, body), Commit(0), Vanish(0));
    VanishedState(env, committed, c, c.(revision := c.revision + 1), steps);
  }

  lemma SecondCopy(c: Config, db: Db, first: Body, second: Body)
    ensures Apply(System(db, c, map[0 := Copied(c, first)], [c]), Begin(1, second))
         == System(db, c, map[0 := Copied(c, first), 1 := Copied(c, second)], [c])
  {
  }

  lemma TwoCopies(c: Config, db: Db, first: Body, second: Body, p: Plan, q: Plan)
    requires c.revision == DbRevision(db) == U64_MAX && PlanUpdate(c, first) == Done(p)
      && PlanUpdate(c, second) == Done(q)
    ensures var begun := Apply(Apply(Started(c, db), Begin(0, first)), Begin(1, second));
      Apply(Apply(begun, Commit(0)), Commit(1)).contents
        == [c, p.next.(revision := U64_MAX), q.next.(revision := U64_MAX)]
  {
    FirstCopy(c, db, first);
    SecondCopy(c, db, first, second);
    var begun := System(db, c, map[0 := Copied(c, first), 1 := Copied(c, second)], [c]);
    SaturatedRevisionLosesUpdates(begun, 0, 1);
  }

  /** From every start at the last revision: two handlers copy, and both commit. */
  lemma SaturationReached(env: Env, db: Db, c: Config, after: Db)
    requires Load(env, db) == Done((c, after)) && c.revision == U64_MAX
    ensures var first, second := Request(c.revision, Some(Clear)), Request(c.revision, None);
      var begun := Apply(Apply(Started(c, after), Begin(0, first)), Begin(1, second));
      Apply(Apply(begun, Commit(0)), Commit(1)).contents == [c, c.(password := ""), c]
  {
    StartIsConsistent(env, db);
    StartRevision(env, c, after);
    ClearIsSound(c);
    NothingIsSound(c);
    TwoCopies(c, after, Request(c.revision, Some(Clear)), Request(c.revision, None),
              Plan(c.(password := ""), Persisted(c), Delete), Plan(c, Persisted(c), Unchanged));
  }

  // ----- such a start exists, at every revision

  const EXAMPLE_ENV := Env("r", 443, "https", "a", "p", false, 3, 60, 3001, 7, 90, 30, 100, false)

  const EXAMPLE_CONFIG := Config(0, "r", 443, "https", "a", "p", false, 3, 60, 3001, 7, 90, "system", 30, 100, false)

  lemma ShortText(s: string)
    ensures ByteLength(s) <= 4 * |s|
  {
  }

  lemma NothingTrimmed(s: string)
    requires s != "" && !IsSpace(s[0]) && !IsSpace(s[|s| - 1])
    ensures Trim(s) == s
  {
  }

  lemma ExampleIsValid()
    ensures Valid(EXAMPLE_CONFIG)
  {
    ShortText("r");
    ShortText("a");
    NothingTrimmed("r");
    NothingTrimmed("a");
  }

  /** A database that only holds a revision loads, with a password in the environment. */
  lemma StartExists(revision: u64)
    ensures var db := Db(map[ConfigRevision := ToText(revision)], None);
      Load(EXAMPLE_ENV, db) == Done((EXAMPLE_CONFIG.(revision := revision), db.(secret := Some("p"))))
    ensures EXAMPLE_ENV.password != ""
  {
    NumberRoundTrip(revision, U64_MAX);
    ExampleIsValid();
    var db := Db(map[ConfigRevision := ToText(revision)], None);
    assert Merged(EXAMPLE_ENV, db) == EXAMPLE_CONFIG.(revision := revision);
  }
}
