/**
 * Concurrent update handlers. A handler copies the shared configuration, later plans and commits
 * in one transaction, later still publishes the result; a handler may vanish between its steps,
 * as when its client disconnects.
 */
module ConfigRuns {
  import opened Int64
  import opened Outcomes
  import opened TextForms
  import opened ConfigUpdate
  import opened ConfigReload

  datatype Handler = Copied(base: Config, body: Body) | Committed(next: Config)

  /** `contents` records, oldest first, the configuration every commit put in force. */
  datatype System = System(db: Db, cache: Config, handlers: map<nat, Handler>, contents: seq<Config>)

  datatype Step = Begin(h: nat, body: Body) | Commit(h: nat) | Publish(h: nat) | Vanish(h: nat)

  function CommitStep(sys: System, h: nat, base: Config, body: Body): System {
    var plan := PlanUpdate(base, body);
    if plan.Failed? then sys.(handlers := sys.handlers - {h})
    else
      var (db, saved) := SaveTransaction(sys.db, plan.value.values, plan.value.secret, body.expectedRevision);
      if !saved then sys.(handlers := sys.handlers - {h})
      else
        var next := plan.value.next.(revision := NextRevision(base.revision));
        System(db, sys.cache, sys.handlers[h := Committed(next)], sys.contents + [next])
  }

  function Apply(sys: System, s: Step): System {
    match s
    case Begin(h, body) =>
      if h in sys.handlers then sys else sys.(handlers := sys.handlers[h := Copied(sys.cache, body)])
    case Commit(h) =>
      if h in sys.handlers && sys.handlers[h].Copied? then
        CommitStep(sys, h, sys.handlers[h].base, sys.handlers[h].body)
      else sys
    case Publish(h) =>
      if h in sys.handlers && sys.handlers[h].Committed? then
        sys.(cache := sys.handlers[h].next, handlers := sys.handlers - {h})
      else sys
    case Vanish(h) => sys.(handlers := sys.handlers - {h})
  }

  function Execute(sys: System, steps: seq<Step>): System
    decreases |steps|
  {
    if steps == [] then sys else Execute(Apply(sys, steps[0]), steps[1..])
  }

  function Last(contents: seq<Config>): Config
    requires contents != []
  {
    contents[|contents| - 1]
  }

  // ----- agreement of memory and database

  /** Revisions count up by one along the history. */
  predicate Counted(contents: seq<Config>) {
    contents != [] && forall k :: 0 <= k < |contents| ==> contents[k].revision == contents[0].revision + k
  }

  /** `after` is the update `body` asked for on `before`, one revision later. */
  predicate UpdateOf(before: Config, body: Body, after: Config) {
    && PlanUpdate(before, body).Done? && before.revision < U64_MAX
    && after == PlanUpdate(before, body).value.next.(revision := before.revision + 1)
  }

  ghost predicate Follows(before: Config, after: Config) {
    exists body :: UpdateOf(before, body, after)
  }

  /** No lost update: every content is an update of the one immediately before it. */
  ghost predicate Chained(contents: seq<Config>) {
    forall k :: 0 < k < |contents| ==> Follows(contents[k - 1], contents[k])
  }

  /** The shared configuration is the newest content or the one just before it. */
  predicate OneBehind(sys: System)
    requires sys.contents != []
  {
    sys.cache == Last(sys.contents) || (|sys.contents| >= 2 && sys.cache == sys.contents[|sys.contents| - 2])
  }

  predicate InHistory(contents: seq<Config>, c: Config) {
    exists k :: 0 <= k < |contents| && contents[k] == c
  }

  predicate CopyKnown(sys: System, c: Config) {
    InHistory(sys.contents, c) && c.revision <= sys.cache.revision
  }

  predicate ReadyToPublish(sys: System, next: Config)
    requires sys.contents != []
  {
    next == Last(sys.contents) && sys.cache.revision < next.revision
  }

  ghost predicate HandlersAgree(sys: System)
    requires sys.contents != []
  {
    && (forall h :: h in sys.handlers && sys.handlers[h].Copied? ==> CopyKnown(sys, sys.handlers[h].base))
    && (forall h :: h in sys.handlers && sys.handlers[h].Committed? ==> ReadyToPublish(sys, sys.handlers[h].next))
    && (forall h, g :: h in sys.handlers && g in sys.handlers ==>
          sys.handlers[h].Committed? && sys.handlers[g].Committed? ==> h == g)
  }

  ghost predicate Agree(sys: System) {
    && Counted(sys.contents) && Chained(sys.contents)
    && DbRevision(sys.db) == Last(sys.contents).revision
    && OneBehind(sys) && HandlersAgree(sys)
  }

  /** A commit by a handler whose copy is the newest content; memory was up to date. */
  lemma CommitFindsNewest(sys: System, h: nat)
    requires Agree(sys) && h in sys.handlers && sys.handlers[h].Copied?
    requires sys.handlers[h].base.revision == DbRevision(sys.db)
    ensures sys.handlers[h].base == sys.cache == Last(sys.contents)
    ensures forall g :: g in sys.handlers ==> sys.handlers[g].Copied?
  {
    var base := sys.handlers[h].base;
    assert CopyKnown(sys, base);
    var k :| 0 <= k < |sys.contents| && sys.contents[k] == base;
    assert k == |sys.contents| - 1;
  }

  /** An update is committed exactly when its plan is sound and its copy is the database's revision. */
  lemma CommitsExactly(sys: System, h: nat)
    requires h in sys.handlers && sys.handlers[h].Copied?
    ensures var base, body := sys.handlers[h].base, sys.handlers[h].body;
      var r := Apply(sys, Commit(h));
      if PlanUpdate(base, body).Done? && base.revision == DbRevision(sys.db) then
        && h in r.handlers && r.handlers[h].Committed? && r.contents == sys.contents + [r.handlers[h].next]
        && r.handlers[h].next == PlanUpdate(base, body).value.next.(revision := NextRevision(base.revision))
        && (r.handlers[h].next.revision == base.revision + 1 <==> base.revision < U64_MAX)
      else r == sys.(handlers := sys.handlers - {h})
  {
  }

  lemma HistoryGrows(contents: seq<Config>, next: Config, c: Config)
    requires InHistory(contents, c)
    ensures InHistory(contents + [next], c)
  {
    var k :| 0 <= k < |contents| && contents[k] == c;
    assert (contents + [next])[k] == c;
  }

  lemma ChainGrows(contents: seq<Config>, body: Body, next: Config)
    requires Counted(contents) && Chained(contents) && UpdateOf(Last(contents), body, next)
    ensures Counted(contents + [next]) && Chained(contents + [next])
  {
    var more := contents + [next];
    assert next.revision == more[0].revision + |contents|;
    forall k | 0 < k < |more| ensures Follows(more[k - 1], more[k]) {
      if k < |contents| {
        assert more[k - 1] == contents[k - 1] && more[k] == contents[k];
      } else {
        assert UpdateOf(more[k - 1], body, more[k]);
      }
    }
  }

  lemma SoundCommit(sys: System, h: nat, base: Config, body: Body, p: Plan)
    requires h in sys.handlers && sys.handlers[h] == Copied(base, body)
    requires DbRevision(sys.db) == base.revision && PlanUpdate(base, body) == Done(p)
    ensures var next := p.next.(revision := NextRevision(base.revision));
      var r := Apply(sys, Commit(h));
      && r.cache == sys.cache && r.handlers == sys.handlers[h := Committed(next)]
      && r.contents == sys.contents + [next] && (p.secret == Delete ==> r.db.secret.None?)
  {
    CommitsExactly(sys, h);
  }

  /** A state that committed `next` on top of an agreeing one agrees. */
  lemma CommittedAgrees(sys: System, r: System, h: nat, body: Body, next: Config)
    requires Agree(sys) && h in sys.handlers && sys.handlers[h].Copied?
    requires sys.cache == Last(sys.contents) && forall g :: g in sys.handlers ==> sys.handlers[g].Copied?
    requires UpdateOf(Last(sys.contents), body, next) && DbRevision(r.db) == next.revision
    requires r.cache == sys.cache && r.handlers == sys.handlers[h := Committed(next)]
      && r.contents == sys.contents + [next]
    ensures Agree(r)
  {
    ChainGrows(sys.contents, body, next);
    assert r.contents[|r.contents| - 2] == Last(sys.contents);
    forall g | g in r.handlers && r.handlers[g].Copied? ensures CopyKnown(r, r.handlers[g].base) {
      assert CopyKnown(sys, sys.handlers[g].base);
      HistoryGrows(sys.contents, next, sys.handlers[g].base);
    }
  }

  lemma CommitAgrees(sys: System, h: nat)
    requires Agree(sys) && h in sys.handlers && sys.handlers[h].Copied? && DbRevision(sys.db) < U64_MAX
    requires PlanUpdate(sys.handlers[h].base, sys.handlers[h].body).Done?
    requires sys.handlers[h].base.revision == DbRevision(sys.db)
    requires DbRevision(Apply(sys, Commit(h)).db) == DbRevision(sys.db) + 1
    ensures Agree(Apply(sys, Commit(h)))
  {
    var r := Apply(sys, Commit(h));
    var base, body := sys.handlers[h].base, sys.handlers[h].body;
    CommitFindsNewest(sys, h);
    SoundCommit(sys, h, base, body, PlanUpdate(base, body).value);
    CommittedAgrees(sys, r, h, body, r.handlers[h].next);
  }

  lemma PublishAgrees(sys: System, h: nat)
    requires Agree(sys)
    ensures Agree(Apply(sys, Publish(h)))
  {
    var r := Apply(sys, Publish(h));
    if h in sys.handlers && sys.handlers[h].Committed? {
      assert ReadyToPublish(sys, sys.handlers[h].next);
      forall g | g in r.handlers ensures r.handlers[g].Copied? && CopyKnown(r, r.handlers[g].base) {
        assert CopyKnown(sys, sys.handlers[g].base);
      }
    }
  }

  lemma BeginAgrees(sys: System, h: nat, body: Body)
    requires Agree(sys)
    ensures Agree(Apply(sys, Begin(h, body)))
  {
    var r := Apply(sys, Begin(h, body));
    if r == sys { return; }
    assert InHistory(sys.contents, sys.cache);
    forall g | g in r.handlers && r.handlers[g].Copied? ensures CopyKnown(r, r.handlers[g].base) {
      if g in sys.handlers { assert CopyKnown(sys, sys.handlers[g].base); }
    }
    forall g | g in r.handlers && r.handlers[g].Committed? ensures ReadyToPublish(r, r.handlers[g].next) {
      assert ReadyToPublish(sys, sys.handlers[g].next);
    }
  }

  lemma RemoveAgrees(sys: System, h: nat)
    requires Agree(sys)
    ensures Agree(sys.(handlers := sys.handlers - {h}))
  {
    var r := sys.(handlers := sys.handlers - {h});
    forall g | g in r.handlers && r.handlers[g].Copied? ensures CopyKnown(r, r.handlers[g].base) {
      assert CopyKnown(sys, sys.handlers[g].base);
    }
    forall g | g in r.handlers && r.handlers[g].Committed? ensures ReadyToPublish(r, r.handlers[g].next) {
      assert ReadyToPublish(sys, sys.handlers[g].next);
    }
  }

  /** Memory and database agree, and a restart would restore what was last committed. */
  ghost predicate Consistent(env: Env, sys: System) {
    Agree(sys) && Restores(env, sys.db, Last(sys.contents))
  }

  lemma StepConsistent(env: Env, sys: System, s: Step)
    requires Consistent(env, sys)
    requires Apply(sys, s).contents != sys.contents ==> DbRevision(sys.db) < U64_MAX
    ensures Consistent(env, Apply(sys, s))
  {
    match s
    case Begin(h, body) => BeginAgrees(sys, h, body);
    case Publish(h) => PublishAgrees(sys, h);
    case Vanish(h) => RemoveAgrees(sys, h);
    case Commit(h) =>
      if h in sys.handlers && sys.handlers[h].Copied? {
        var base, body := sys.handlers[h].base, sys.handlers[h].body;
        CommitsExactly(sys, h);
        if PlanUpdate(base, body).Done? && base.revision == DbRevision(sys.db) {
          CommitFindsNewest(sys, h);
          CommitRestores(env, sys.db, base, body);
          CommitAgrees(sys, h);
        } else {
          RemoveAgrees(sys, h);
        }
      }
  }

  lemma SavedRevision(db: Db, rows: seq<(Key, string)>, change: SecretChange, expected: u64)
    requires expected == DbRevision(db)
    ensures var (after, saved) := SaveTransaction(db, rows, change, Some(expected));
      saved && DbRevision(after) == NextRevision(expected)
  {
    NumberRoundTrip(NextRevision(expected), U64_MAX);
  }

  /** A step commits at most one update, and then the revision moves on. */
  lemma StepCounts(sys: System, s: Step)
    ensures sys.contents <= Apply(sys, s).contents
    ensures Apply(sys, s).contents == sys.contents ==> DbRevision(Apply(sys, s).db) == DbRevision(sys.db)
    ensures Apply(sys, s).contents != sys.contents ==>
      |Apply(sys, s).contents| == |sys.contents| + 1 && DbRevision(Apply(sys, s).db) == NextRevision(DbRevision(sys.db))
  {
    if s.Commit? && s.h in sys.handlers && sys.handlers[s.h].Copied? {
      var base, body := sys.handlers[s.h].base, sys.handlers[s.h].body;
      CommitsExactly(sys, s.h);
      if PlanUpdate(base, body).Done? && base.revision == DbRevision(sys.db) {
        var p := PlanUpdate(base, body).value;
        SavedRevision(sys.db, p.values, p.secret, base.revision);
      }
    }
  }

  /** From `sys` to `r` the revision grew by the number of contents committed, up to its maximum. */
  predicate CountedFrom(sys: System, r: System) {
    && sys.contents <= r.contents
    && DbRevision(r.db) == Min(U64_MAX, DbRevision(sys.db) + |r.contents| - |sys.contents|)
  }

  lemma CountOn(sys: System, next: System, r: System)
    requires CountedFrom(sys, next) && CountedFrom(next, r)
    ensures CountedFrom(sys, r)
  {
  }

  lemma StepIsCounted(sys: System, s: Step)
    ensures CountedFrom(sys, Apply(sys, s))
  {
    StepCounts(sys, s);
  }

  /** The revision counts the updates committed in the run, up to its maximum. */
  lemma {:induction false} RevisionCounts(sys: System, steps: seq<Step>)
    ensures CountedFrom(sys, Execute(sys, steps))
    decreases |steps|
  {
    if steps != [] {
      StepIsCounted(sys, steps[0]);
      RevisionCounts(Apply(sys, steps[0]), steps[1..]);
      CountOn(sys, Apply(sys, steps[0]), Execute(sys, steps));
    }
  }

  /**
   * In every interleaving, memory and database agree at the end exactly when the updates committed
   * did not run past the largest revision: then each committed revision is exactly one above its
   * base and an update of it, the shared configuration is the newest committed content or the one
   * just before, never ahead, and the database restores the newest one.
   */
  lemma {:induction false} RunsAgree(env: Env, sys: System, steps: seq<Step>)
    requires Consistent(env, sys)
    ensures var r := Execute(sys, steps);
      && (Consistent(env, r) <==> DbRevision(sys.db) + |r.contents| - |sys.contents| <= U64_MAX)
      && (DbRevision(r.db) < U64_MAX ==> Consistent(env, r))
      && (Consistent(env, r) ==> r.cache.revision <= DbRevision(r.db) <= r.cache.revision + 1)
    decreases |steps|
  {
    RevisionCounts(sys, steps);
    var r := Execute(sys, steps);
    if Consistent(env, r) {
      ConsistentCounts(sys, r);
    }
    if steps != [] && DbRevision(sys.db) + |r.contents| - |sys.contents| <= U64_MAX {
      var next := Apply(sys, steps[0]);
      StepCounts(sys, steps[0]);
      RevisionCounts(next, steps[1..]);
      StepConsistent(env, sys, steps[0]);
      RunsAgree(env, next, steps[1..]);
    }
  }

  /** An agreeing history is no longer than the revisions it spans. */
  lemma ConsistentCounts(sys: System, r: System)
    requires Agree(sys) && Agree(r) && sys.contents <= r.contents
    ensures DbRevision(sys.db) + |r.contents| - |sys.contents| == DbRevision(r.db)
    ensures r.cache.revision <= DbRevision(r.db) <= r.cache.revision + 1
  {
    assert r.contents[0] == sys.contents[0];
  }

  /** The state after a successful start is consistent. */
  lemma StartIsConsistent(env: Env, db: Db)
    requires Load(env, db).Done?
    ensures var (c, after) := Load(env, db).value; Consistent(env, Started(c, after))
  {
    LoadRestores(env, db);
  }

  /** Right after a start: what was loaded is in force and no handler runs. */
  function Started(c: Config, db: Db): System {
    System(db, c, map[], [c])
  }

  /** When no handler is between its commit and its publication, memory is current or will stay behind. */
  ghost predicate Orphaned(sys: System) {
    && sys.cache.revision < DbRevision(sys.db)
    && (forall h :: h in sys.handlers ==> sys.handlers[h].Copied? && sys.handlers[h].base.revision < DbRevision(sys.db))
  }

  lemma OrphanedStep(sys: System, s: Step)
    requires Orphaned(sys)
    ensures Orphaned(Apply(sys, s)) && Apply(sys, s).db == sys.db && Apply(sys, s).cache == sys.cache
  {
    if s.Commit? && s.h in sys.handlers {
      CommitsExactly(sys, s.h);
    }
  }

  /**
   * If a handler vanishes after its commit and before publishing, memory stays one behind and no
   * update commits again in any run, until a restart.
   */
  lemma {:induction false} VanishedPublisherBlocks(sys: System, h: nat, steps: seq<Step>)
    requires Agree(sys) && h in sys.handlers && sys.handlers[h].Committed?
    ensures var stuck := Apply(sys, Vanish(h));
      Execute(stuck, steps).db == sys.db && Execute(stuck, steps).cache == sys.cache
      && Execute(stuck, steps).contents == sys.contents
  {
    var stuck := Apply(sys, Vanish(h));
    assert ReadyToPublish(sys, sys.handlers[h].next);
    forall g | g in stuck.handlers
      ensures stuck.handlers[g].Copied? && stuck.handlers[g].base.revision < DbRevision(sys.db)
    {
      if sys.handlers[g].Copied? { assert CopyKnown(sys, sys.handlers[g].base); }
    }
    OrphanedRuns(stuck, steps);
  }

  lemma {:induction false} OrphanedRuns(sys: System, steps: seq<Step>)
    requires Orphaned(sys)
    ensures Execute(sys, steps).db == sys.db && Execute(sys, steps).cache == sys.cache
      && Execute(sys, steps).contents == sys.contents
    decreases |steps|
  {
    if steps != [] {
      OrphanedStep(sys, steps[0]);
      OrphanedContents(sys, steps[0]);
      OrphanedRuns(Apply(sys, steps[0]), steps[1..]);
    }
  }

  lemma OrphanedContents(sys: System, s: Step)
    requires Orphaned(sys)
    ensures Apply(sys, s).contents == sys.contents
  {
    if s.Commit? && s.h in sys.handlers {
      CommitsExactly(sys, s.h);
    }
  }

  /**
   * A new update, run alone, is committed exactly when its plan is sound and memory is current:
   * with a sound plan, the one obstacle is a publication still outstanding or lost.
   */
  lemma LoneUpdateCommits(sys: System, h: nat, body: Body)
    requires Agree(sys) && h !in sys.handlers
    ensures var r := Apply(Apply(sys, Begin(h, body)), Commit(h));
      h in r.handlers <==> (PlanUpdate(sys.cache, body).Done? && sys.cache == Last(sys.contents))
  {
    CommitsExactly(Apply(sys, Begin(h, body)), h);
  }

  /**
   * Two handlers that copied the same current content, both with sound plans: the second commits
   * as well, overwriting the first unseen, exactly when the revision counter is at its maximum
   * and no longer moves.
   */
  lemma SaturatedRevisionLosesUpdates(sys: System, g: nat, h: nat)
    requires g != h && g in sys.handlers && h in sys.handlers && sys.handlers[g].Copied? && sys.handlers[h].Copied?
    requires sys.handlers[g].base == sys.handlers[h].base && sys.handlers[g].base.revision == DbRevision(sys.db)
    requires PlanUpdate(sys.handlers[g].base, sys.handlers[g].body).Done?
    requires PlanUpdate(sys.handlers[h].base, sys.handlers[h].body).Done?
    ensures var base := sys.handlers[g].base;
      var first := PlanUpdate(base, sys.handlers[g].body).value.next.(revision := NextRevision(base.revision));
      var second := PlanUpdate(base, sys.handlers[h].body).value.next.(revision := NextRevision(base.revision));
      var twice := Apply(Apply(sys, Commit(g)), Commit(h));
      && (twice.contents == sys.contents + [first] + [second] <==> DbRevision(sys.db) == U64_MAX)
      && (twice.contents == sys.contents + [first] <==> DbRevision(sys.db) < U64_MAX)
  {
    var base := sys.handlers[g].base;
    var p := PlanUpdate(base, sys.handlers[g].body).value;
    CommitsExactly(sys, g);
    SavedRevision(sys.db, p.values, p.secret, base.revision);
    var once := Apply(sys, Commit(g));
    assert once.handlers[h] == sys.handlers[h];
    CommitsExactly(once, h);
    assert |sys.contents + [p.next]| != |sys.contents + [p.next] + [p.next]|;
  }
}
