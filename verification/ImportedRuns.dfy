/** Runs that begin with imported or adopted history. */
module ImportedRuns {
  import opened Int64
  import opened Outcomes
  import opened TrafficTables
  import opened TrafficQuery
  import opened QueryTheorems
  import opened StoreInvariant
  import opened StoreQueries
  import opened Retention
  import opened LegacyImport
  import opened Adoption
  import opened AdoptionTheorems
  import opened AdoptionSound
  import opened AdoptionCheckpoints
  import opened History

  /** A run with nothing accepted or pruned yet. */
  function StartOf(t: Tables): Run {
    Run(t, [], [], [])
  }

  /** A sound store without checkpoints is a sound start, whatever rows it holds. */
  lemma UncheckpointedStart(t: Tables, size: i64)
    requires StoreSound(t, size) && IdsFresh(t) && t.checkpoints == map[]
    ensures RunSound(StartOf(t), size)
  {
  }

  /** Rows numbered by their position. */
  lemma NumberedIdsFresh(t: Tables)
    requires t.nextSample == |t.samples| && t.nextRollup == |t.rollups| && t.gaps == []
    requires forall i :: 0 <= i < |t.samples| ==> t.samples[i].id == i
    requires forall i :: 0 <= i < |t.rollups| ==> t.rollups[i].id == i
    ensures IdsFresh(t)
  {
    forall s | s in t.samples ensures s.id < t.nextSample {
      var i :| 0 <= i < |t.samples| && t.samples[i] == s;
    }
    forall r | r in t.rollups ensures r.id < t.nextRollup {
      var i :| 0 <= i < |t.rollups| && t.rollups[i] == r;
    }
  }

  lemma ImportedIdsFresh(router: int, points: seq<LegacyImport.Point>, minutes: seq<Minute>, routers: set<int>,
      interfaces: map<int, int>)
    requires PrimaryKeys(points, minutes) && TimesInScale(points, minutes)
    ensures ImportLegacy(router, points, minutes).Ok?
    ensures IdsFresh(ImportedTables(ImportLegacy(router, points, minutes).value, routers, interfaces))
  {
    var keys, samples, open := ImportSucceeds(router, points, minutes);
    NumberedIdsFresh(ImportedTables(ImportLegacy(router, points, minutes).value, routers, interfaces));
  }

  /**
   * From the imported store, with minute buckets on minute boundaries, every run in which accepted
   * samples continue their interface leaves a store that answers every valid query in the budget.
   */
  lemma ImportedStoreStaysQueryable(
    router: int, points: seq<LegacyImport.Point>, minutes: seq<Minute>, routers: set<int>, interfaces: map<int, int>,
    steps: seq<Step>, q: Query, budget: nat)
    requires PrimaryKeys(points, minutes) && TimesInScale(points, minutes)
    requires forall m :: m in minutes ==> m.bucket % MINUTE_MS == 0
    requires ImportLegacy(router, points, minutes).Ok?
    requires var start := StartOf(ImportedTables(ImportLegacy(router, points, minutes).value, routers, interfaces));
      RunContinues(start, steps, MINUTE_MS) && KnownInterface(Execute(start, steps).tables, OwnerIn(q))
    requires QueryValid(q, budget) && Unsaturated(q) && budget < I64_MAX
    ensures var start := StartOf(ImportedTables(ImportLegacy(router, points, minutes).value, routers, interfaces));
      var t := Execute(start, steps).tables;
      if RowCount(t, q) <= budget then QueryStore(t, q, budget).Ok? else QueryStore(t, q, budget) == Err(TooLarge)
  {
    var t := ImportedTables(ImportLegacy(router, points, minutes).value, routers, interfaces);
    AlignedImportIsSound(router, points, minutes, routers, interfaces);
    ImportedIdsFresh(router, points, minutes, routers, interfaces);
    UncheckpointedStart(t, MINUTE_MS);
    RunsStayQueryable(StartOf(t), steps, MINUTE_MS, q, budget);
  }

  /**
   * A store in use can adopt imported history, which has no checkpoints, and go on: if the rows it
   * merges are clear of each other and end by the checkpoint they meet, every later run in which
   * accepted samples continue their interface leaves a store that answers every valid query.
   */
  lemma AdoptedStoreStaysQueryable(
    db: Database, target: int, at: i64, t: Tables, size: i64, steps: seq<Step>, q: Query, budget: nat)
    requires OwnershipHolds(db) && UniqueKeys(db.interfaces) && RouterExists(db, target)
    requires RunSound(StartOf(WithHistory(db, t)), size) && LegacyUnchecked(db, LegacySet(db, target))
    requires MergedRowsClear(db, LegacySet(db, target), target, size)
      && MergedRowsBehind(db, LegacySet(db, target), target)
    requires AdoptLegacyHistory(db, target, at).Ok?
    requires var start := StartOf(WithHistory(AdoptLegacyHistory(db, target, at).value, t));
      RunContinues(start, steps, size) && KnownInterface(Execute(start, steps).tables, OwnerIn(q))
    requires QueryValid(q, budget) && Unsaturated(q) && budget < I64_MAX
    ensures var r := Execute(StartOf(WithHistory(AdoptLegacyHistory(db, target, at).value, t)), steps).tables;
      if RowCount(r, q) <= budget then QueryStore(r, q, budget).Ok? else QueryStore(r, q, budget) == Err(TooLarge)
  {
    var adopted := WithHistory(AdoptLegacyHistory(db, target, at).value, t);
    AdoptedIsSound(db, target, at, t, size);
    RunsStayQueryable(StartOf(adopted), steps, size, q, budget);
  }

  lemma AdoptedIsSound(db: Database, target: int, at: i64, t: Tables, size: i64)
    requires OwnershipHolds(db) && UniqueKeys(db.interfaces) && RouterExists(db, target)
    requires RunSound(StartOf(WithHistory(db, t)), size) && LegacyUnchecked(db, LegacySet(db, target))
    requires MergedRowsClear(db, LegacySet(db, target), target, size)
      && MergedRowsBehind(db, LegacySet(db, target), target)
    requires AdoptLegacyHistory(db, target, at).Ok?
    ensures RunSound(StartOf(WithHistory(AdoptLegacyHistory(db, target, at).value, t)), size)
  {
    var adopted := WithHistory(AdoptLegacyHistory(db, target, at).value, t);
    SameHistory(db, t, size);
    AdoptionStaysSoundExactly(db, target, at, size);
    AdoptedRowsBehind(db, target, at);
    AdoptionMovesEverything(db, target, at);
    CarriedKeepsIds(db, AdoptLegacyHistory(db, target, at).value, LegacySet(db, target), target, t);
    SameHistory(AdoptLegacyHistory(db, target, at).value, t, size);
  }

  /** Soundness speaks of the history rows only. */
  lemma SameHistory(db: Database, t: Tables, size: i64)
    requires size > 0
    ensures StoreSound(WithHistory(db, t), size) <==> StoreSound(HistoryOf(db), size)
    ensures BehindCheckpoints(WithHistory(db, t)) <==> BehindCheckpoints(HistoryOf(db))
  {
    forall o, until: int
      ensures RowsEndBy(WithHistory(db, t), o, until) <==> RowsEndBy(HistoryOf(db), o, until)
    {
    }
  }
}
