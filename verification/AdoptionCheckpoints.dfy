/** What adoption of history without checkpoints leaves of the checkpoints in use. */
module AdoptionCheckpoints {
  import opened Int64
  import opened Outcomes
  import opened TrafficTables
  import opened Adoption
  import opened AdoptionTheorems
  import opened AdoptionSound
  import opened StoreInvariant
  import opened Retention
  import opened History

  /** Imported history has no checkpoints: those in use belong to other routers. */
  predicate LegacyUnchecked(db: Database, legacy: set<int>) {
    forall o :: o in db.checkpoints ==> o.router !in legacy
  }

  /** Checkpoints, and the interfaces of routers that are not imported, stay as they are. */
  ghost predicate InUseStays(db: Database, db': Database, legacy: set<int>) {
    && db'.checkpoints == db.checkpoints
    && forall r :: r in db.interfaces && r.router !in legacy ==> r in db'.interfaces
  }

  lemma InterfaceKeepsInUse(db: Database, row: InterfaceRow, target: int, at: i64, legacy: set<int>)
    requires OwnershipHolds(db) && row in db.interfaces && row.router in legacy && target !in legacy
      && RouterExists(db, target)
    requires AdoptInterface(db, row.router, row, target, at).Ok? && LegacyUnchecked(db, legacy)
    ensures InUseStays(db, AdoptInterface(db, row.router, row, target, at).value, legacy)
  {
    AdoptInterfaceCarries(db, row, target, at, legacy);
    var db' := AdoptInterface(db, row.router, row, target, at).value;
    forall r | r in db.interfaces && r.router !in legacy ensures r in db'.interfaces {
      if r.id == row.id {
        OneRouterPerInterface(db, row, Owner(r.router, r.id));
      }
    }
    InterfaceKeepsCheckpoints(db, row, target, at, legacy);
  }

  lemma InterfaceKeepsCheckpoints(db: Database, row: InterfaceRow, target: int, at: i64, legacy: set<int>)
    requires OwnershipHolds(db) && row in db.interfaces && row.router in legacy
    requires AdoptInterface(db, row.router, row, target, at).Ok? && LegacyUnchecked(db, legacy)
    ensures AdoptInterface(db, row.router, row, target, at).value.checkpoints == db.checkpoints
  {
    forall o | o in db.checkpoints ensures o.iface != row.id {
      assert Owned(db, o);
      if o.iface == row.id {
        OneRouterPerInterface(db, row, o);
      }
    }
    assert Owner(row.router, row.id) !in db.checkpoints;
  }

  lemma {:induction false} InterfacesKeepInUse(
    db: Database, router: int, rows: seq<InterfaceRow>, target: int, at: i64, legacy: set<int>)
    requires OwnershipHolds(db) && router in legacy && target !in legacy && RouterExists(db, target)
    requires UniqueInterfaceIds(rows) && forall r :: r in rows <==> r in db.interfaces && r.router == router
    requires AdoptInterfaces(db, router, rows, target, at).Ok? && LegacyUnchecked(db, legacy)
    ensures InUseStays(db, AdoptInterfaces(db, router, rows, target, at).value, legacy)
    decreases |rows|
  {
    if rows != [] {
      assert rows[0] in rows;
      AdoptInterfaceCarries(db, rows[0], target, at, legacy);
      InterfaceKeepsInUse(db, rows[0], target, at, legacy);
      var next := AdoptInterface(db, router, rows[0], target, at).value;
      RemainingInterfaces(db.interfaces, next.interfaces, rows, router, target);
      InterfacesKeepInUse(next, router, rows[1..], target, at, legacy);
    }
  }

  lemma RouterKeepsInUse(db: Database, id: int, target: int, at: i64, legacy: set<int>)
    requires OwnershipHolds(db) && id in legacy && target !in legacy && RouterExists(db, target)
    requires AdoptRouter(db, id, target, at).Ok? && LegacyUnchecked(db, legacy)
    ensures InUseStays(db, AdoptRouter(db, id, target, at).value, legacy)
  {
    var rows := InterfacesOf(db.interfaces, id);
    InterfacesOfMeaning(db.interfaces, id);
    AdoptInterfacesCarries(db, id, rows, target, at, legacy);
    InterfacesKeepInUse(db, id, rows, target, at, legacy);
    var moved := AdoptInterfaces(db, id, rows, target, at).value;
    DeletionKeepsInUse(moved, moved.(gaps := MoveRouterGaps(moved.gaps, id, target),
      routers := RefreshRouter(moved.routers, target, FirstSeenOf(moved.routers, id), at)), id);
  }

  /** Deleting a router whose interfaces have moved touches nothing in use. */
  lemma DeletionKeepsInUse(moved: Database, rest: Database, id: int)
    requires OwnershipHolds(moved) && forall r :: r in moved.interfaces ==> r.router != id
    requires rest.interfaces == moved.interfaces && rest.checkpoints == moved.checkpoints
    ensures DeleteRouter(rest, id).checkpoints == moved.checkpoints
    ensures forall r :: r in moved.interfaces ==> r in DeleteRouter(rest, id).interfaces
  {
    DropInterfacesKeeps(moved.interfaces, (r: InterfaceRow) => r.router == id);
    forall o | o in moved.checkpoints ensures o.router != id {
      assert Owned(moved, o);
    }
  }

  lemma {:induction false} RoutersKeepInUse(db: Database, ids: seq<int>, target: int, at: i64, legacy: set<int>)
    requires OwnershipHolds(db) && target !in legacy && RouterExists(db, target)
    requires forall id :: id in ids ==> id in legacy
    requires AdoptRouters(db, ids, target, at).Ok? && LegacyUnchecked(db, legacy)
    ensures InUseStays(db, AdoptRouters(db, ids, target, at).value, legacy)
    decreases |ids|
  {
    if ids != [] {
      assert ids[0] in ids;
      AdoptRouterCarries(db, ids[0], target, at, legacy);
      RouterKeepsInUse(db, ids[0], target, at, legacy);
      RoutersKeepInUse(AdoptRouter(db, ids[0], target, at).value, ids[1..], target, at, legacy);
    }
  }

  // ----- rows stay behind the checkpoints

  /** The rows of an interface that merges into one with a checkpoint end by it. */
  ghost predicate MergedRowsBehind(db: Database, legacy: set<int>, target: int) {
    forall o, p :: p in db.checkpoints && Merging(db, legacy, target, o, p) ==>
      RowsEndBy(HistoryOf(db), o, db.checkpoints[p].observedAt)
  }

  lemma CheckedStaysHome(db: Database, db': Database, legacy: set<int>, target: int, p: Owner)
    requires OwnershipHolds(db) && OwnershipHolds(db') && InUseStays(db, db', legacy)
    requires p in db.checkpoints && p.router !in legacy
    ensures Rehomed(db, db', legacy, target, p, p)
  {
    assert Owned(db, p) && Owned(db', p);
    var r := KeyOfOwned(db, p);
    forall key | KeyIs(db, p.iface, key) ensures KeyIs(db', p.iface, key) {
      OneKey(db, p.iface, r, key);
      assert r in db'.interfaces;
    }
  }

  lemma CheckedOwnerMeets(db: Database, db': Database, legacy: set<int>, target: int, o: Owner, p: Owner)
    requires OwnershipHolds(db) && OwnershipHolds(db') && InUseStays(db, db', legacy) && LegacyUnchecked(db, legacy)
    requires OneHome(db') && target !in legacy && BehindCheckpoints(HistoryOf(db))
      && MergedRowsBehind(db, legacy, target)
    requires p in db.checkpoints && Rehomed(db, db', legacy, target, o, p)
    ensures RowsEndBy(HistoryOf(db), o, db.checkpoints[p].observedAt)
  {
    CheckedStaysHome(db, db', legacy, target, p);
    RehomedOwnersMeet(db, db', legacy, target, o, p, p, p);
  }

  lemma AdoptedRowsBehind(db: Database, target: int, at: i64)
    requires OwnershipHolds(db) && UniqueKeys(db.interfaces) && RouterExists(db, target)
    requires AdoptLegacyHistory(db, target, at).Ok? && LegacyUnchecked(db, LegacySet(db, target))
    requires BehindCheckpoints(HistoryOf(db)) && MergedRowsBehind(db, LegacySet(db, target), target)
    ensures BehindCheckpoints(HistoryOf(AdoptLegacyHistory(db, target, at).value))
  {
    var legacy := LegacySet(db, target);
    var db' := AdoptLegacyHistory(db, target, at).value;
    AdoptionRehomes(db, target, at);
    AdoptionMovesEverything(db, target, at);
    RoutersKeepInUse(db, LegacyIds(db.routers, target), target, at, legacy);
    forall p | p in db'.checkpoints ensures RowsEndBy(HistoryOf(db'), p, db'.checkpoints[p].observedAt) {
      RowsBehindAt(db, db', legacy, target, p);
    }
  }

  lemma RowsBehindAt(db: Database, db': Database, legacy: set<int>, target: int, p: Owner)
    requires OwnershipHolds(db) && OwnershipHolds(db') && InUseStays(db, db', legacy) && LegacyUnchecked(db, legacy)
    requires OneHome(db') && target !in legacy && RowsRehomed(db, db', legacy, target)
    requires BehindCheckpoints(HistoryOf(db)) && MergedRowsBehind(db, legacy, target) && p in db.checkpoints
    ensures RowsEndBy(HistoryOf(db'), p, db.checkpoints[p].observedAt)
  {
    forall s | s in db'.samples && s.owner == p ensures s.end <= db.checkpoints[p].observedAt {
      SampleBehind(db, db', legacy, target, p, s);
    }
    forall r | r in db'.rollups && r.owner == p && RawRow(r) ensures r.end <= db.checkpoints[p].observedAt {
      RollupBehind(db, db', legacy, target, p, r);
    }
  }

  lemma SampleBehind(db: Database, db': Database, legacy: set<int>, target: int, p: Owner, s: Sample)
    requires OwnershipHolds(db) && OwnershipHolds(db') && InUseStays(db, db', legacy) && LegacyUnchecked(db, legacy)
    requires OneHome(db') && target !in legacy && RowsRehomed(db, db', legacy, target)
    requires BehindCheckpoints(HistoryOf(db)) && MergedRowsBehind(db, legacy, target) && p in db.checkpoints
    requires s in db'.samples && s.owner == p
    ensures s.end <= db.checkpoints[p].observedAt
  {
    var i :| 0 <= i < |db'.samples| && db'.samples[i] == s;
    CheckedOwnerMeets(db, db', legacy, target, db.samples[i].owner, p);
    assert db.samples[i] in HistoryOf(db).samples;
  }

  lemma RollupBehind(db: Database, db': Database, legacy: set<int>, target: int, p: Owner, r: Rollup)
    requires OwnershipHolds(db) && OwnershipHolds(db') && InUseStays(db, db', legacy) && LegacyUnchecked(db, legacy)
    requires OneHome(db') && target !in legacy && RowsRehomed(db, db', legacy, target)
    requires BehindCheckpoints(HistoryOf(db)) && MergedRowsBehind(db, legacy, target) && p in db.checkpoints
    requires r in db'.rollups && r.owner == p && RawRow(r)
    ensures r.end <= db.checkpoints[p].observedAt
  {
    var i :| 0 <= i < |db'.rollups| && db'.rollups[i] == r;
    CheckedOwnerMeets(db, db', legacy, target, db.rollups[i].owner, p);
    assert db.rollups[i] in HistoryOf(db).rollups;
  }

  // ----- ids stay unique

  /** The rows of the database as a store with its other tables. */
  function WithHistory(db: Database, t: Tables): Tables {
    t.(samples := db.samples, rollups := db.rollups, gaps := db.gaps, checkpoints := db.checkpoints)
  }

  lemma CarriedKeepsIds(db: Database, db': Database, legacy: set<int>, target: int, t: Tables)
    requires Carried(db, db', legacy, target) && IdsFresh(WithHistory(db, t))
    ensures IdsFresh(WithHistory(db', t))
  {
    forall i | 0 <= i < |db.samples| ensures db'.samples[i].id == db.samples[i].id && db.samples[i] in db.samples {
      assert SampleCarried(db, db', legacy, target, db.samples[i], db'.samples[i]);
    }
    forall i | 0 <= i < |db.rollups| ensures db'.rollups[i].id == db.rollups[i].id && db.rollups[i] in db.rollups {
      assert RollupCarried(db, db', legacy, target, db.rollups[i], db'.rollups[i]);
    }
    forall i | 0 <= i < |db.gaps| ensures db'.gaps[i].id == db.gaps[i].id && db.gaps[i] in db.gaps {
      assert GapCarried(db, db', legacy, target, db.gaps[i], db'.gaps[i]);
    }
  }
}
