/** When adoption is refused. */
module AdoptionAccepts {
  import opened Int64
  import opened Outcomes
  import opened TrafficTables
  import opened Adoption
  import opened AdoptionTheorems
  import opened AdoptionSound

  /** No two rows of interfaces that would become one carry the same unique key. */
  ghost predicate NoClash(db: Database, legacy: set<int>, target: int) {
    forall o, p :: Merging(db, legacy, target, o, p) ==> !MoveConflicts(db, o, p)
  }

  /** Where a redirected owner goes. */
  function Redirected(o: Owner, from: Owner, to: Owner): Owner { if o == from then to else o }

  ghost predicate RowsRedirected(db: Database, db': Database, from: Owner, to: Owner) {
    && db'.samples == MoveSamples(db.samples, from, to) && db'.rollups == MoveRollups(db.rollups, from, to)
    && db'.gaps == MoveGaps(db.gaps, from, to)
  }

  // ----- conflicts follow the rows

  lemma MovedSample(db: Database, db': Database, from: Owner, to: Owner, x: Sample) returns (y: Sample)
    requires RowsRedirected(db, db', from, to) && x in db.samples
    ensures y in db'.samples && y == x.(owner := Redirected(x.owner, from, to))
  {
    var i :| 0 <= i < |db.samples| && db.samples[i] == x;
    y := db'.samples[i];
  }

  lemma MovedRollup(db: Database, db': Database, from: Owner, to: Owner, x: Rollup) returns (y: Rollup)
    requires RowsRedirected(db, db', from, to) && x in db.rollups
    ensures y in db'.rollups && y == x.(owner := Redirected(x.owner, from, to))
  {
    var i :| 0 <= i < |db.rollups| && db.rollups[i] == x;
    y := db'.rollups[i];
  }

  predicate OfOwner(g: Gap, o: Owner) { g.router == o.router && g.iface == Some(o.iface) }

  lemma MovedGap(db: Database, db': Database, from: Owner, to: Owner, x: Gap, o: Owner) returns (y: Gap)
    requires RowsRedirected(db, db', from, to) && x in db.gaps && OfOwner(x, o)
    ensures y in db'.gaps && OfOwner(y, Redirected(o, from, to))
    ensures y.start == x.start && y.end == x.end && y.reason == x.reason
  {
    var i :| 0 <= i < |db.gaps| && db.gaps[i] == x;
    y := db'.gaps[i];
  }

  lemma ConflictsStay(db: Database, db': Database, from: Owner, to: Owner, o: Owner, p: Owner)
    requires RowsRedirected(db, db', from, to) && MoveConflicts(db, o, p)
    ensures MoveConflicts(db', Redirected(o, from, to), Redirected(p, from, to))
  {
    if x, y :| x in db.samples && y in db.samples && x.owner == o && y.owner == p
               && x.end == y.end && x.source == y.source {
      var x' := MovedSample(db, db', from, to, x);
      var y' := MovedSample(db, db', from, to, y);
    } else if x, y :| x in db.rollups && y in db.rollups && x.owner == o && y.owner == p
                      && x.size == y.size && x.start == y.start && x.source == y.source {
      var x' := MovedRollup(db, db', from, to, x);
      var y' := MovedRollup(db, db', from, to, y);
    } else {
      var x, y :| x in db.gaps && y in db.gaps && OfOwner(x, o) && OfOwner(y, p)
                  && x.start == y.start && x.end == y.end && x.reason == y.reason;
      var x' := MovedGap(db, db', from, to, x, o);
      var y' := MovedGap(db, db', from, to, y, p);
    }
  }

  lemma OriginalSample(db: Database, db': Database, from: Owner, to: Owner, y: Sample) returns (x: Sample)
    requires RowsRedirected(db, db', from, to) && y in db'.samples
    ensures x in db.samples && y == x.(owner := Redirected(x.owner, from, to))
  {
    var i :| 0 <= i < |db'.samples| && db'.samples[i] == y;
    x := db.samples[i];
  }

  lemma OriginalRollup(db: Database, db': Database, from: Owner, to: Owner, y: Rollup) returns (x: Rollup)
    requires RowsRedirected(db, db', from, to) && y in db'.rollups
    ensures x in db.rollups && y == x.(owner := Redirected(x.owner, from, to))
  {
    var i :| 0 <= i < |db'.rollups| && db'.rollups[i] == y;
    x := db.rollups[i];
  }

  lemma OriginalGap(db: Database, db': Database, from: Owner, to: Owner, y: Gap, o': Owner) returns (x: Gap, o: Owner)
    requires RowsRedirected(db, db', from, to) && y in db'.gaps && OfOwner(y, o')
    ensures x in db.gaps && OfOwner(x, o) && Redirected(o, from, to) == o'
    ensures y.start == x.start && y.end == x.end && y.reason == x.reason
  {
    var i :| 0 <= i < |db'.gaps| && db'.gaps[i] == y;
    x := db.gaps[i];
    o := if OfOwner(x, from) then from else o';
  }

  lemma ConflictsWere(db: Database, db': Database, from: Owner, to: Owner, o': Owner, p': Owner)
    returns (o: Owner, p: Owner)
    requires RowsRedirected(db, db', from, to) && MoveConflicts(db', o', p')
    ensures MoveConflicts(db, o, p) && Redirected(o, from, to) == o' && Redirected(p, from, to) == p'
  {
    if x, y :| x in db'.samples && y in db'.samples && x.owner == o' && y.owner == p'
               && x.end == y.end && x.source == y.source {
      var x0 := OriginalSample(db, db', from, to, x);
      var y0 := OriginalSample(db, db', from, to, y);
      o, p := x0.owner, y0.owner;
    } else if x, y :| x in db'.rollups && y in db'.rollups && x.owner == o' && y.owner == p'
                      && x.size == y.size && x.start == y.start && x.source == y.source {
      var x0 := OriginalRollup(db, db', from, to, x);
      var y0 := OriginalRollup(db, db', from, to, y);
      o, p := x0.owner, y0.owner;
    } else {
      var x, y :| x in db'.gaps && y in db'.gaps && OfOwner(x, o') && OfOwner(y, p')
                  && x.start == y.start && x.end == y.end && x.reason == y.reason;
      var x0, o0 := OriginalGap(db, db', from, to, x, o');
      var y0, p0 := OriginalGap(db, db', from, to, y, p');
      o, p := o0, p0;
    }
  }

  lemma ConflictingAreOwned(db: Database, o: Owner, p: Owner)
    requires OwnershipHolds(db) && MoveConflicts(db, o, p)
    ensures Owned(db, o) && Owned(db, p)
  {
    forall g | g in db.gaps ensures GapOwned(db, g) {
    }
  }

  lemma ConflictsAreMutual(db: Database, o: Owner, p: Owner)
    requires MoveConflicts(db, o, p)
    ensures MoveConflicts(db, p, o)
  {
  }

  // ----- one interface

  /** Every owned owner keeps its key where it goes, and stays within the routers concerned. */
  ghost predicate KeysFollow(db: Database, db': Database, from: Owner, to: Owner) {
    && from.router != to.router && Owned(db, from)
    && (forall o :: Owned(db, o) ==> Owned(db', Redirected(o, from, to)))
    && forall o, key :: Owned(db, o) && KeyIs(db, o.iface, key) ==> KeyIs(db', Redirected(o, from, to).iface, key)
  }

  /** What adopting one interface does to the rows. */
  lemma InterfaceRedirects(db: Database, row: InterfaceRow, target: int, at: i64) returns (to: Owner)
    requires OwnershipHolds(db) && row in db.interfaces && row.router != target && RouterExists(db, target)
    requires AdoptInterface(db, row.router, row, target, at).Ok?
    ensures to.router == target
    ensures RowsRedirected(db, AdoptInterface(db, row.router, row, target, at).value, Owner(row.router, row.id), to)
    ensures if Owned(db, to) then FindInterface(db.interfaces, target, row.key) == Some(to.iface)
      else FindInterface(db.interfaces, target, row.key).None?
    ensures KeysFollow(db, AdoptInterface(db, row.router, row, target, at).value, Owner(row.router, row.id), to)
  {
    var from := Owner(row.router, row.id);
    var db' := AdoptInterface(db, row.router, row, target, at).value;
    var existing := FindInterface(db.interfaces, target, row.key);
    FindInterfaceFinds(db.interfaces, target, row.key);
    assert Owned(db, from);
    if existing.Some? {
      to := Owner(target, existing.value);
      var r :| r in db.interfaces && r.id == existing.value && r.router == target && r.key == row.key;
      if to.iface == row.id {
        OneRouterPerInterface(db, row, to);
        assert false;
      }
      MergedInterfaceLosesNothing(db, row, to);
      OthersStayOwned(db, db', row);
      assert r in db'.interfaces;
    } else {
      to := Owner(target, row.id);
      if Owned(db, to) {
        OneRouterPerInterface(db, row, to);
      }
      var moved := ReassignKeeps(db.interfaces, row, target, at);
      OthersStayOwned(db, db', row);
      assert moved in db'.interfaces;
    }
    forall key | KeyIs(db, row.id, key) ensures KeyIs(db', to.iface, key) {
      KeyOfRow(db, row, key);
    }
  }

  /** Owners that stay two merge after the step exactly when they did before it. */
  lemma MergingFollows(db: Database, db': Database, legacy: set<int>, target: int, from: Owner, to: Owner, o: Owner,
      p: Owner)
    requires UniqueInterfaceIds(db.interfaces) && UniqueInterfaceIds(db'.interfaces) && KeysFollow(db, db', from, to)
    requires from.router in legacy && to.router == target && Owned(db, o) && Owned(db, p)
    ensures var o', p' := Redirected(o, from, to), Redirected(p, from, to);
      o' != p' ==> (Merging(db', legacy, target, o', p') <==> Merging(db, legacy, target, o, p))
  {
    var o', p' := Redirected(o, from, to), Redirected(p, from, to);
    var a := KeyOfOwned(db, o);
    var b := KeyOfOwned(db, p);
    forall key ensures KeyIs(db, o.iface, key) <==> KeyIs(db', o'.iface, key) {
      SameKeyAfter(db, db', from, to, o, a, key);
    }
    forall key ensures KeyIs(db, p.iface, key) <==> KeyIs(db', p'.iface, key) {
      SameKeyAfter(db, db', from, to, p, b, key);
    }
  }

  lemma SameKeyAfter(db: Database, db': Database, from: Owner, to: Owner, o: Owner, a: InterfaceRow, key: string)
    requires UniqueInterfaceIds(db.interfaces) && UniqueInterfaceIds(db'.interfaces) && KeysFollow(db, db', from, to)
    requires Owned(db, o) && a in db.interfaces && a.id == o.iface && KeyIs(db, o.iface, a.key)
    ensures KeyIs(db, o.iface, key) <==> KeyIs(db', Redirected(o, from, to).iface, key)
  {
    if KeyIs(db', Redirected(o, from, to).iface, key) {
      var b := KeyOfOwned(db', Redirected(o, from, to));
      OneKey(db', Redirected(o, from, to).iface, b, key);
      OneKey(db', Redirected(o, from, to).iface, b, a.key);
    }
  }

  /** One interface is adopted without error and without a clash left exactly when there was none. */
  lemma InterfaceAccepted(db: Database, row: InterfaceRow, target: int, at: i64, legacy: set<int>)
    requires OwnershipHolds(db) && UniqueKeys(db.interfaces) && RouterExists(db, target)
    requires row in db.interfaces && row.router in legacy && target !in legacy
    ensures var r := AdoptInterface(db, row.router, row, target, at);
      NoClash(db, legacy, target) <==> r.Ok? && NoClash(r.value, legacy, target)
  {
    var r := AdoptInterface(db, row.router, row, target, at);
    if r.Err? {
      RefusalIsClash(db, row, target, at, legacy);
    } else {
      AdoptInterfaceCarries(db, row, target, at, legacy);
      var to := InterfaceRedirects(db, row, target, at);
      if NoClash(db, legacy, target) {
        NoNewClash(db, r.value, legacy, target, Owner(row.router, row.id), to);
      }
      if NoClash(r.value, legacy, target) {
        NoOldClash(db, r.value, row, target, at, legacy, to);
      }
    }
  }

  lemma RefusalIsClash(db: Database, row: InterfaceRow, target: int, at: i64, legacy: set<int>)
    requires OwnershipHolds(db) && row in db.interfaces && row.router in legacy && target !in legacy
    requires AdoptInterface(db, row.router, row, target, at).Err?
    ensures !NoClash(db, legacy, target)
  {
    var from := Owner(row.router, row.id);
    var existing := FindInterface(db.interfaces, target, row.key);
    FindInterfaceFinds(db.interfaces, target, row.key);
    if existing.Some? {
      var to := Owner(target, existing.value);
      assert KeyIs(db, from.iface, row.key) && KeyIs(db, to.iface, row.key);
      assert Merging(db, legacy, target, from, to) && MoveConflicts(db, from, to);
    } else {
      var to := Owner(target, row.id);
      NobodyThere(db, row, from, to);
      assert false;
    }
  }

  lemma NobodyThere(db: Database, row: InterfaceRow, from: Owner, to: Owner)
    requires OwnershipHolds(db) && row in db.interfaces && to.iface == row.id && to.router != row.router
    ensures !MoveConflicts(db, from, to) && to !in db.checkpoints
  {
    if Owned(db, to) {
      OneRouterPerInterface(db, row, to);
    }
    if MoveConflicts(db, from, to) {
      ConflictingAreOwned(db, from, to);
    }
  }

  lemma NoNewClash(db: Database, db': Database, legacy: set<int>, target: int, from: Owner, to: Owner)
    requires OwnershipHolds(db) && OwnershipHolds(db') && RowsRedirected(db, db', from, to)
    requires KeysFollow(db, db', from, to) && from.router in legacy && to.router == target
    requires NoClash(db, legacy, target)
    ensures NoClash(db', legacy, target)
  {
    forall o', p' | Merging(db', legacy, target, o', p') ensures !MoveConflicts(db', o', p') {
      if MoveConflicts(db', o', p') {
        var o, p := ConflictsWere(db, db', from, to, o', p');
        ConflictingAreOwned(db, o, p);
        MergingFollows(db, db', legacy, target, from, to, o, p);
      }
    }
  }

  lemma NoOldClash(db: Database, db': Database, row: InterfaceRow, target: int, at: i64, legacy: set<int>, to: Owner)
    requires OwnershipHolds(db) && OwnershipHolds(db') && row in db.interfaces && row.router in legacy
    requires AdoptInterface(db, row.router, row, target, at) == Ok(db') && to.router == target && target !in legacy
    requires RowsRedirected(db, db', Owner(row.router, row.id), to)
    requires KeysFollow(db, db', Owner(row.router, row.id), to)
    requires if Owned(db, to) then FindInterface(db.interfaces, target, row.key) == Some(to.iface)
      else FindInterface(db.interfaces, target, row.key).None?
    requires NoClash(db', legacy, target)
    ensures NoClash(db, legacy, target)
  {
    var from := Owner(row.router, row.id);
    forall o, p | Merging(db, legacy, target, o, p) ensures !MoveConflicts(db, o, p) {
      if MoveConflicts(db, o, p) {
        ConflictingAreOwned(db, o, p);
        if Redirected(o, from, to) == Redirected(p, from, to) {
          MergedConflict(db, row, target, at, to, o, p);
        }
        ConflictsStay(db, db', from, to, o, p);
        MergingFollows(db, db', legacy, target, from, to, o, p);
      }
    }
  }

  /** A step that brings two conflicting owners together is refused. */
  lemma MergedConflict(db: Database, row: InterfaceRow, target: int, at: i64, to: Owner, o: Owner, p: Owner)
    requires to.router == target && o != p && Owned(db, o) && Owned(db, p) && MoveConflicts(db, o, p)
    requires var from := Owner(row.router, row.id); Redirected(o, from, to) == Redirected(p, from, to)
    requires if Owned(db, to) then FindInterface(db.interfaces, target, row.key) == Some(to.iface)
      else FindInterface(db.interfaces, target, row.key).None?
    ensures AdoptInterface(db, row.router, row, target, at).Err?
  {
    ConflictsAreMutual(db, o, p);
  }

  // ----- all interfaces and routers

  lemma {:induction false} InterfacesAccepted(
    db: Database, router: int, rows: seq<InterfaceRow>, target: int, at: i64, legacy: set<int>)
    requires OwnershipHolds(db) && UniqueKeys(db.interfaces) && RouterExists(db, target)
    requires router in legacy && target !in legacy
    requires UniqueInterfaceIds(rows) && forall r :: r in rows <==> r in db.interfaces && r.router == router
    ensures var r := AdoptInterfaces(db, router, rows, target, at);
      NoClash(db, legacy, target) <==> r.Ok? && NoClash(r.value, legacy, target)
    decreases |rows|
  {
    if rows != [] {
      assert rows[0] in rows;
      InterfaceAccepted(db, rows[0], target, at, legacy);
      var step := AdoptInterface(db, router, rows[0], target, at);
      if step.Ok? {
        AdoptInterfaceCarries(db, rows[0], target, at, legacy);
        AdoptInterfaceKeepsKeys(db, rows[0], target, at);
        RemainingInterfaces(db.interfaces, step.value.interfaces, rows, router, target);
        InterfacesAccepted(step.value, router, rows[1..], target, at, legacy);
      }
    }
  }

  /** Clashes depend on the interfaces, the samples, the rollups and the gaps of interfaces only. */
  lemma SameClashes(db: Database, db': Database, legacy: set<int>, target: int)
    requires forall r :: r in db'.interfaces <==> r in db.interfaces
    requires db'.samples == db.samples && db'.rollups == db.rollups
    requires forall g: Gap :: g.iface.Some? ==> (g in db'.gaps <==> g in db.gaps)
    ensures NoClash(db', legacy, target) <==> NoClash(db, legacy, target)
  {
    forall o, p ensures MoveConflicts(db', o, p) <==> MoveConflicts(db, o, p)
      ensures Merging(db', legacy, target, o, p) <==> Merging(db, legacy, target, o, p)
    {
      forall iface, key ensures KeyIs(db', iface, key) <==> KeyIs(db, iface, key) {
      }
    }
  }

  lemma RouterGapsApart(gaps: seq<Gap>, from: int, to: int, g: Gap)
    requires g.iface.Some?
    ensures g in MoveRouterGaps(gaps, from, to) <==> g in gaps
  {
    var moved := MoveRouterGaps(gaps, from, to);
    if g in gaps {
      var i :| 0 <= i < |gaps| && gaps[i] == g;
      assert moved[i] == g;
    }
  }

  lemma RouterAccepted(db: Database, id: int, target: int, at: i64, legacy: set<int>)
    requires OwnershipHolds(db) && UniqueKeys(db.interfaces) && RouterExists(db, target)
    requires id in legacy && target !in legacy
    ensures var r := AdoptRouter(db, id, target, at);
      NoClash(db, legacy, target) <==> r.Ok? && NoClash(r.value, legacy, target)
  {
    var rows := InterfacesOf(db.interfaces, id);
    InterfacesOfMeaning(db.interfaces, id);
    InterfacesAccepted(db, id, rows, target, at, legacy);
    var adopted := AdoptInterfaces(db, id, rows, target, at);
    if adopted.Ok? {
      AdoptInterfacesCarries(db, id, rows, target, at, legacy);
      RouterDeletedWithoutClash(db, adopted.value, id, target, at, legacy);
    }
  }

  lemma RouterDeletedWithoutClash(db: Database, moved: Database, id: int, target: int, at: i64, legacy: set<int>)
    requires OwnershipHolds(moved) && RouterExists(moved, target) && id in legacy && target !in legacy
    requires AdoptInterfaces(db, id, InterfacesOf(db.interfaces, id), target, at) == Ok(moved)
    requires forall r :: r in moved.interfaces ==> r.router != id
    ensures NoClash(AdoptRouter(db, id, target, at).value, legacy, target) <==> NoClash(moved, legacy, target)
  {
    var refreshed := moved.(gaps := MoveRouterGaps(moved.gaps, id, target),
                            routers := RefreshRouter(moved.routers, target, FirstSeenOf(moved.routers, id), at));
    forall x ensures RouterExists(refreshed, x) <==> RouterExists(moved, x) {
      RefreshKeepsIds(moved.routers, target, FirstSeenOf(moved.routers, id), at, x);
    }
    RouterGapsCarried(moved, refreshed, id, target, legacy);
    EmptyRouterDeletesAlone(refreshed, id);
    forall g: Gap | g.iface.Some? ensures g in refreshed.gaps <==> g in moved.gaps {
      RouterGapsApart(moved.gaps, id, target, g);
    }
    SameClashes(moved, DeleteRouter(refreshed, id), legacy, target);
  }

  lemma {:induction false} RoutersAccepted(db: Database, ids: seq<int>, target: int, at: i64, legacy: set<int>)
    requires OwnershipHolds(db) && UniqueKeys(db.interfaces) && RouterExists(db, target) && target !in legacy
    requires forall id :: id in ids ==> id in legacy
    ensures var r := AdoptRouters(db, ids, target, at);
      NoClash(db, legacy, target) <==> r.Ok? && NoClash(r.value, legacy, target)
    decreases |ids|
  {
    if ids != [] {
      assert ids[0] in ids;
      RouterAccepted(db, ids[0], target, at, legacy);
      var step := AdoptRouter(db, ids[0], target, at);
      if step.Ok? {
        AdoptRouterCarries(db, ids[0], target, at, legacy);
        AdoptRouterKeepsKeys(db, ids[0], target, at, legacy);
        RoutersAccepted(step.value, ids[1..], target, at, legacy);
      }
    }
  }

  /** Once the imported routers are gone nothing is left to merge. */
  lemma NothingLeftToMerge(db: Database, legacy: set<int>, target: int)
    requires OwnershipHolds(db) && UniqueKeys(db.interfaces) && forall id :: id in legacy ==> !RouterExists(db, id)
    ensures NoClash(db, legacy, target)
  {
    forall o, p | Merging(db, legacy, target, o, p) ensures !MoveConflicts(db, o, p) {
      if MoveConflicts(db, o, p) {
        ConflictingAreOwned(db, o, p);
        OwnedRouterExists(db, o);
        OwnedRouterExists(db, p);
        var key :| KeyIs(db, o.iface, key) && KeyIs(db, p.iface, key);
        var a := KeyOfOwned(db, o);
        var b := KeyOfOwned(db, p);
        OneKey(db, o.iface, a, key);
        OneKey(db, p.iface, b, key);
      }
    }
  }

  /**
   * Rows of interfaces that become one differ in what is unique per interface: end and source of
   * samples, size, start and source of rollups, interval and reason of gaps.
   */
  ghost predicate MergedKeysDiffer(db: Database, legacy: set<int>, target: int) {
    && (forall x, y :: x in db.samples && y in db.samples && Merging(db, legacy, target, x.owner, y.owner) ==>
          x.end != y.end || x.source != y.source)
    && (forall x, y :: x in db.rollups && y in db.rollups && Merging(db, legacy, target, x.owner, y.owner) ==>
          x.size != y.size || x.start != y.start || x.source != y.source)
    && forall x, y :: x in db.gaps && y in db.gaps && x.iface.Some? && y.iface.Some?
                      && Merging(db, legacy, target, Owner(x.router, x.iface.value), Owner(y.router, y.iface.value)) ==>
         x.start != y.start || x.end != y.end || x.reason != y.reason
  }

  lemma NoClashMeans(db: Database, legacy: set<int>, target: int)
    ensures NoClash(db, legacy, target) <==> MergedKeysDiffer(db, legacy, target)
  {
    if NoClash(db, legacy, target) {
      forall x, y | x in db.gaps && y in db.gaps && x.iface.Some? && y.iface.Some?
                    && Merging(db, legacy, target, Owner(x.router, x.iface.value), Owner(y.router, y.iface.value))
        ensures x.start != y.start || x.end != y.end || x.reason != y.reason
      {
        assert !MoveConflicts(db, Owner(x.router, x.iface.value), Owner(y.router, y.iface.value));
      }
    }
    if MergedKeysDiffer(db, legacy, target) {
      forall o, p | Merging(db, legacy, target, o, p) ensures !MoveConflicts(db, o, p) {
        forall x, y | x in db.gaps && y in db.gaps && OfOwner(x, o) && OfOwner(y, p)
          ensures x.start != y.start || x.end != y.end || x.reason != y.reason
        {
          assert o == Owner(x.router, x.iface.value) && p == Owner(y.router, y.iface.value);
        }
      }
    }
  }

  /** Adoption succeeds exactly when the rows that it merges differ in what is unique per interface. */
  lemma AdoptionSucceedsExactly(db: Database, target: int, at: i64)
    requires OwnershipHolds(db) && UniqueKeys(db.interfaces) && RouterExists(db, target)
    ensures AdoptLegacyHistory(db, target, at).Ok? <==> MergedKeysDiffer(db, LegacySet(db, target), target)
  {
    var legacy := LegacySet(db, target);
    NoClashMeans(db, legacy, target);
    TargetIsNotLegacy(db.routers, target);
    RoutersAccepted(db, LegacyIds(db.routers, target), target, at, legacy);
    if AdoptLegacyHistory(db, target, at).Ok? {
      var db' := AdoptLegacyHistory(db, target, at).value;
      AdoptionMovesEverything(db, target, at);
      AdoptRoutersKeepKeys(db, LegacyIds(db.routers, target), target, at, legacy);
      NothingLeftToMerge(db', legacy, target);
    }
  }
}
