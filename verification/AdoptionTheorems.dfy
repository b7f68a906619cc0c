/** Adoption moves all imported history and loses none of it. */
module AdoptionTheorems {
  import opened Int64
  import opened Outcomes
  import opened Contributions
  import opened TrafficTables
  import opened Adoption

  // ----- the ownership rule

  ghost predicate UniqueInterfaceIds(rows: seq<InterfaceRow>) {
    forall i, j :: 0 <= i < j < |rows| ==> rows[i].id != rows[j].id
  }

  /** The interface exists and belongs to the router. */
  ghost predicate Owned(db: Database, o: Owner) {
    exists r :: r in db.interfaces && r.id == o.iface && r.router == o.router
  }

  ghost predicate RouterExists(db: Database, id: int) {
    exists r :: r in db.routers && r.id == id
  }

  ghost predicate GapOwned(db: Database, g: Gap) {
    if g.iface.Some? then Owned(db, Owner(g.router, g.iface.value)) else RouterExists(db, g.router)
  }

  /** Every row's interface belongs to the row's router, and every interface's router exists. */
  ghost predicate OwnershipHolds(db: Database) {
    && UniqueInterfaceIds(db.interfaces)
    && (forall r :: r in db.interfaces ==> RouterExists(db, r.router))
    && (forall s :: s in db.samples ==> Owned(db, s.owner))
    && (forall r :: r in db.rollups ==> Owned(db, r.owner))
    && (forall g :: g in db.gaps ==> GapOwned(db, g))
    && (forall o :: o in db.checkpoints ==> Owned(db, o))
  }

  // ----- rows are carried over

  ghost predicate KeyIs(db: Database, iface: int, key: string) {
    exists r :: r in db.interfaces && r.id == iface && r.key == key
  }

  /** The owner is unchanged, or an imported one replaced by an interface of the target with the same key. */
  ghost predicate OwnerCarried(db: Database, db': Database, legacy: set<int>, target: int, o: Owner, o': Owner) {
    && (o' == o || (o.router in legacy && o'.router == target))
    && forall key :: KeyIs(db, o.iface, key) ==> KeyIs(db', o'.iface, key)
  }

  ghost predicate SampleCarried(db: Database, db': Database, legacy: set<int>, target: int, s: Sample, s': Sample) {
    s' == s.(owner := s'.owner) && OwnerCarried(db, db', legacy, target, s.owner, s'.owner)
  }

  ghost predicate RollupCarried(db: Database, db': Database, legacy: set<int>, target: int, r: Rollup, r': Rollup) {
    r' == r.(owner := r'.owner) && OwnerCarried(db, db', legacy, target, r.owner, r'.owner)
  }

  ghost predicate GapCarried(db: Database, db': Database, legacy: set<int>, target: int, g: Gap, g': Gap) {
    && g' == g.(router := g'.router, iface := g'.iface) && (g.iface.Some? <==> g'.iface.Some?)
    && if g.iface.Some? then
         OwnerCarried(db, db', legacy, target, Owner(g.router, g.iface.value), Owner(g'.router, g'.iface.value))
       else g'.router == g.router || (g.router in legacy && g'.router == target)
  }

  /** The tables hold the same rows in the same places, up to the change of owner. */
  ghost predicate Carried(db: Database, db': Database, legacy: set<int>, target: int) {
    && |db'.samples| == |db.samples| && |db'.rollups| == |db.rollups| && |db'.gaps| == |db.gaps|
    && (forall i :: 0 <= i < |db.samples| ==> SampleCarried(db, db', legacy, target, db.samples[i], db'.samples[i]))
    && (forall i :: 0 <= i < |db.rollups| ==> RollupCarried(db, db', legacy, target, db.rollups[i], db'.rollups[i]))
    && (forall i :: 0 <= i < |db.gaps| ==> GapCarried(db, db', legacy, target, db.gaps[i], db'.gaps[i]))
  }

  lemma CarriedTransitive(a: Database, b: Database, c: Database, legacy: set<int>, target: int)
    requires target !in legacy && Carried(a, b, legacy, target) && Carried(b, c, legacy, target)
    ensures Carried(a, c, legacy, target)
  {
    forall i | 0 <= i < |a.samples| ensures SampleCarried(a, c, legacy, target, a.samples[i], c.samples[i]) {
      assert SampleCarried(a, b, legacy, target, a.samples[i], b.samples[i]);
      assert SampleCarried(b, c, legacy, target, b.samples[i], c.samples[i]);
    }
    forall i | 0 <= i < |a.rollups| ensures RollupCarried(a, c, legacy, target, a.rollups[i], c.rollups[i]) {
      assert RollupCarried(a, b, legacy, target, a.rollups[i], b.rollups[i]);
      assert RollupCarried(b, c, legacy, target, b.rollups[i], c.rollups[i]);
    }
    forall i | 0 <= i < |a.gaps| ensures GapCarried(a, c, legacy, target, a.gaps[i], c.gaps[i]) {
      assert GapCarried(a, b, legacy, target, a.gaps[i], b.gaps[i]);
      assert GapCarried(b, c, legacy, target, b.gaps[i], c.gaps[i]);
    }
  }

  // ----- deletes that hit nothing

  lemma {:induction false} DropSamplesNone(rows: seq<Sample>, p: Owner -> bool)
    requires forall s :: s in rows ==> !p(s.owner)
    ensures DropSamples(rows, p) == rows
  {
    if rows != [] {
      DropSamplesNone(rows[1..], p);
    }
  }

  lemma {:induction false} DropRollupsNone(rows: seq<Rollup>, p: Owner -> bool)
    requires forall r :: r in rows ==> !p(r.owner)
    ensures DropRollups(rows, p) == rows
  {
    if rows != [] {
      DropRollupsNone(rows[1..], p);
    }
  }

  lemma {:induction false} DropGapsNone(rows: seq<Gap>, p: Gap -> bool)
    requires forall g :: g in rows ==> !p(g)
    ensures DropGaps(rows, p) == rows
  {
    if rows != [] {
      DropGapsNone(rows[1..], p);
    }
  }

  lemma {:induction false} DropInterfacesKeeps(rows: seq<InterfaceRow>, p: InterfaceRow -> bool)
    ensures forall r :: r in DropInterfaces(rows, p) <==> r in rows && !p(r)
    ensures UniqueInterfaceIds(rows) ==> UniqueInterfaceIds(DropInterfaces(rows, p))
  {
    if rows != [] {
      DropInterfacesKeeps(rows[1..], p);
      assert rows == [rows[0]] + rows[1..];
      var rest := DropInterfaces(rows[1..], p);
      if UniqueInterfaceIds(rows) {
        assert forall i :: 0 <= i < |rest| ==> rest[i] in rows[1..];
      }
    }
  }

  lemma {:induction false} DropRoutersKeeps(rows: seq<RouterRow>, id: int)
    ensures forall r :: r in DropRouters(rows, id) <==> r in rows && r.id != id
  {
    if rows != [] {
      DropRoutersKeeps(rows[1..], id);
      assert rows == [rows[0]] + rows[1..];
    }
  }

  // ----- one interface

  lemma {:induction false} FindInterfaceFinds(rows: seq<InterfaceRow>, router: int, key: string)
    ensures var found := FindInterface(rows, router, key);
      if found.Some? then exists r :: r in rows && r.id == found.value && r.router == router && r.key == key
      else forall r :: r in rows ==> !(r.router == router && r.key == key)
  {
    if rows != [] {
      FindInterfaceFinds(rows[1..], router, key);
      assert rows == [rows[0]] + rows[1..];
    }
  }

  /** Under the ownership rule no row names the interface under another router. */
  lemma OneRouterPerInterface(db: Database, row: InterfaceRow, o: Owner)
    requires UniqueInterfaceIds(db.interfaces) && row in db.interfaces && Owned(db, o) && o.iface == row.id
    ensures o.router == row.router
  {
    var r :| r in db.interfaces && r.id == o.iface && r.router == o.router;
    var i :| 0 <= i < |db.interfaces| && db.interfaces[i] == row;
    var j :| 0 <= j < |db.interfaces| && db.interfaces[j] == r;
    if i != j {
      assert false;
    }
  }

  /** Merging an imported interface into an existing one deletes no history row. */
  lemma MergedInterfaceLosesNothing(db: Database, row: InterfaceRow, to: Owner)
    requires OwnershipHolds(db) && row in db.interfaces && to.iface != row.id
    ensures var from := Owner(row.router, row.id);
      var moved := MoveRows(db, from, to);
      var db' := DeleteInterface(moved.(checkpoints := moved.checkpoints - {from}), row.id);
      && db'.samples == moved.samples && db'.rollups == moved.rollups && db'.gaps == moved.gaps
      && db'.routers == db.routers
      && (forall r :: r in db'.interfaces <==> r in db.interfaces && r.id != row.id)
      && UniqueInterfaceIds(db'.interfaces)
      && (forall o :: o in db'.checkpoints ==> o in db.checkpoints && o.iface != row.id)
  {
    var from := Owner(row.router, row.id);
    var moved := MoveRows(db, from, to);
    DropInterfacesKeeps(db.interfaces, (r: InterfaceRow) => r.id == row.id);
    forall i | 0 <= i < |db.samples| ensures moved.samples[i].owner.iface != row.id {
      assert Owned(db, db.samples[i].owner);
      if db.samples[i].owner.iface == row.id {
        OneRouterPerInterface(db, row, db.samples[i].owner);
      }
    }
    forall i | 0 <= i < |db.rollups| ensures moved.rollups[i].owner.iface != row.id {
      assert Owned(db, db.rollups[i].owner);
      if db.rollups[i].owner.iface == row.id {
        OneRouterPerInterface(db, row, db.rollups[i].owner);
      }
    }
    forall i | 0 <= i < |db.gaps| ensures moved.gaps[i].iface != Some(row.id) {
      assert GapOwned(db, db.gaps[i]);
      if db.gaps[i].iface == Some(row.id) {
        OneRouterPerInterface(db, row, Owner(db.gaps[i].router, row.id));
      }
    }
    DropSamplesNone(moved.samples, (o: Owner) => o.iface == row.id);
    DropRollupsNone(moved.rollups, (o: Owner) => o.iface == row.id);
    DropGapsNone(moved.gaps, (g: Gap) => g.iface == Some(row.id));
  }

  /**
   * Moving the rows of one owner to another, while the interface table changes so that every
   * other owner stays owned and keys are kept, carries all rows and keeps the ownership rule.
   */
  lemma MovedRowsCarried(db: Database, db': Database, from: Owner, to: Owner, legacy: set<int>, target: int)
    requires OwnershipHolds(db) && from.router in legacy && to.router == target
    requires db'.samples == MoveSamples(db.samples, from, to) && db'.rollups == MoveRollups(db.rollups, from, to)
    requires db'.gaps == MoveGaps(db.gaps, from, to) && db'.routers == db.routers
    requires UniqueInterfaceIds(db'.interfaces) && forall r :: r in db'.interfaces ==> RouterExists(db, r.router)
    requires Owned(db', to) && forall o :: Owned(db, o) && o != from ==> Owned(db', o)
    requires forall key :: KeyIs(db, from.iface, key) ==> KeyIs(db', to.iface, key)
    requires forall o, key :: Owned(db, o) && o != from && KeyIs(db, o.iface, key) ==> KeyIs(db', o.iface, key)
    requires forall o :: o in db'.checkpoints ==> Owned(db', o)
    ensures Carried(db, db', legacy, target) && OwnershipHolds(db')
  {
    forall i | 0 <= i < |db.samples|
      ensures SampleCarried(db, db', legacy, target, db.samples[i], db'.samples[i]) && Owned(db', db'.samples[i].owner)
    {
      assert Owned(db, db.samples[i].owner);
    }
    forall i | 0 <= i < |db.rollups|
      ensures RollupCarried(db, db', legacy, target, db.rollups[i], db'.rollups[i]) && Owned(db', db'.rollups[i].owner)
    {
      assert Owned(db, db.rollups[i].owner);
    }
    forall i | 0 <= i < |db.gaps|
      ensures GapCarried(db, db', legacy, target, db.gaps[i], db'.gaps[i]) && GapOwned(db', db'.gaps[i])
    {
      assert GapOwned(db, db.gaps[i]);
    }
  }

  lemma KeyOfRow(db: Database, row: InterfaceRow, key: string)
    requires UniqueInterfaceIds(db.interfaces) && row in db.interfaces && KeyIs(db, row.id, key)
    ensures key == row.key
  {
    var r :| r in db.interfaces && r.id == row.id && r.key == key;
    var i :| 0 <= i < |db.interfaces| && db.interfaces[i] == row;
    var j :| 0 <= j < |db.interfaces| && db.interfaces[j] == r;
    if i != j {
      assert false;
    }
  }

  /** Owners other than the redirected one survive when the interface rows of other ids do. */
  lemma OthersStayOwned(db: Database, db': Database, row: InterfaceRow)
    requires UniqueInterfaceIds(db.interfaces) && row in db.interfaces
    requires forall r :: r in db.interfaces && r.id != row.id ==> r in db'.interfaces
    ensures forall o :: Owned(db, o) && o != Owner(row.router, row.id) ==> Owned(db', o)
    ensures forall o, key :: Owned(db, o) && o != Owner(row.router, row.id) && KeyIs(db, o.iface, key) ==>
      KeyIs(db', o.iface, key)
  {
    forall o | Owned(db, o) && o != Owner(row.router, row.id) ensures Owned(db', o) && o.iface != row.id {
      if o.iface == row.id {
        OneRouterPerInterface(db, row, o);
      }
    }
  }

  lemma ReassignKeeps(rows: seq<InterfaceRow>, row: InterfaceRow, target: int, at: i64) returns (moved: InterfaceRow)
    requires UniqueInterfaceIds(rows) && row in rows
    ensures moved.id == row.id && moved.router == target && moved.key == row.key
    ensures forall r ::
      r in ReassignInterface(rows, row.id, target, at) <==> r == moved || (r in rows && r.id != row.id)
    ensures UniqueInterfaceIds(ReassignInterface(rows, row.id, target, at))
  {
    moved := row.(router := target, lastSeen := Max(row.lastSeen, at));
    var after := ReassignInterface(rows, row.id, target, at);
    var k :| 0 <= k < |rows| && rows[k] == row;
    assert after[k] == moved;
    forall r | r in rows && r.id != row.id ensures r in after {
      var i :| 0 <= i < |rows| && rows[i] == r;
      assert after[i] == r;
    }
    forall r | r in after ensures r == moved || (r in rows && r.id != row.id) {
      var i :| 0 <= i < |after| && after[i] == r;
      if i != k {
        assert rows[i].id != rows[k].id;
      }
    }
  }

  /** Adopting one interface carries all rows, keeps ownership, and takes the interface from its router. */
  lemma AdoptInterfaceCarries(db: Database, row: InterfaceRow, target: int, at: i64, legacy: set<int>)
    requires OwnershipHolds(db) && row in db.interfaces && row.router in legacy && target !in legacy
      && RouterExists(db, target)
    requires AdoptInterface(db, row.router, row, target, at).Ok?
    ensures var db' := AdoptInterface(db, row.router, row, target, at).value;
      && Carried(db, db', legacy, target) && OwnershipHolds(db') && db'.routers == db.routers
      && (forall r :: r in db.interfaces && r.id != row.id ==> r in db'.interfaces)
      && (forall r :: r in db'.interfaces && r.router != target ==> r in db.interfaces && r.id != row.id)
  {
    var from := Owner(row.router, row.id);
    var db' := AdoptInterface(db, row.router, row, target, at).value;
    FindInterfaceFinds(db.interfaces, target, row.key);
    var existing := FindInterface(db.interfaces, target, row.key);
    if existing.Some? {
      var to := Owner(target, existing.value);
      var r :| r in db.interfaces && r.id == existing.value && r.router == target && r.key == row.key;
      if to.iface == row.id {
        OneRouterPerInterface(db, row, to);
        assert false;
      }
      MergedInterfaceLosesNothing(db, row, to);
      OthersStayOwned(db, db', row);
      assert KeyIs(db', to.iface, row.key);
      forall key | KeyIs(db, from.iface, key) ensures KeyIs(db', to.iface, key) {
        KeyOfRow(db, row, key);
      }
      MovedRowsCarried(db, db', from, to, legacy, target);
    } else {
      var to := Owner(target, row.id);
      var moved := ReassignKeeps(db.interfaces, row, target, at);
      OthersStayOwned(db, db', row);
      assert moved in db'.interfaces;
      forall key | KeyIs(db, from.iface, key) ensures KeyIs(db', to.iface, key) {
        KeyOfRow(db, row, key);
      }
      MovedRowsCarried(db, db', from, to, legacy, target);
    }
  }

  // ----- all interfaces of a router

  lemma {:induction false} InterfacesOfMeaning(rows: seq<InterfaceRow>, router: int)
    ensures forall r :: r in InterfacesOf(rows, router) <==> r in rows && r.router == router
    ensures UniqueInterfaceIds(rows) ==> UniqueInterfaceIds(InterfacesOf(rows, router))
  {
    if rows != [] {
      InterfacesOfMeaning(rows[1..], router);
      assert rows == [rows[0]] + rows[1..];
      var rest := InterfacesOf(rows[1..], router);
      if UniqueInterfaceIds(rows) {
        assert forall i :: 0 <= i < |rest| ==> rest[i] in rows[1..];
      }
    }
  }

  lemma CarriedReflexive(db: Database, legacy: set<int>, target: int)
    ensures Carried(db, db, legacy, target)
  {
  }

  /** After the first interface of a router was adopted, the others are what is left of it. */
  lemma RemainingInterfaces(before: seq<InterfaceRow>, after: seq<InterfaceRow>, rows: seq<InterfaceRow>, router: int,
      target: int)
    requires rows != [] && UniqueInterfaceIds(rows) && router != target
    requires forall r :: r in rows <==> r in before && r.router == router
    requires forall r :: r in before && r.id != rows[0].id ==> r in after
    requires forall r :: r in after && r.router != target ==> r in before && r.id != rows[0].id
    ensures UniqueInterfaceIds(rows[1..])
    ensures forall r :: r in rows[1..] <==> r in after && r.router == router
  {
    assert forall r :: r in rows[1..] ==> r in rows && r.id != rows[0].id;
    assert forall r :: r in rows ==> r == rows[0] || r in rows[1..];
  }

  lemma {:induction false} AdoptInterfacesCarries(db: Database, router: int, rows: seq<InterfaceRow>, target: int,
      at: i64, legacy: set<int>)
    requires OwnershipHolds(db) && router in legacy && target !in legacy && RouterExists(db, target)
    requires UniqueInterfaceIds(rows) && forall r :: r in rows <==> r in db.interfaces && r.router == router
    requires AdoptInterfaces(db, router, rows, target, at).Ok?
    ensures var db' := AdoptInterfaces(db, router, rows, target, at).value;
      && Carried(db, db', legacy, target) && OwnershipHolds(db') && db'.routers == db.routers
      && forall r :: r in db'.interfaces ==> r.router != router
    decreases |rows|
  {
    if rows == [] {
      CarriedReflexive(db, legacy, target);
    } else {
      var row, rest := rows[0], rows[1..];
      assert row in rows;
      AdoptInterfaceCarries(db, row, target, at, legacy);
      var next := AdoptInterface(db, router, row, target, at).value;
      RemainingInterfaces(db.interfaces, next.interfaces, rows, router, target);
      AdoptInterfacesCarries(next, router, rest, target, at, legacy);
      CarriedTransitive(db, next, AdoptInterfaces(next, router, rest, target, at).value, legacy, target);
    }
  }

  // ----- one router

  lemma RefreshKeepsIds(rows: seq<RouterRow>, target: int, first: Option<i64>, at: i64, id: int)
    ensures (exists r :: r in RefreshRouter(rows, target, first, at) && r.id == id)
      <==> exists r :: r in rows && r.id == id
  {
    var after := RefreshRouter(rows, target, first, at);
    if r :| r in rows && r.id == id {
      var i :| 0 <= i < |rows| && rows[i] == r;
      assert after[i] in after && after[i].id == id;
    }
    if r :| r in after && r.id == id {
      var i :| 0 <= i < |after| && after[i] == r;
      assert rows[i] in rows && rows[i].id == id;
    }
  }

  /** A router without interfaces and without own gaps is deleted alone. */
  lemma EmptyRouterDeletesAlone(db: Database, id: int)
    requires OwnershipHolds(db) && (forall r :: r in db.interfaces ==> r.router != id)
    requires forall g :: g in db.gaps && g.iface.None? ==> g.router != id
    ensures var db' := DeleteRouter(db, id);
      && db'.samples == db.samples && db'.rollups == db.rollups && db'.gaps == db.gaps
      && (forall r :: r in db'.interfaces <==> r in db.interfaces)
      && OwnershipHolds(db')
      && forall x :: RouterExists(db', x) <==> RouterExists(db, x) && x != id
  {
    var orphans := set r | r in db.interfaces && r.router == id :: r.id;
    assert orphans == {};
    forall s | s in db.samples ensures s.owner.router != id { assert Owned(db, s.owner); }
    forall r | r in db.rollups ensures r.owner.router != id { assert Owned(db, r.owner); }
    forall g | g in db.gaps ensures g.router != id { assert GapOwned(db, g); }
    forall o | o in db.checkpoints ensures o.router != id { assert Owned(db, o); }
    DropSamplesNone(db.samples, (o: Owner) => o.router == id || o.iface in orphans);
    DropRollupsNone(db.rollups, (o: Owner) => o.router == id || o.iface in orphans);
    DropGapsNone(db.gaps, (g: Gap) => g.router == id || (g.iface.Some? && g.iface.value in orphans));
    DropInterfacesKeeps(db.interfaces, (r: InterfaceRow) => r.router == id);
    DropRoutersKeeps(db.routers, id);
    EmptyRouterOwnership(db, DeleteRouter(db, id), id);
  }

  lemma EmptyRouterOwnership(db: Database, db': Database, id: int)
    requires OwnershipHolds(db) && (forall r :: r in db.interfaces ==> r.router != id)
    requires db'.samples == db.samples && db'.rollups == db.rollups && db'.gaps == db.gaps
    requires forall g :: g in db.gaps ==> g.router != id
    requires forall o :: o in db'.checkpoints ==> o in db.checkpoints
    requires UniqueInterfaceIds(db'.interfaces) && forall r :: r in db'.interfaces <==> r in db.interfaces
    requires forall r :: r in db'.routers <==> r in db.routers && r.id != id
    ensures OwnershipHolds(db')
    ensures forall x :: RouterExists(db', x) <==> RouterExists(db, x) && x != id
  {
    forall x ensures RouterExists(db', x) <==> RouterExists(db, x) && x != id {
      if RouterExists(db, x) && x != id {
        var r :| r in db.routers && r.id == x;
        assert r in db'.routers;
      }
    }
    forall o ensures Owned(db', o) <==> Owned(db, o) {
      if Owned(db, o) {
        var r :| r in db.interfaces && r.id == o.iface && r.router == o.router;
        assert r in db'.interfaces;
      }
    }
    forall g | g in db'.gaps ensures GapOwned(db', g) {
      assert GapOwned(db, g);
    }
  }

  lemma RouterGapsCarried(db: Database, db': Database, id: int, target: int, legacy: set<int>)
    requires OwnershipHolds(db) && id in legacy && RouterExists(db, target) && target != id
    requires db'.gaps == MoveRouterGaps(db.gaps, id, target)
    requires db'.samples == db.samples && db'.rollups == db.rollups && db'.interfaces == db.interfaces
      && db'.checkpoints == db.checkpoints
    requires forall x :: RouterExists(db', x) <==> RouterExists(db, x)
    ensures Carried(db, db', legacy, target) && OwnershipHolds(db')
    ensures forall g :: g in db'.gaps && g.iface.None? ==> g.router != id
  {
    assert forall o :: Owned(db', o) <==> Owned(db, o);
    forall i | 0 <= i < |db.gaps|
      ensures GapCarried(db, db', legacy, target, db.gaps[i], db'.gaps[i]) && GapOwned(db', db'.gaps[i])
    {
      assert GapOwned(db, db.gaps[i]);
    }
  }

  lemma AdoptRouterCarries(db: Database, id: int, target: int, at: i64, legacy: set<int>)
    requires OwnershipHolds(db) && id in legacy && target !in legacy && RouterExists(db, target)
    requires AdoptRouter(db, id, target, at).Ok?
    ensures var db' := AdoptRouter(db, id, target, at).value;
      && Carried(db, db', legacy, target) && OwnershipHolds(db')
      && forall x :: RouterExists(db', x) <==> RouterExists(db, x) && x != id
  {
    InterfacesOfMeaning(db.interfaces, id);
    AdoptInterfacesCarries(db, id, InterfacesOf(db.interfaces, id), target, at, legacy);
    var moved := AdoptInterfaces(db, id, InterfacesOf(db.interfaces, id), target, at).value;
    var refreshed := moved.(gaps := MoveRouterGaps(moved.gaps, id, target),
                            routers := RefreshRouter(moved.routers, target, FirstSeenOf(moved.routers, id), at));
    forall x ensures RouterExists(refreshed, x) <==> RouterExists(moved, x) {
      RefreshKeepsIds(moved.routers, target, FirstSeenOf(moved.routers, id), at, x);
    }
    RouterGapsCarried(moved, refreshed, id, target, legacy);
    EmptyRouterDeletesAlone(refreshed, id);
    var db' := DeleteRouter(refreshed, id);
    SameRowsCarried(refreshed, db', legacy, target);
    CarriedTransitive(db, moved, refreshed, legacy, target);
    CarriedTransitive(db, refreshed, db', legacy, target);
  }

  lemma SameRowsCarried(db: Database, db': Database, legacy: set<int>, target: int)
    requires db'.samples == db.samples && db'.rollups == db.rollups && db'.gaps == db.gaps
    requires forall r :: r in db'.interfaces <==> r in db.interfaces
    ensures Carried(db, db', legacy, target)
  {
    forall iface, key | KeyIs(db, iface, key) ensures KeyIs(db', iface, key) {
      var r :| r in db.interfaces && r.id == iface && r.key == key;
      assert r in db'.interfaces;
    }
  }

  // ----- all imported routers

  lemma {:induction false} AdoptRoutersCarries(db: Database, ids: seq<int>, target: int, at: i64, legacy: set<int>)
    requires OwnershipHolds(db) && target !in legacy && RouterExists(db, target)
    requires forall id :: id in ids ==> id in legacy
    requires AdoptRouters(db, ids, target, at).Ok?
    ensures var db' := AdoptRouters(db, ids, target, at).value;
      Carried(db, db', legacy, target) && OwnershipHolds(db') && GoneExactly(db, db', ids)
    decreases |ids|
  {
    if ids == [] {
      CarriedReflexive(db, legacy, target);
    } else {
      assert ids[0] in ids;
      AdoptRouterCarries(db, ids[0], target, at, legacy);
      var next := AdoptRouter(db, ids[0], target, at).value;
      AdoptRoutersCarries(next, ids[1..], target, at, legacy);
      var db' := AdoptRouters(next, ids[1..], target, at).value;
      CarriedTransitive(db, next, db', legacy, target);
      GoneOneByOne(db, next, db', ids);
    }
  }

  /** Exactly the listed routers are gone. */
  ghost predicate GoneExactly(db: Database, db': Database, ids: seq<int>) {
    forall x :: RouterExists(db', x) <==> RouterExists(db, x) && x !in ids
  }

  lemma GoneOneByOne(db: Database, next: Database, db': Database, ids: seq<int>)
    requires ids != [] && GoneExactly(next, db', ids[1..])
    requires forall x :: RouterExists(next, x) <==> RouterExists(db, x) && x != ids[0]
    ensures GoneExactly(db, db', ids)
  {
    assert ids == [ids[0]] + ids[1..];
  }

  lemma {:induction false} TargetIsNotLegacy(routers: seq<RouterRow>, target: int)
    ensures target !in LegacyIds(routers, target)
    ensures forall r :: r in routers && r.fallbackTarget == LEGACY_TARGET && r.id != target ==>
      r.id in LegacyIds(routers, target)
  {
    if routers != [] {
      TargetIsNotLegacy(routers[1..], target);
      assert routers == [routers[0]] + routers[1..];
    }
  }

  /** Where a row's router ends up. */
  function NewRouter(router: int, legacy: set<int>, target: int): int {
    if router in legacy then target else router
  }

  /**
   * Adoption that succeeds keeps every sample, rollup and gap in place with its bytes, times
   * and interface key; exactly the imported ones now belong to the target; the imported
   * routers are gone; and the ownership rule still holds.
   */
  lemma AdoptionMovesEverything(db: Database, target: int, at: i64)
    requires OwnershipHolds(db) && RouterExists(db, target) && AdoptLegacyHistory(db, target, at).Ok?
    ensures var db' := AdoptLegacyHistory(db, target, at).value;
      var legacy := set id | id in LegacyIds(db.routers, target);
      && OwnershipHolds(db') && Carried(db, db', legacy, target)
      && (forall x :: RouterExists(db', x) <==> RouterExists(db, x) && x !in legacy)
      && (forall i :: 0 <= i < |db.samples| ==>
            db'.samples[i].owner.router == NewRouter(db.samples[i].owner.router, legacy, target)
            && (db.samples[i].owner.router !in legacy ==> db'.samples[i] == db.samples[i]))
      && (forall i :: 0 <= i < |db.rollups| ==>
            db'.rollups[i].owner.router == NewRouter(db.rollups[i].owner.router, legacy, target)
            && (db.rollups[i].owner.router !in legacy ==> db'.rollups[i] == db.rollups[i]))
      && (forall i :: 0 <= i < |db.gaps| ==>
            db'.gaps[i].router == NewRouter(db.gaps[i].router, legacy, target))
  {
    var ids := LegacyIds(db.routers, target);
    var legacy := set id | id in ids;
    TargetIsNotLegacy(db.routers, target);
    AdoptRoutersCarries(db, ids, target, at, legacy);
    var db' := AdoptLegacyHistory(db, target, at).value;
    forall i | 0 <= i < |db.samples|
      ensures db'.samples[i].owner.router == NewRouter(db.samples[i].owner.router, legacy, target)
      ensures db.samples[i].owner.router !in legacy ==> db'.samples[i] == db.samples[i]
    {
      assert SampleCarried(db, db', legacy, target, db.samples[i], db'.samples[i]);
      OwnedRouterExists(db', db'.samples[i].owner);
    }
    forall i | 0 <= i < |db.rollups|
      ensures db'.rollups[i].owner.router == NewRouter(db.rollups[i].owner.router, legacy, target)
      ensures db.rollups[i].owner.router !in legacy ==> db'.rollups[i] == db.rollups[i]
    {
      assert RollupCarried(db, db', legacy, target, db.rollups[i], db'.rollups[i]);
      OwnedRouterExists(db', db'.rollups[i].owner);
    }
    forall i | 0 <= i < |db.gaps| ensures db'.gaps[i].router == NewRouter(db.gaps[i].router, legacy, target) {
      assert GapCarried(db, db', legacy, target, db.gaps[i], db'.gaps[i]) && GapOwned(db', db'.gaps[i]);
      if db'.gaps[i].iface.Some? {
        OwnedRouterExists(db', Owner(db'.gaps[i].router, db'.gaps[i].iface.value));
      }
    }
  }

  lemma OwnedRouterExists(db: Database, o: Owner)
    requires OwnershipHolds(db) && Owned(db, o)
    ensures RouterExists(db, o.router)
  {
  }

  function RouterFilter(ids: set<int>): Filter { (o: Owner, a: int, b: int) => o.router in ids }

  lemma {:induction false} SamplesRelabelled(m: Metric, before: seq<Sample>, after: seq<Sample>, legacy: set<int>,
      target: int)
    requires |after| == |before| && target !in legacy
    requires forall i :: 0 <= i < |before| ==>
      after[i] == before[i].(owner := after[i].owner)
      && after[i].owner.router == NewRouter(before[i].owner.router, legacy, target)
    ensures SumSamples(m, RouterFilter({target}), after) == SumSamples(m, RouterFilter(legacy + {target}), before)
  {
    if before != [] {
      SamplesRelabelled(m, before[1..], after[1..], legacy, target);
      assert after[0].owner.router == NewRouter(before[0].owner.router, legacy, target);
    }
  }

  lemma {:induction false} RollupsRelabelled(m: Metric, before: seq<Rollup>, after: seq<Rollup>, legacy: set<int>,
      target: int)
    requires |after| == |before| && target !in legacy
    requires forall i :: 0 <= i < |before| ==>
      after[i] == before[i].(owner := after[i].owner)
      && after[i].owner.router == NewRouter(before[i].owner.router, legacy, target)
    ensures SumRollups(m, RouterFilter({target}), after) == SumRollups(m, RouterFilter(legacy + {target}), before)
  {
    if before != [] {
      RollupsRelabelled(m, before[1..], after[1..], legacy, target);
      assert after[0].owner.router == NewRouter(before[0].owner.router, legacy, target);
    }
  }

  /** After adoption the target holds exactly what it and the imported routers held before. */
  lemma AdoptionConservesBytes(db: Database, target: int, at: i64, m: Metric)
    requires OwnershipHolds(db) && RouterExists(db, target) && AdoptLegacyHistory(db, target, at).Ok?
    ensures var db' := AdoptLegacyHistory(db, target, at).value;
      var legacy := set id | id in LegacyIds(db.routers, target);
      SumSamples(m, RouterFilter({target}), db'.samples) + SumRollups(m, RouterFilter({target}), db'.rollups)
      == SumSamples(m, RouterFilter(legacy + {target}), db.samples)
        + SumRollups(m, RouterFilter(legacy + {target}), db.rollups)
  {
    AdoptionMovesEverything(db, target, at);
    TargetIsNotLegacy(db.routers, target);
    var db' := AdoptLegacyHistory(db, target, at).value;
    var legacy := set id | id in LegacyIds(db.routers, target);
    forall i | 0 <= i < |db.samples| ensures db'.samples[i] == db.samples[i].(owner := db'.samples[i].owner) {
      assert SampleCarried(db, db', legacy, target, db.samples[i], db'.samples[i]);
    }
    forall i | 0 <= i < |db.rollups| ensures db'.rollups[i] == db.rollups[i].(owner := db'.rollups[i].owner) {
      assert RollupCarried(db, db', legacy, target, db.rollups[i], db'.rollups[i]);
    }
    SamplesRelabelled(m, db.samples, db'.samples, legacy, target);
    RollupsRelabelled(m, db.rollups, db'.rollups, legacy, target);
  }
}
