/** What adoption leaves in the router table, and when interfaces and the target count as seen. */
module AdoptionTimes {
  import opened Int64
  import opened Outcomes
  import opened TrafficTables
  import opened Adoption
  import opened AdoptionTheorems
  import opened AdoptionSound

  ghost predicate UniqueRouterIds(rows: seq<RouterRow>) {
    forall a, b :: a in rows && b in rows && a.id == b.id ==> a == b
  }

  /** The first time any of the routers was seen. */
  ghost predicate Earliest(rows: seq<RouterRow>, ids: set<int>, first: int) {
    && (forall r :: r in rows && r.id in ids ==> first <= r.firstSeen)
    && exists r :: r in rows && r.id in ids && r.firstSeen == first
  }

  /**
   * The target keeps its identity and takes over the earliest time any of the routers was seen;
   * other routers stay as they were, and there are no more.
   */
  ghost predicate RoutersMerged(rows: seq<RouterRow>, rows': seq<RouterRow>, legacy: set<int>, target: int, at: int) {
    && (forall r :: r in rows' <==> (r.id == target && r in rows') || (r in rows && r.id != target && r.id !in legacy))
    && forall r :: r in rows' && r.id == target ==>
         && Earliest(rows, legacy + {target}, r.firstSeen)
         && exists was :: was in rows && was.id == target && r.fallbackTarget == was.fallbackTarget
                          && r.lastSeen == if legacy == {} then was.lastSeen else Max(was.lastSeen, at)
  }

  lemma {:induction false} FirstSeenFound(rows: seq<RouterRow>, id: int)
    ensures var found := FirstSeenOf(rows, id);
      if found.Some? then exists r :: r in rows && r.id == id && r.firstSeen == found.value
      else forall r :: r in rows ==> r.id != id
  {
    if rows != [] {
      FirstSeenFound(rows[1..], id);
      assert rows == [rows[0]] + rows[1..];
    }
  }

  lemma RefreshedRows(rows: seq<RouterRow>, target: int, first: Option<i64>, at: i64)
    ensures var after := RefreshRouter(rows, target, first, at);
      && (forall r: RouterRow :: r.id != target ==> (r in after <==> r in rows))
      && (forall was :: was in rows && was.id == target ==> Refreshed(was, first, at) in after)
      && forall r :: r in after && r.id == target ==> exists was :: was in rows && r == Refreshed(was, first, at)
  {
    var after := RefreshRouter(rows, target, first, at);
    forall r: RouterRow | r.id != target ensures r in after <==> r in rows {
      if r in rows {
        var i :| 0 <= i < |rows| && rows[i] == r;
        assert after[i] == r;
      }
    }
    forall was | was in rows && was.id == target ensures Refreshed(was, first, at) in after {
      var i :| 0 <= i < |rows| && rows[i] == was;
      assert after[i] == Refreshed(was, first, at);
    }
    forall r | r in after && r.id == target ensures exists was :: was in rows && r == Refreshed(was, first, at) {
      var i :| 0 <= i < |after| && after[i] == r;
      assert rows[i] in rows;
    }
  }

  function Refreshed(was: RouterRow, first: Option<i64>, at: i64): RouterRow {
    was.(firstSeen := if first.Some? then Min(was.firstSeen, first.value) else was.firstSeen,
         lastSeen := Max(was.lastSeen, at))
  }

  lemma {:induction false} InterfacesKeepRouters(db: Database, router: int, rows: seq<InterfaceRow>, target: int,
      at: i64)
    requires AdoptInterfaces(db, router, rows, target, at).Ok?
    ensures AdoptInterfaces(db, router, rows, target, at).value.routers == db.routers
    decreases |rows|
  {
    if rows != [] {
      InterfacesKeepRouters(AdoptInterface(db, router, rows[0], target, at).value, router, rows[1..], target, at);
    }
  }

  /** The router rows of one imported router and the target are merged. */
  lemma RowsMerged(rows: seq<RouterRow>, id: int, target: int, at: i64)
    requires id != target && UniqueRouterIds(rows) && exists r :: r in rows && r.id == id
    ensures var after := DropRouters(RefreshRouter(rows, target, FirstSeenOf(rows, id), at), id);
      UniqueRouterIds(after) && RoutersMerged(rows, after, {id}, target, at)
  {
    var first := FirstSeenOf(rows, id);
    FirstSeenFound(rows, id);
    RefreshedRows(rows, target, first, at);
    DropRoutersKeeps(RefreshRouter(rows, target, first, at), id);
    var after := DropRouters(RefreshRouter(rows, target, first, at), id);
    forall r | r in after && r.id == target
      ensures Earliest(rows, {id} + {target}, r.firstSeen)
      ensures exists was :: was in rows && was.id == target && r.fallbackTarget == was.fallbackTarget
                            && r.lastSeen == Max(was.lastSeen, at)
    {
      var was :| was in rows && r == Refreshed(was, first, at);
      assert was.id == target;
      EarlierOfTwo(rows, id, target, was, first.value);
    }
  }

  lemma EarlierOfTwo(rows: seq<RouterRow>, id: int, target: int, was: RouterRow, first: i64)
    requires UniqueRouterIds(rows) && was in rows && was.id == target
    requires exists x :: x in rows && x.id == id && x.firstSeen == first
    ensures Earliest(rows, {id} + {target}, Min(was.firstSeen, first))
  {
    var x :| x in rows && x.id == id && x.firstSeen == first;
    assert x.id in {id} + {target} && was.id in {id} + {target};
  }

  /** One imported router goes into the target. */
  lemma RouterMerged(db: Database, id: int, target: int, at: i64)
    requires AdoptRouter(db, id, target, at).Ok? && id != target && UniqueRouterIds(db.routers)
    requires RouterExists(db, id)
    ensures var db' := AdoptRouter(db, id, target, at).value;
      UniqueRouterIds(db'.routers) && RoutersMerged(db.routers, db'.routers, {id}, target, at)
  {
    InterfacesKeepRouters(db, id, InterfacesOf(db.interfaces, id), target, at);
    RowsMerged(db.routers, id, target, at);
  }

  lemma MergedInTurn(a: seq<RouterRow>, b: seq<RouterRow>, c: seq<RouterRow>, id: int, legacy: set<int>, target: int,
      at: int)
    requires UniqueRouterIds(a) && UniqueRouterIds(b) && target != id && target !in legacy && id !in legacy
    requires RoutersMerged(a, b, {id}, target, at) && RoutersMerged(b, c, legacy, target, at)
    requires forall x :: x in legacy ==> exists r :: r in a && r.id == x
    ensures RoutersMerged(a, c, {id} + legacy, target, at)
  {
    forall r | r in c && r.id == target
      ensures Earliest(a, {id} + legacy + {target}, r.firstSeen)
      ensures exists was :: was in a && was.id == target && r.fallbackTarget == was.fallbackTarget
                            && r.lastSeen == Max(was.lastSeen, at)
    {
      var mid :| mid in b && mid.id == target && r.fallbackTarget == mid.fallbackTarget
        && r.lastSeen == if legacy == {} then mid.lastSeen else Max(mid.lastSeen, at);
      var was :| was in a && was.id == target && mid.fallbackTarget == was.fallbackTarget
        && mid.lastSeen == Max(was.lastSeen, at);
      EarliestInTurn(a, b, id, legacy, target, mid, r.firstSeen);
    }
  }

  lemma EarliestInTurn(a: seq<RouterRow>, b: seq<RouterRow>, id: int, legacy: set<int>, target: int, mid: RouterRow,
      first: int)
    requires UniqueRouterIds(b) && target != id && target !in legacy && id !in legacy
    requires mid in b && mid.id == target && Earliest(a, {id} + {target}, mid.firstSeen)
    requires forall r: RouterRow :: r.id in legacy ==> (r in b <==> r in a)
    requires Earliest(b, legacy + {target}, first)
    ensures Earliest(a, {id} + legacy + {target}, first)
  {
    forall r | r in a && r.id in {id} + legacy + {target} ensures first <= r.firstSeen {
      if r.id in legacy {
        assert r in b;
      } else {
        assert mid.firstSeen <= r.firstSeen && first <= mid.firstSeen;
      }
    }
    var x :| x in b && x.id in legacy + {target} && x.firstSeen == first;
    if x.id == target {
      assert x == mid;
      var y :| y in a && y.id in {id} + {target} && y.firstSeen == mid.firstSeen;
      assert y.id in {id} + legacy + {target};
    } else {
      assert x in a && x.id in {id} + legacy + {target};
    }
  }

  // ----- all imported routers

  function IdSet(ids: seq<int>): set<int> { set id | id in ids }

  lemma {:induction false} AllRoutersMerged(db: Database, ids: seq<int>, target: int, at: i64)
    requires UniqueRouterIds(db.routers) && target !in ids && AdoptRouters(db, ids, target, at).Ok?
    requires forall i, j :: 0 <= i < j < |ids| ==> ids[i] != ids[j]
    requires forall id :: id in ids ==> RouterExists(db, id)
    ensures RoutersMerged(db.routers, AdoptRouters(db, ids, target, at).value.routers, IdSet(ids), target, at)
    decreases |ids|
  {
    if ids == [] {
      NothingMerged(db.routers, target, at);
    } else {
      assert ids[0] in ids;
      RouterMerged(db, ids[0], target, at);
      var next := AdoptRouter(db, ids[0], target, at).value;
      forall id | id in ids[1..] ensures RouterExists(next, id) && RouterExists(db, id) {
        StillThere(db, next, ids[0], target, at, id);
      }
      AllRoutersMerged(next, ids[1..], target, at);
      MergedInTurn(db.routers, next.routers, AdoptRouters(next, ids[1..], target, at).value.routers, ids[0],
                   IdSet(ids[1..]), target, at);
      assert IdSet(ids) == {ids[0]} + IdSet(ids[1..]);
    }
  }

  lemma NothingMerged(rows: seq<RouterRow>, target: int, at: int)
    requires UniqueRouterIds(rows)
    ensures RoutersMerged(rows, rows, {}, target, at)
  {
  }

  lemma StillThere(db: Database, next: Database, gone: int, target: int, at: int, id: int)
    requires RoutersMerged(db.routers, next.routers, {gone}, target, at) && id != gone && id != target
    requires RouterExists(db, id)
    ensures RouterExists(next, id)
  {
    var r :| r in db.routers && r.id == id;
    assert r in next.routers;
  }

  predicate UnidentifiedAt(routers: seq<RouterRow>, target: int, id: int) {
    exists r :: r in routers && r.id == id && r.id != target && r.fallbackTarget == "legacy://unidentified"
  }

  lemma {:induction false} LegacyIdsMeaning(routers: seq<RouterRow>, target: int)
    ensures forall id :: id in LegacyIds(routers, target) <==> UnidentifiedAt(routers, target, id)
  {
    if routers != [] {
      LegacyIdsMeaning(routers[1..], target);
      assert routers == [routers[0]] + routers[1..];
      forall id ensures id in LegacyIds(routers, target) <==> UnidentifiedAt(routers, target, id) {
        assert id in LegacyIds(routers[1..], target) <==> UnidentifiedAt(routers[1..], target, id);
      }
    }
  }

  lemma {:induction false} LegacyIdsDistinct(routers: seq<RouterRow>, target: int)
    requires forall i, j :: 0 <= i < j < |routers| ==> routers[i].id != routers[j].id
    ensures forall i, j :: 0 <= i < j < |LegacyIds(routers, target)| ==>
      LegacyIds(routers, target)[i] != LegacyIds(routers, target)[j]
  {
    if routers != [] {
      LegacyIdsDistinct(routers[1..], target);
      LegacyIdsMeaning(routers[1..], target);
      assert forall r :: r in routers[1..] ==> r.id != routers[0].id;
      assert !UnidentifiedAt(routers[1..], target, routers[0].id);
    }
  }

  /** The routers adoption takes in: all without an identity other than the target. */
  ghost function Unidentified(routers: seq<RouterRow>, target: int): set<int> {
    set r | r in routers && r.id != target && r.fallbackTarget == "legacy://unidentified" :: r.id
  }

  /**
   * Adoption removes exactly the routers without an identity, and the target, otherwise unchanged,
   * counts as seen from the earliest of them on and until now.
   */
  lemma AdoptionMergesRouters(db: Database, target: int, at: i64)
    requires forall i, j :: 0 <= i < j < |db.routers| ==> db.routers[i].id != db.routers[j].id
    requires AdoptLegacyHistory(db, target, at).Ok?
    ensures RoutersMerged(db.routers, AdoptLegacyHistory(db, target, at).value.routers,
                          Unidentified(db.routers, target), target, at)
  {
    var ids := LegacyIds(db.routers, target);
    LegacyIdsDistinct(db.routers, target);
    LegacyIdsMeaning(db.routers, target);
    forall id | id in ids ensures RouterExists(db, id) && id != target {
      assert UnidentifiedAt(db.routers, target, id);
    }
    AllRoutersMerged(db, ids, target, at);
    SameRouters(db.routers, ids, target);
  }

  lemma SameRouters(routers: seq<RouterRow>, ids: seq<int>, target: int)
    requires forall id :: id in ids <==> UnidentifiedAt(routers, target, id)
    ensures IdSet(ids) == Unidentified(routers, target)
  {
    forall id ensures id in IdSet(ids) <==> id in Unidentified(routers, target) {
      assert id in ids <==> UnidentifiedAt(routers, target, id);
      assert id in Unidentified(routers, target) <==> UnidentifiedAt(routers, target, id);
    }
  }

  // ----- interfaces

  /**
   * An interface whose key the target has gives way to the target's own, which stays as it was; any
   * other moves to the target and counts as seen until now. The other interfaces stay.
   */
  lemma InterfaceAdoptedExactly(db: Database, row: InterfaceRow, target: int, at: i64)
    requires UniqueInterfaceIds(db.interfaces) && row in db.interfaces && row.router != target
    requires AdoptInterface(db, row.router, row, target, at).Ok?
    ensures var after := AdoptInterface(db, row.router, row, target, at).value.interfaces;
      if exists r :: r in db.interfaces && r.router == target && r.key == row.key then
        forall r :: r in after <==> r in db.interfaces && r.id != row.id
      else
        forall r :: r in after <==>
          (r in db.interfaces && r.id != row.id) || r == InterfaceRow(row.id, target, row.key, Max(row.lastSeen, at))
  {
    FindInterfaceFinds(db.interfaces, target, row.key);
    if FindInterface(db.interfaces, target, row.key).Some? {
      DropInterfacesKeeps(db.interfaces, (r: InterfaceRow) => r.id == row.id);
    } else {
      var moved := ReassignKeeps(db.interfaces, row, target, at);
      SeenUntilNow(db.interfaces, row, target, at, moved);
    }
  }

  lemma SeenUntilNow(rows: seq<InterfaceRow>, row: InterfaceRow, target: int, at: i64, moved: InterfaceRow)
    requires UniqueInterfaceIds(rows) && row in rows && moved in ReassignInterface(rows, row.id, target, at)
    requires moved.id == row.id
    ensures moved.lastSeen == Max(row.lastSeen, at)
  {
    var after := ReassignInterface(rows, row.id, target, at);
    var i :| 0 <= i < |after| && after[i] == moved;
    var k :| 0 <= k < |rows| && rows[k] == row;
    assert i < k ==> rows[i].id != rows[k].id;
    assert k < i ==> rows[k].id != rows[i].id;
  }
}
