/** When the adopting router's history stays queryable. */
module AdoptionSound {
  import opened Int64
  import opened Outcomes
  import opened TrafficTables
  import opened StoreInvariant
  import opened Adoption
  import opened AdoptionTheorems

  /** A router has one interface per key. */
  ghost predicate UniqueKeys(rows: seq<InterfaceRow>) {
    forall a, b :: a in rows && b in rows && a.router == b.router && a.key == b.key ==> a.id == b.id
  }

  // ----- adoption keeps keys unique

  lemma AdoptedInterfaces(db: Database, row: InterfaceRow, target: int, at: i64)
    requires UniqueInterfaceIds(db.interfaces) && row in db.interfaces
    requires AdoptInterface(db, row.router, row, target, at).Ok?
    ensures forall r :: r in AdoptInterface(db, row.router, row, target, at).value.interfaces ==>
      (r in db.interfaces && r.id != row.id)
      || (r.router == target && r.key == row.key && FindInterface(db.interfaces, target, row.key).None?)
  {
    if FindInterface(db.interfaces, target, row.key).Some? {
      DropInterfacesKeeps(db.interfaces, (r: InterfaceRow) => r.id == row.id);
    } else {
      var moved := ReassignKeeps(db.interfaces, row, target, at);
    }
  }

  lemma AdoptInterfaceKeepsKeys(db: Database, row: InterfaceRow, target: int, at: i64)
    requires UniqueInterfaceIds(db.interfaces) && UniqueKeys(db.interfaces) && row in db.interfaces
    requires AdoptInterface(db, row.router, row, target, at).Ok?
    ensures UniqueKeys(AdoptInterface(db, row.router, row, target, at).value.interfaces)
  {
    AdoptedInterfaces(db, row, target, at);
    FindInterfaceFinds(db.interfaces, target, row.key);
    if FindInterface(db.interfaces, target, row.key).None? {
      var moved := ReassignKeeps(db.interfaces, row, target, at);
    }
  }

  lemma {:induction false} AdoptInterfacesKeepKeys(
    db: Database, router: int, rows: seq<InterfaceRow>, target: int, at: i64, legacy: set<int>)
    requires OwnershipHolds(db) && router in legacy && target !in legacy && RouterExists(db, target)
    requires UniqueInterfaceIds(rows) && forall r :: r in rows <==> r in db.interfaces && r.router == router
    requires AdoptInterfaces(db, router, rows, target, at).Ok? && UniqueKeys(db.interfaces)
    ensures UniqueKeys(AdoptInterfaces(db, router, rows, target, at).value.interfaces)
    decreases |rows|
  {
    if rows != [] {
      var row, rest := rows[0], rows[1..];
      assert row in rows;
      AdoptInterfaceCarries(db, row, target, at, legacy);
      AdoptInterfaceKeepsKeys(db, row, target, at);
      var next := AdoptInterface(db, router, row, target, at).value;
      RemainingInterfaces(db.interfaces, next.interfaces, rows, router, target);
      AdoptInterfacesKeepKeys(next, router, rest, target, at, legacy);
    }
  }

  lemma AdoptRouterKeepsKeys(db: Database, id: int, target: int, at: i64, legacy: set<int>)
    requires OwnershipHolds(db) && id in legacy && target !in legacy && RouterExists(db, target)
    requires AdoptRouter(db, id, target, at).Ok? && UniqueKeys(db.interfaces)
    ensures UniqueKeys(AdoptRouter(db, id, target, at).value.interfaces)
  {
    InterfacesOfMeaning(db.interfaces, id);
    AdoptInterfacesKeepKeys(db, id, InterfacesOf(db.interfaces, id), target, at, legacy);
    var moved := AdoptInterfaces(db, id, InterfacesOf(db.interfaces, id), target, at).value;
    DropInterfacesKeeps(moved.interfaces, (r: InterfaceRow) => r.router == id);
  }

  lemma {:induction false} AdoptRoutersKeepKeys(db: Database, ids: seq<int>, target: int, at: i64, legacy: set<int>)
    requires OwnershipHolds(db) && target !in legacy && RouterExists(db, target)
    requires forall id :: id in ids ==> id in legacy
    requires AdoptRouters(db, ids, target, at).Ok? && UniqueKeys(db.interfaces)
    ensures UniqueKeys(AdoptRouters(db, ids, target, at).value.interfaces)
    decreases |ids|
  {
    if ids != [] {
      assert ids[0] in ids;
      AdoptRouterCarries(db, ids[0], target, at, legacy);
      AdoptRouterKeepsKeys(db, ids[0], target, at, legacy);
      AdoptRoutersKeepKeys(AdoptRouter(db, ids[0], target, at).value, ids[1..], target, at, legacy);
    }
  }

  // ----- which owners meet

  /** Two interfaces of the imported routers and the target that carry the same key become one. */
  ghost predicate Merging(db: Database, legacy: set<int>, target: int, o: Owner, p: Owner) {
    && o != p && o.router in legacy + {target} && p.router in legacy + {target}
    && exists key :: KeyIs(db, o.iface, key) && KeyIs(db, p.iface, key)
  }

  /** What adoption did to an owner that some row has. */
  ghost predicate Rehomed(db: Database, db': Database, legacy: set<int>, target: int, o: Owner, o': Owner) {
    && Owned(db, o) && Owned(db', o') && OwnerCarried(db, db', legacy, target, o, o')
    && o'.router == NewRouter(o.router, legacy, target) && (o.router !in legacy ==> o' == o)
  }

  lemma KeyOfOwned(db: Database, o: Owner) returns (row: InterfaceRow)
    requires Owned(db, o)
    ensures row in db.interfaces && row.id == o.iface && row.router == o.router && KeyIs(db, o.iface, row.key)
  {
    row :| row in db.interfaces && row.id == o.iface && row.router == o.router;
  }

  lemma OneKey(db: Database, iface: int, row: InterfaceRow, key: string)
    requires UniqueInterfaceIds(db.interfaces) && row in db.interfaces && row.id == iface && KeyIs(db, iface, key)
    ensures row.key == key
  {
    KeyOfRow(db, row, key);
  }

  lemma OwnersMeetOnlyMerging(db: Database, db': Database, legacy: set<int>, target: int, o: Owner, p: Owner, q: Owner)
    requires UniqueInterfaceIds(db'.interfaces) && o != p
    requires Rehomed(db, db', legacy, target, o, q) && Rehomed(db, db', legacy, target, p, q)
    ensures Merging(db, legacy, target, o, p)
  {
    var a := KeyOfOwned(db, o);
    var b := KeyOfOwned(db, p);
    var c := KeyOfOwned(db', q);
    OneKey(db', q.iface, c, a.key);
    OneKey(db', q.iface, c, b.key);
  }

  lemma MergingOwnersMeet(
    db: Database, db': Database, legacy: set<int>, target: int, o: Owner, p: Owner, o': Owner, p': Owner)
    requires UniqueInterfaceIds(db'.interfaces) && UniqueKeys(db'.interfaces) && target !in legacy
    requires Rehomed(db, db', legacy, target, o, o') && Rehomed(db, db', legacy, target, p, p')
    requires Merging(db, legacy, target, o, p)
    ensures o' == p'
  {
    var key :| KeyIs(db, o.iface, key) && KeyIs(db, p.iface, key);
    var a := KeyOfOwned(db', o');
    var b := KeyOfOwned(db', p');
    OneKey(db', o'.iface, a, key);
    OneKey(db', p'.iface, b, key);
  }

  // ----- soundness under a change of owners

  /** Which owners become one. */
  type Meeting = (Owner, Owner) -> bool

  predicate Meet(meeting: Meeting, o: Owner, p: Owner) { o == p || meeting(o, p) }

  /** The same rows in the same places, with owners equal exactly where they were or meet. */
  ghost predicate Relabelled(a: seq<Sample>, a': seq<Sample>, b: seq<Rollup>, b': seq<Rollup>, meeting: Meeting) {
    && |a'| == |a| && |b'| == |b|
    && (forall i :: 0 <= i < |a| ==> a'[i] == a[i].(owner := a'[i].owner))
    && (forall i :: 0 <= i < |b| ==> b'[i] == b[i].(owner := b'[i].owner))
    && (forall i, j :: 0 <= i < |a| && 0 <= j < |a| ==>
      (a'[i].owner == a'[j].owner <==> Meet(meeting, a[i].owner, a[j].owner)))
    && (forall i, j :: 0 <= i < |b| && 0 <= j < |b| ==>
      (b'[i].owner == b'[j].owner <==> Meet(meeting, b[i].owner, b[j].owner)))
    && forall i, j :: 0 <= i < |a| && 0 <= j < |b| ==>
      (a'[i].owner == b'[j].owner <==> Meet(meeting, a[i].owner, b[j].owner))
  }

  ghost predicate MeetingSamplesClear(a: seq<Sample>, meeting: Meeting) {
    forall i, j :: 0 <= i < |a| && 0 <= j < |a| && a[i].id != a[j].id && meeting(a[i].owner, a[j].owner) ==>
      IntervalsApart(a[i].start, a[i].end, a[j].start, a[j].end)
  }

  ghost predicate MeetingRollupsClear(b: seq<Rollup>, meeting: Meeting) {
    forall i, j :: 0 <= i < j < |b| && meeting(b[i].owner, b[j].owner) ==>
      IntervalsApart(b[i].start, b[i].end, b[j].start, b[j].end)
  }

  ghost predicate MeetingRowsClear(a: seq<Sample>, b: seq<Rollup>, meeting: Meeting, size: i64)
    requires size > 0
  {
    forall i, j :: 0 <= i < |a| && 0 <= j < |b| && meeting(a[i].owner, b[j].owner) ==> SampleClearOf(a[i], b[j], size)
  }

  ghost predicate SamplesRelabelled(a: seq<Sample>, a': seq<Sample>, meeting: Meeting) {
    && |a'| == |a|
    && (forall i :: 0 <= i < |a| ==> a'[i] == a[i].(owner := a'[i].owner))
    && forall i, j :: 0 <= i < |a| && 0 <= j < |a| ==>
      (a'[i].owner == a'[j].owner <==> Meet(meeting, a[i].owner, a[j].owner))
  }

  lemma RelabelledStaySingle(a: seq<Sample>, a': seq<Sample>, meeting: Meeting)
    requires SamplesRelabelled(a, a', meeting) && UniqueSampleIds(a) && forall s :: s in a ==> SampleSound(s)
    ensures UniqueSampleIds(a') && forall s :: s in a' ==> SampleSound(s)
  {
    assert forall i :: 0 <= i < |a| ==> a'[i].id == a[i].id;
    forall s | s in a' ensures SampleSound(s) {
      var i :| 0 <= i < |a'| && a'[i] == s;
      assert a[i] in a && SampleSound(a[i]);
    }
  }

  lemma ClearStayApart(a: seq<Sample>, a': seq<Sample>, meeting: Meeting)
    requires SamplesRelabelled(a, a', meeting) && SamplesApart(a) && MeetingSamplesClear(a, meeting)
    ensures SamplesApart(a')
  {
    forall x, y | x in a' && y in a' && x.id != y.id && x.owner == y.owner
      ensures IntervalsApart(x.start, x.end, y.start, y.end)
    {
      var i :| 0 <= i < |a'| && a'[i] == x;
      var j :| 0 <= j < |a'| && a'[j] == y;
      assert a[i] in a && a[j] in a && Meet(meeting, a[i].owner, a[j].owner);
    }
  }

  lemma ApartWereClear(a: seq<Sample>, a': seq<Sample>, meeting: Meeting)
    requires SamplesRelabelled(a, a', meeting) && SamplesApart(a')
    ensures MeetingSamplesClear(a, meeting)
  {
    forall i, j | 0 <= i < |a| && 0 <= j < |a| && a[i].id != a[j].id && meeting(a[i].owner, a[j].owner)
      ensures IntervalsApart(a[i].start, a[i].end, a[j].start, a[j].end)
    {
      assert Meet(meeting, a[i].owner, a[j].owner) && a'[i] in a' && a'[j] in a';
      assert a'[i].id == a[i].id && a'[j].id == a[j].id;
    }
  }

  lemma RelabelledSamples(a: seq<Sample>, a': seq<Sample>, b: seq<Rollup>, b': seq<Rollup>, meeting: Meeting)
    requires Relabelled(a, a', b, b', meeting) && SamplesSound(a)
    ensures SamplesSound(a') <==> MeetingSamplesClear(a, meeting)
  {
    assert SamplesRelabelled(a, a', meeting);
    RelabelledStaySingle(a, a', meeting);
    if MeetingSamplesClear(a, meeting) {
      ClearStayApart(a, a', meeting);
    }
    if SamplesApart(a') {
      ApartWereClear(a, a', meeting);
    }
  }

  lemma RelabelledRollups(a: seq<Sample>, a': seq<Sample>, b: seq<Rollup>, b': seq<Rollup>, meeting: Meeting, size: i64)
    requires size > 0 && Relabelled(a, a', b, b', meeting) && RollupsSound(b, size)
    ensures RollupsSound(b', size) <==> MeetingRollupsClear(b, meeting)
  {
    forall r | r in b' ensures RollupSound(r, size) {
      var i :| 0 <= i < |b'| && b'[i] == r;
      assert b[i] in b && RollupSound(b[i], size);
    }
    forall i, j | 0 <= i < j < |b|
      ensures b'[i].owner == b'[j].owner <==> b[i].owner == b[j].owner || meeting(b[i].owner, b[j].owner)
    {
      assert Meet(meeting, b[i].owner, b[j].owner) <==> b[i].owner == b[j].owner || meeting(b[i].owner, b[j].owner);
    }
  }

  ghost predicate CrossRelabelled(a: seq<Sample>, a': seq<Sample>, b: seq<Rollup>, b': seq<Rollup>, meeting: Meeting) {
    && |a'| == |a| && |b'| == |b|
    && (forall i :: 0 <= i < |a| ==> a'[i] == a[i].(owner := a'[i].owner))
    && (forall i :: 0 <= i < |b| ==> b'[i] == b[i].(owner := b'[i].owner))
    && forall i, j :: 0 <= i < |a| && 0 <= j < |b| ==>
      (a'[i].owner == b'[j].owner <==> Meet(meeting, a[i].owner, b[j].owner))
  }

  lemma ClearRowsStayClear(a: seq<Sample>, a': seq<Sample>, b: seq<Rollup>, b': seq<Rollup>, meeting: Meeting,
      size: i64)
    requires size > 0 && CrossRelabelled(a, a', b, b', meeting)
    requires AllClear(a, b, size) && MeetingRowsClear(a, b, meeting, size)
    ensures AllClear(a', b', size)
  {
    forall s, r | s in a' && r in b' && s.owner == r.owner ensures SampleClearOf(s, r, size) {
      var i :| 0 <= i < |a'| && a'[i] == s;
      var j :| 0 <= j < |b'| && b'[j] == r;
      assert a[i] in a && b[j] in b && Meet(meeting, a[i].owner, b[j].owner);
    }
  }

  lemma RelabelledRows(a: seq<Sample>, a': seq<Sample>, b: seq<Rollup>, b': seq<Rollup>, meeting: Meeting, size: i64)
    requires size > 0 && Relabelled(a, a', b, b', meeting) && AllClear(a, b, size)
    ensures AllClear(a', b', size) <==> MeetingRowsClear(a, b, meeting, size)
  {
    if MeetingRowsClear(a, b, meeting, size) {
      ClearRowsStayClear(a, a', b, b', meeting, size);
    }
    if AllClear(a', b', size) {
      forall i, j | 0 <= i < |a| && 0 <= j < |b| && meeting(a[i].owner, b[j].owner)
        ensures SampleClearOf(a[i], b[j], size)
      {
        assert Meet(meeting, a[i].owner, b[j].owner);
        assert a'[i] in a' && b'[j] in b' && a'[i].owner == b'[j].owner;
      }
    }
  }

  // ----- the adopted history

  /** The history rows as a store. */
  function HistoryOf(db: Database): Tables {
    Tables({}, map[], db.samples, db.rollups, db.gaps, db.checkpoints, 0, 0, 0)
  }

  /** Rows of interfaces that become one are clear of each other. */
  ghost predicate MergedRowsClear(db: Database, legacy: set<int>, target: int, size: i64)
    requires size > 0
  {
    && (forall i, j :: 0 <= i < |db.samples| && 0 <= j < |db.samples| ==>
          Merging(db, legacy, target, db.samples[i].owner, db.samples[j].owner) ==>
          IntervalsApart(db.samples[i].start, db.samples[i].end, db.samples[j].start, db.samples[j].end))
    && (forall i, j :: 0 <= i < |db.rollups| && 0 <= j < |db.rollups| ==>
          Merging(db, legacy, target, db.rollups[i].owner, db.rollups[j].owner) ==>
          IntervalsApart(db.rollups[i].start, db.rollups[i].end, db.rollups[j].start, db.rollups[j].end))
    && forall i, j :: 0 <= i < |db.samples| && 0 <= j < |db.rollups| ==>
         Merging(db, legacy, target, db.samples[i].owner, db.rollups[j].owner) ==>
         SampleClearOf(db.samples[i], db.rollups[j], size)
  }

  ghost predicate RowsRehomed(db: Database, db': Database, legacy: set<int>, target: int) {
    && |db'.samples| == |db.samples| && |db'.rollups| == |db.rollups|
    && (forall i :: 0 <= i < |db.samples| ==>
          && db'.samples[i] == db.samples[i].(owner := db'.samples[i].owner)
          && Rehomed(db, db', legacy, target, db.samples[i].owner, db'.samples[i].owner))
    && forall i :: 0 <= i < |db.rollups| ==>
         && db'.rollups[i] == db.rollups[i].(owner := db'.rollups[i].owner)
         && Rehomed(db, db', legacy, target, db.rollups[i].owner, db'.rollups[i].owner)
  }

  ghost predicate OneHome(db: Database) {
    UniqueInterfaceIds(db.interfaces) && UniqueKeys(db.interfaces)
  }

  lemma RehomedOwnersMeet(
    db: Database, db': Database, legacy: set<int>, target: int, o: Owner, p: Owner, o': Owner, p': Owner)
    requires OneHome(db') && target !in legacy
    requires Rehomed(db, db', legacy, target, o, o') && Rehomed(db, db', legacy, target, p, p')
    ensures o' == p' <==> o == p || Merging(db, legacy, target, o, p)
  {
    if o == p {
      SameOwnerSameHome(db, db', legacy, target, o, o', p');
    } else {
      if o' == p' {
        OwnersMeetOnlyMerging(db, db', legacy, target, o, p, o');
      }
      if Merging(db, legacy, target, o, p) {
        MergingOwnersMeet(db, db', legacy, target, o, p, o', p');
      }
    }
  }

  lemma SameOwnerSameHome(db: Database, db': Database, legacy: set<int>, target: int, o: Owner, q: Owner, r: Owner)
    requires OneHome(db') && target !in legacy
    requires Rehomed(db, db', legacy, target, o, q) && Rehomed(db, db', legacy, target, o, r)
    ensures q == r
  {
    var a := KeyOfOwned(db, o);
    var b := KeyOfOwned(db', q);
    var c := KeyOfOwned(db', r);
    OneKey(db', q.iface, b, a.key);
    OneKey(db', r.iface, c, a.key);
  }

  lemma RehomedIsRelabelled(db: Database, db': Database, legacy: set<int>, target: int, meeting: Meeting)
    requires OneHome(db') && target !in legacy && RowsRehomed(db, db', legacy, target)
    requires forall o, p :: meeting(o, p) <==> Merging(db, legacy, target, o, p)
    ensures Relabelled(db.samples, db'.samples, db.rollups, db'.rollups, meeting)
  {
    forall i, j | 0 <= i < |db.samples| && 0 <= j < |db.samples|
      ensures db'.samples[i].owner == db'.samples[j].owner <==> Meet(meeting, db.samples[i].owner, db.samples[j].owner)
    {
      RehomedOwnersMeet(db, db', legacy, target, db.samples[i].owner, db.samples[j].owner,
                        db'.samples[i].owner, db'.samples[j].owner);
    }
    forall i, j | 0 <= i < |db.rollups| && 0 <= j < |db.rollups|
      ensures db'.rollups[i].owner == db'.rollups[j].owner <==> Meet(meeting, db.rollups[i].owner, db.rollups[j].owner)
    {
      RehomedOwnersMeet(db, db', legacy, target, db.rollups[i].owner, db.rollups[j].owner,
                        db'.rollups[i].owner, db'.rollups[j].owner);
    }
    forall i, j | 0 <= i < |db.samples| && 0 <= j < |db.rollups|
      ensures db'.samples[i].owner == db'.rollups[j].owner <==> Meet(meeting, db.samples[i].owner, db.rollups[j].owner)
    {
      RehomedOwnersMeet(db, db', legacy, target, db.samples[i].owner, db.rollups[j].owner,
                        db'.samples[i].owner, db'.rollups[j].owner);
    }
  }

  lemma AdoptionRehomes(db: Database, target: int, at: i64)
    requires OwnershipHolds(db) && UniqueKeys(db.interfaces) && RouterExists(db, target)
    requires AdoptLegacyHistory(db, target, at).Ok?
    ensures var db' := AdoptLegacyHistory(db, target, at).value;
      OneHome(db') && RowsRehomed(db, db', LegacySet(db, target), target) && target !in LegacySet(db, target)
  {
    var legacy := LegacySet(db, target);
    var db' := AdoptLegacyHistory(db, target, at).value;
    TargetIsNotLegacy(db.routers, target);
    AdoptionMovesEverything(db, target, at);
    AdoptRoutersKeepKeys(db, LegacyIds(db.routers, target), target, at, legacy);
    forall i | 0 <= i < |db.samples|
      ensures Rehomed(db, db', legacy, target, db.samples[i].owner, db'.samples[i].owner)
    {
      assert db.samples[i] in db.samples && db'.samples[i] in db'.samples;
      assert SampleCarried(db, db', legacy, target, db.samples[i], db'.samples[i]);
    }
    forall i | 0 <= i < |db.rollups|
      ensures Rehomed(db, db', legacy, target, db.rollups[i].owner, db'.rollups[i].owner)
    {
      assert db.rollups[i] in db.rollups && db'.rollups[i] in db'.rollups;
      assert RollupCarried(db, db', legacy, target, db.rollups[i], db'.rollups[i]);
    }
  }

  function LegacySet(db: Database, target: int): set<int> {
    set id | id in LegacyIds(db.routers, target)
  }

  lemma MergedRowsMeet(db: Database, legacy: set<int>, target: int, meeting: Meeting, size: i64)
    requires size > 0 && UniqueSampleIds(db.samples)
    requires forall o, p :: meeting(o, p) <==> Merging(db, legacy, target, o, p)
    ensures MergedRowsClear(db, legacy, target, size)
       <==> MeetingSamplesClear(db.samples, meeting) && MeetingRollupsClear(db.rollups, meeting)
            && MeetingRowsClear(db.samples, db.rollups, meeting, size)
  {
    if MeetingSamplesClear(db.samples, meeting) && MeetingRollupsClear(db.rollups, meeting)
       && MeetingRowsClear(db.samples, db.rollups, meeting, size) {
      forall i, j | 0 <= i < |db.samples| && 0 <= j < |db.samples|
                    && Merging(db, legacy, target, db.samples[i].owner, db.samples[j].owner)
        ensures IntervalsApart(db.samples[i].start, db.samples[i].end, db.samples[j].start, db.samples[j].end)
      {
        assert i != j && meeting(db.samples[i].owner, db.samples[j].owner);
      }
      forall i, j | 0 <= i < |db.rollups| && 0 <= j < |db.rollups|
                    && Merging(db, legacy, target, db.rollups[i].owner, db.rollups[j].owner)
        ensures IntervalsApart(db.rollups[i].start, db.rollups[i].end, db.rollups[j].start, db.rollups[j].end)
      {
        assert i != j && meeting(db.rollups[i].owner, db.rollups[j].owner)
          && meeting(db.rollups[j].owner, db.rollups[i].owner);
      }
    }
  }

  /**
   * Adoption of a sound history stays sound exactly when the rows of interfaces that it merges
   * are clear of each other.
   */
  lemma AdoptionStaysSoundExactly(db: Database, target: int, at: i64, size: i64)
    requires OwnershipHolds(db) && UniqueKeys(db.interfaces) && RouterExists(db, target)
    requires AdoptLegacyHistory(db, target, at).Ok? && StoreSound(HistoryOf(db), size)
    ensures StoreSound(HistoryOf(AdoptLegacyHistory(db, target, at).value), size)
       <==> MergedRowsClear(db, LegacySet(db, target), target, size)
  {
    var legacy := LegacySet(db, target);
    var db' := AdoptLegacyHistory(db, target, at).value;
    AdoptionRehomes(db, target, at);
    var meeting: Meeting := (o, p) => Merging(db, legacy, target, o, p);
    RehomedIsRelabelled(db, db', legacy, target, meeting);
    RelabelledSamples(db.samples, db'.samples, db.rollups, db'.rollups, meeting);
    RelabelledRollups(db.samples, db'.samples, db.rollups, db'.rollups, meeting, size);
    RelabelledRows(db.samples, db'.samples, db.rollups, db'.rollups, meeting, size);
    MergedRowsMeet(db, legacy, target, meeting, size);
  }

  /** No two interfaces of these routers carry the same key. */
  ghost predicate KeysDiffer(db: Database, routers: set<int>) {
    forall a, b :: a in db.interfaces && b in db.interfaces ==>
      a.router in routers && b.router in routers && a.key == b.key ==> a.id == b.id
  }

  /** Without two interfaces of one key among the imported routers and the target, adoption always stays sound. */
  lemma AdoptionWithoutMergesStaysSound(db: Database, target: int, at: i64, size: i64)
    requires OwnershipHolds(db) && UniqueKeys(db.interfaces) && RouterExists(db, target)
    requires AdoptLegacyHistory(db, target, at).Ok? && StoreSound(HistoryOf(db), size)
    requires KeysDiffer(db, LegacySet(db, target) + {target})
    ensures StoreSound(HistoryOf(AdoptLegacyHistory(db, target, at).value), size)
  {
    var legacy := LegacySet(db, target);
    forall o, p | Owned(db, o) && Owned(db, p) ensures !Merging(db, legacy, target, o, p) {
      NothingMerges(db, legacy, target, o, p);
    }
    RowsAreOwned(db);
    assert MergedRowsClear(db, legacy, target, size);
    AdoptionStaysSoundExactly(db, target, at, size);
  }

  lemma RowsAreOwned(db: Database)
    requires OwnershipHolds(db)
    ensures forall i :: 0 <= i < |db.samples| ==> Owned(db, db.samples[i].owner)
    ensures forall i :: 0 <= i < |db.rollups| ==> Owned(db, db.rollups[i].owner)
  {
    forall i | 0 <= i < |db.samples| ensures Owned(db, db.samples[i].owner) { assert db.samples[i] in db.samples; }
    forall i | 0 <= i < |db.rollups| ensures Owned(db, db.rollups[i].owner) { assert db.rollups[i] in db.rollups; }
  }

  lemma NothingMerges(db: Database, legacy: set<int>, target: int, o: Owner, p: Owner)
    requires UniqueInterfaceIds(db.interfaces) && Owned(db, o) && Owned(db, p)
    requires KeysDiffer(db, legacy + {target})
    ensures !Merging(db, legacy, target, o, p)
  {
    if Merging(db, legacy, target, o, p) {
      var key :| KeyIs(db, o.iface, key) && KeyIs(db, p.iface, key);
      var a := KeyOfOwned(db, o);
      var b := KeyOfOwned(db, p);
      OneKey(db, o.iface, a, key);
      OneKey(db, p.iface, b, key);
      OneRouterPerInterface(db, a, p);
    }
  }
}
