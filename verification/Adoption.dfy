/** Adoption of imported history by the first router that is identified. */
module Adoption {
  import opened Int64
  import opened Outcomes
  import opened Contributions
  import opened TrafficTables

  const LEGACY_TARGET: string := "legacy://unidentified"

  datatype RouterRow = RouterRow(id: int, fallbackTarget: string, firstSeen: i64, lastSeen: i64)

  datatype InterfaceRow = InterfaceRow(id: int, router: int, key: string, lastSeen: i64)

  /** The tables adoption touches, rows in id order. */
  datatype Database = Database(
    routers: seq<RouterRow>, interfaces: seq<InterfaceRow>,
    samples: seq<Sample>, rollups: seq<Rollup>, gaps: seq<Gap>, checkpoints: map<Owner, Checkpoint>)

  // ----- lookups

  function LegacyIds(routers: seq<RouterRow>, target: int): seq<int> {
    if routers == [] then []
    else if routers[0].fallbackTarget == LEGACY_TARGET && routers[0].id != target then
      [routers[0].id] + LegacyIds(routers[1..], target)
    else LegacyIds(routers[1..], target)
  }

  function InterfacesOf(interfaces: seq<InterfaceRow>, router: int): seq<InterfaceRow> {
    if interfaces == [] then []
    else if interfaces[0].router == router then [interfaces[0]] + InterfacesOf(interfaces[1..], router)
    else InterfacesOf(interfaces[1..], router)
  }

  function FindInterface(interfaces: seq<InterfaceRow>, router: int, key: string): Option<int> {
    if interfaces == [] then None
    else if interfaces[0].router == router && interfaces[0].key == key then Some(interfaces[0].id)
    else FindInterface(interfaces[1..], router, key)
  }

  // ----- updates

  function MoveSamples(rows: seq<Sample>, from: Owner, to: Owner): seq<Sample> {
    seq(|rows|, i requires 0 <= i < |rows| => if rows[i].owner == from then rows[i].(owner := to) else rows[i])
  }

  function MoveRollups(rows: seq<Rollup>, from: Owner, to: Owner): seq<Rollup> {
    seq(|rows|, i requires 0 <= i < |rows| => if rows[i].owner == from then rows[i].(owner := to) else rows[i])
  }

  function MoveGaps(rows: seq<Gap>, from: Owner, to: Owner): seq<Gap> {
    seq(|rows|, i requires 0 <= i < |rows| =>
      if rows[i].router == from.router && rows[i].iface == Some(from.iface)
      then rows[i].(router := to.router, iface := Some(to.iface)) else rows[i])
  }

  function MoveRouterGaps(rows: seq<Gap>, from: int, to: int): seq<Gap> {
    seq(|rows|, i requires 0 <= i < |rows| =>
      if rows[i].router == from && rows[i].iface.None? then rows[i].(router := to) else rows[i])
  }

  /** A moved row would share its unique key with a row already there. */
  predicate MoveConflicts(db: Database, from: Owner, to: Owner) {
    || (exists x, y :: x in db.samples && y in db.samples && x.owner == from && y.owner == to
          && x.end == y.end && x.source == y.source)
    || (exists x, y :: x in db.rollups && y in db.rollups && x.owner == from && y.owner == to
          && x.size == y.size && x.start == y.start && x.source == y.source)
    || (exists x, y :: x in db.gaps && y in db.gaps && x.router == from.router && x.iface == Some(from.iface)
          && y.router == to.router && y.iface == Some(to.iface)
          && x.start == y.start && x.end == y.end && x.reason == y.reason)
  }

  function MoveRows(db: Database, from: Owner, to: Owner): Database {
    db.(samples := MoveSamples(db.samples, from, to), rollups := MoveRollups(db.rollups, from, to),
        gaps := MoveGaps(db.gaps, from, to))
  }

  // ----- deletes, with everything that refers to the deleted row

  function DropSamples(rows: seq<Sample>, p: Owner -> bool): seq<Sample> {
    if rows == [] then []
    else if p(rows[0].owner) then DropSamples(rows[1..], p)
    else [rows[0]] + DropSamples(rows[1..], p)
  }

  function DropRollups(rows: seq<Rollup>, p: Owner -> bool): seq<Rollup> {
    if rows == [] then []
    else if p(rows[0].owner) then DropRollups(rows[1..], p)
    else [rows[0]] + DropRollups(rows[1..], p)
  }

  function DropGaps(rows: seq<Gap>, p: Gap -> bool): seq<Gap> {
    if rows == [] then [] else if p(rows[0]) then DropGaps(rows[1..], p) else [rows[0]] + DropGaps(rows[1..], p)
  }

  function DropInterfaces(rows: seq<InterfaceRow>, p: InterfaceRow -> bool): seq<InterfaceRow> {
    if rows == [] then []
    else if p(rows[0]) then DropInterfaces(rows[1..], p)
    else [rows[0]] + DropInterfaces(rows[1..], p)
  }

  function DropRouters(rows: seq<RouterRow>, id: int): seq<RouterRow> {
    if rows == [] then []
    else if rows[0].id == id then DropRouters(rows[1..], id)
    else [rows[0]] + DropRouters(rows[1..], id)
  }

  /** Deletes an interface; rows of that interface go with it. */
  function DeleteInterface(db: Database, id: int): Database {
    db.(interfaces := DropInterfaces(db.interfaces, (r: InterfaceRow) => r.id == id),
        samples := DropSamples(db.samples, (o: Owner) => o.iface == id),
        rollups := DropRollups(db.rollups, (o: Owner) => o.iface == id),
        gaps := DropGaps(db.gaps, (g: Gap) => g.iface == Some(id)),
        checkpoints := map o | o in db.checkpoints && o.iface != id :: db.checkpoints[o])
  }

  /** Deletes a router; its interfaces and all rows of either go with it. */
  function DeleteRouter(db: Database, id: int): Database {
    var orphans := set r | r in db.interfaces && r.router == id :: r.id;
    db.(routers := DropRouters(db.routers, id),
        interfaces := DropInterfaces(db.interfaces, (r: InterfaceRow) => r.router == id),
        samples := DropSamples(db.samples, (o: Owner) => o.router == id || o.iface in orphans),
        rollups := DropRollups(db.rollups, (o: Owner) => o.router == id || o.iface in orphans),
        gaps := DropGaps(db.gaps, (g: Gap) => g.router == id || (g.iface.Some? && g.iface.value in orphans)),
        checkpoints := map o | o in db.checkpoints && o.router != id && o.iface !in orphans :: db.checkpoints[o])
  }

  // ----- adoption

  function ReassignInterface(rows: seq<InterfaceRow>, id: int, router: int, at: i64): seq<InterfaceRow> {
    seq(|rows|, i requires 0 <= i < |rows| =>
      if rows[i].id == id then rows[i].(router := router, lastSeen := Max(rows[i].lastSeen, at)) else rows[i])
  }

  /** One interface: merged into the target's interface of the same key, or moved over. */
  function AdoptInterface(db: Database, legacy: int, row: InterfaceRow, target: int, at: i64): Result<Database> {
    var from := Owner(legacy, row.id);
    var existing := FindInterface(db.interfaces, target, row.key);
    if existing.Some? then
      var to := Owner(target, existing.value);
      if MoveConflicts(db, from, to) then Err(Storage)
      else
        var moved := MoveRows(db, from, to);
        Ok(DeleteInterface(moved.(checkpoints := moved.checkpoints - {from}), row.id))
    else
      var to := Owner(target, row.id);
      if MoveConflicts(db, from, to) || (from in db.checkpoints && to in db.checkpoints) then Err(Storage)
      else
        var moved := MoveRows(db.(interfaces := ReassignInterface(db.interfaces, row.id, target, at)), from, to);
        Ok(moved.(checkpoints :=
          if from in db.checkpoints then (db.checkpoints - {from})[to := db.checkpoints[from]] else db.checkpoints))
  }

  function AdoptInterfaces(db: Database, legacy: int, rows: seq<InterfaceRow>, target: int, at: i64): Result<Database>
    decreases |rows|
  {
    if rows == [] then Ok(db)
    else
      var next :- AdoptInterface(db, legacy, rows[0], target, at);
      AdoptInterfaces(next, legacy, rows[1..], target, at)
  }

  function FirstSeenOf(rows: seq<RouterRow>, id: int): Option<i64> {
    if rows == [] then None else if rows[0].id == id then Some(rows[0].firstSeen) else FirstSeenOf(rows[1..], id)
  }

  function RefreshRouter(rows: seq<RouterRow>, target: int, legacyFirst: Option<i64>, at: i64): seq<RouterRow> {
    seq(|rows|, i requires 0 <= i < |rows| =>
      if rows[i].id == target then
        rows[i].(firstSeen :=
                   if legacyFirst.Some? then Min(rows[i].firstSeen, legacyFirst.value) else rows[i].firstSeen,
                 lastSeen := Max(rows[i].lastSeen, at))
      else rows[i])
  }

  /** One imported router: its interfaces, its router-wide gaps, its times, then its deletion. */
  function AdoptRouter(db: Database, legacy: int, target: int, at: i64): Result<Database> {
    var moved :- AdoptInterfaces(db, legacy, InterfacesOf(db.interfaces, legacy), target, at);
    var gaps := MoveRouterGaps(moved.gaps, legacy, target);
    var routers := RefreshRouter(moved.routers, target, FirstSeenOf(moved.routers, legacy), at);
    Ok(DeleteRouter(moved.(gaps := gaps, routers := routers), legacy))
  }

  function AdoptRouters(db: Database, ids: seq<int>, target: int, at: i64): Result<Database>
    decreases |ids|
  {
    if ids == [] then Ok(db)
    else
      var next :- AdoptRouter(db, ids[0], target, at);
      AdoptRouters(next, ids[1..], target, at)
  }

  function AdoptLegacyHistory(db: Database, target: int, at: i64): Result<Database> {
    AdoptRouters(db, LegacyIds(db.routers, target), target, at)
  }

  /** The nested loops over imported routers and their interfaces. */
  method AdoptLegacy(db: Database, target: int, at: i64) returns (r: Result<Database>)
    ensures r == AdoptLegacyHistory(db, target, at)
  {
    var current := db;
    var ids := LegacyIds(db.routers, target);
    for i := 0 to |ids|
      invariant AdoptLegacyHistory(db, target, at) == AdoptRouters(current, ids[i..], target, at)
    {
      assert ids[i..][0] == ids[i] && ids[i..][1..] == ids[i + 1..];
      var rows := InterfacesOf(current.interfaces, ids[i]);
      var moved := current;
      for j := 0 to |rows|
        invariant AdoptInterfaces(current, ids[i], rows, target, at)
          == AdoptInterfaces(moved, ids[i], rows[j..], target, at)
      {
        assert rows[j..][0] == rows[j] && rows[j..][1..] == rows[j + 1..];
        var step := AdoptInterface(moved, ids[i], rows[j], target, at);
        if step.Err? {
          return Err(step.error);
        }
        moved := step.value;
      }
      moved := moved.(gaps := MoveRouterGaps(moved.gaps, ids[i], target),
                      routers := RefreshRouter(moved.routers, target, FirstSeenOf(moved.routers, ids[i]), at));
      current := DeleteRouter(moved, ids[i]);
    }
    return Ok(current);
  }
}
