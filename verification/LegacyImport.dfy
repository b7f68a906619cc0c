/** Import of the two pre-v4 traffic tables into the v4 tables. */
module LegacyImport {
  import opened Int64
  import opened Outcomes
  import opened Slices
  import opened Contributions
  import opened RowStreams
  import opened TrafficTables
  import opened RollupBatch
  import opened StoreInvariant
  import opened StoreQueries

  const MINUTE_MS: i64 := 60_000
  const DEFAULT_INTERVAL_MS: i64 := 5_000
  const POINT_SOURCE: string := "legacy-traffic_points"
  const MINUTE_SOURCE: string := "legacy-traffic_1m"

  datatype Point = Point(ts: i64, downBps: real, upBps: real, wan: string)

  datatype Minute = Minute(bucket: i64, downAvg: real, upAvg: real, wan: string)

  /** The old tables; their primary keys are time and WAN name. */
  ghost predicate PrimaryKeys(points: seq<Point>, minutes: seq<Minute>) {
    && (forall i, j :: 0 <= i < j < |points| ==> points[i].ts != points[j].ts || points[i].wan != points[j].wan)
    && DistinctMinutes(minutes)
  }

  ghost predicate DistinctMinutes(minutes: seq<Minute>) {
    forall i, j :: 0 <= i < j < |minutes| ==> minutes[i].bucket != minutes[j].bucket || minutes[i].wan != minutes[j].wan
  }

  /** No time lies within a minute of the ends of the 64-bit scale. */
  predicate TimesInScale(points: seq<Point>, minutes: seq<Minute>) {
    && (forall p :: p in points ==> p.ts >= I64_MIN + MINUTE_MS)
    && forall m :: m in minutes ==> m.bucket <= I64_MAX - MINUTE_MS
  }

  // ----- interfaces

  function InterfaceKey(wan: string): string {
    if wan == "" then "__aggregate__" else "legacy:" + wan
  }

  lemma InterfaceKeyShape(wan: string)
    ensures |InterfaceKey(wan)| > 7 && InterfaceKey(wan)[0] == (if wan == "" then '_' else 'l')
    ensures wan != "" ==> InterfaceKey(wan)[7..] == wan
  {
  }

  lemma InterfaceKeyInjective(a: string, b: string)
    requires InterfaceKey(a) == InterfaceKey(b)
    ensures a == b
  {
    InterfaceKeyShape(a);
    InterfaceKeyShape(b);
  }

  /** Distinct interface keys of both tables, in order of first appearance. */
  function AddKey(keys: seq<string>, wan: string): seq<string> {
    if InterfaceKey(wan) in keys then keys else keys + [InterfaceKey(wan)]
  }

  function PointKeys(points: seq<Point>): (keys: seq<string>)
    ensures forall p :: p in points ==> InterfaceKey(p.wan) in keys
  {
    if points == [] then []
    else
      var n := |points| - 1;
      assert points == points[..n] + [points[n]];
      AddKey(PointKeys(points[..n]), points[n].wan)
  }

  function AllKeys(points: seq<Point>, minutes: seq<Minute>): (keys: seq<string>)
    ensures forall p :: p in points ==> InterfaceKey(p.wan) in keys
    ensures forall m :: m in minutes ==> InterfaceKey(m.wan) in keys
  {
    if minutes == [] then PointKeys(points)
    else
      var n := |minutes| - 1;
      assert minutes == minutes[..n] + [minutes[n]];
      AddKey(AllKeys(points, minutes[..n]), minutes[n].wan)
  }

  /** Id of the interface with a key; ids follow the order of the keys. */
  function InterfaceId(keys: seq<string>, key: string): (id: nat)
    requires key in keys
    ensures id < |keys| && keys[id] == key
  {
    if keys[0] == key then 0 else 1 + InterfaceId(keys[1..], key)
  }

  function OwnerOfWan(router: int, keys: seq<string>, wan: string): Owner
    requires InterfaceKey(wan) in keys
  {
    Owner(router, InterfaceId(keys, InterfaceKey(wan)))
  }

  lemma SameOwnerSameWan(router: int, keys: seq<string>, a: string, b: string)
    requires InterfaceKey(a) in keys && InterfaceKey(b) in keys
    ensures OwnerOfWan(router, keys, a) == OwnerOfWan(router, keys, b) <==> a == b
  {
    if OwnerOfWan(router, keys, a) == OwnerOfWan(router, keys, b) {
      InterfaceKeyInjective(a, b);
    }
  }

  // ----- row values

  /** The preceding timestamp of the same WAN. */
  function Previous(points: seq<Point>, wan: string, ts: i64): (r: Option<i64>)
    ensures r.Some? ==> r.value < ts
    ensures forall p :: p in points && p.wan == wan && p.ts < ts ==> r.Some? && p.ts <= r.value
  {
    if points == [] then None
    else
      assert points == [points[0]] + points[1..];
      var rest := Previous(points[1..], wan, ts);
      if points[0].wan == wan && points[0].ts < ts then
        Some(if rest.Some? then Max(points[0].ts, rest.value) else points[0].ts)
      else rest
  }

  /** Length given to a point: the time since the preceding one, at least 1 ms and at most a minute. */
  function MeasuredMs(points: seq<Point>, p: Point): i64 {
    var previous := Previous(points, p.wan, p.ts);
    Min(MINUTE_MS, Max(1, p.ts - (if previous.Some? then previous.value else p.ts - DEFAULT_INTERVAL_MS)))
  }

  /** Rounded, clipped below at zero and above at the largest stored integer. */
  function ToBytes(x: real): u63 {
    if x <= 0.0 then 0 else Min(I64_MAX, (x + 0.5).Floor)
  }

  function NonNegative(x: real): real { if x < 0.0 then 0.0 else x }

  function SampleOfPoint(id: nat, router: int, keys: seq<string>, points: seq<Point>, p: Point): Sample
    requires InterfaceKey(p.wan) in keys && p.ts >= I64_MIN + MINUTE_MS
  {
    var ms := MeasuredMs(points, p);
    Sample(id, OwnerOfWan(router, keys, p.wan), p.ts - ms, p.ts, ms,
           ToBytes(p.downBps * ms as real / 8000.0), ToBytes(p.upBps * ms as real / 8000.0),
           NonNegative(p.downBps), NonNegative(p.upBps), false, POINT_SOURCE)
  }

  function RollupOfMinute(id: nat, router: int, keys: seq<string>, m: Minute): Rollup
    requires InterfaceKey(m.wan) in keys && m.bucket <= I64_MAX - MINUTE_MS
  {
    Rollup(id, OwnerOfWan(router, keys, m.wan), m.bucket, m.bucket + MINUTE_MS, MINUTE_MS,
           0, 0, ToBytes(m.downAvg * 60.0 / 8.0), ToBytes(m.upAvg * 60.0 / 8.0), 0, MINUTE_MS, 1, MINUTE_SOURCE)
  }

  // ----- inserts that skip rows with a taken unique key

  function InsertSamples(rows: seq<Sample>): seq<Sample> {
    if rows == [] then []
    else
      var n := |rows| - 1;
      var earlier := InsertSamples(rows[..n]);
      if exists x :: x in earlier && x.owner == rows[n].owner && x.end == rows[n].end && x.source == rows[n].source
      then earlier else earlier + [rows[n]]
  }

  function InsertRollups(rows: seq<Rollup>): seq<Rollup> {
    if rows == [] then []
    else
      var n := |rows| - 1;
      var earlier := InsertRollups(rows[..n]);
      if exists x :: x in earlier && SameBucketRow(x, rows[n]) then earlier else earlier + [rows[n]]
  }

  function PointRows(router: int, points: seq<Point>, keys: seq<string>): seq<Sample>
    requires forall p :: p in points ==> InterfaceKey(p.wan) in keys && p.ts >= I64_MIN + MINUTE_MS
  {
    seq(|points|, i requires 0 <= i < |points| => SampleOfPoint(i, router, keys, points, points[i]))
  }

  /** An imported sample of the WAN overlaps the minute. */
  predicate MinuteCovered(samples: seq<Sample>, o: Owner, m: Minute) {
    exists s :: s in samples && s.owner == o && s.source == POINT_SOURCE
                && s.end > m.bucket && s.start < m.bucket + MINUTE_MS
  }

  function OpenMinutes(router: int, samples: seq<Sample>, minutes: seq<Minute>, keys: seq<string>): (r: seq<Minute>)
    requires forall m :: m in minutes ==> InterfaceKey(m.wan) in keys
    ensures forall m :: m in r <==> m in minutes && !MinuteCovered(samples, OwnerOfWan(router, keys, m.wan), m)
  {
    if minutes == [] then []
    else
      var n := |minutes| - 1;
      assert minutes == minutes[..n] + [minutes[n]];
      var earlier := OpenMinutes(router, samples, minutes[..n], keys);
      if MinuteCovered(samples, OwnerOfWan(router, keys, minutes[n].wan), minutes[n]) then earlier
        else earlier + [minutes[n]]
  }

  function MinuteRows(router: int, minutes: seq<Minute>, keys: seq<string>): seq<Rollup>
    requires forall m :: m in minutes ==> InterfaceKey(m.wan) in keys && m.bucket <= I64_MAX - MINUTE_MS
  {
    seq(|minutes|, i requires 0 <= i < |minutes| => RollupOfMinute(i, router, keys, minutes[i]))
  }

  datatype Imported = Imported(samples: seq<Sample>, rollups: seq<Rollup>)

  /** The import with its final count check. */
  function ImportLegacy(router: int, points: seq<Point>, minutes: seq<Minute>): Result<Imported>
    requires TimesInScale(points, minutes)
  {
    var keys := AllKeys(points, minutes);
    var samples := InsertSamples(PointRows(router, points, keys));
    var eligible := OpenMinutes(router, samples, minutes, keys);
    var rollups := InsertRollups(MinuteRows(router, eligible, keys));
    if |samples| != |points| || |rollups| != |eligible| then Err(Verification)
    else Ok(Imported(samples, rollups))
  }

  // ----- no row is skipped

  lemma {:induction false} NoSampleSkipped(rows: seq<Sample>)
    requires forall i, j :: 0 <= i < j < |rows| ==> rows[i].owner != rows[j].owner || rows[i].end != rows[j].end
    ensures InsertSamples(rows) == rows
  {
    if rows != [] {
      var n := |rows| - 1;
      NoSampleSkipped(rows[..n]);
      forall x | x in rows[..n] ensures x.owner != rows[n].owner || x.end != rows[n].end {
        var i :| 0 <= i < n && rows[..n][i] == x;
      }
      assert rows == rows[..n] + [rows[n]];
    }
  }

  lemma {:induction false} NoRollupSkipped(rows: seq<Rollup>)
    requires forall i, j :: 0 <= i < j < |rows| ==> rows[i].owner != rows[j].owner || rows[i].start != rows[j].start
    ensures InsertRollups(rows) == rows
  {
    if rows != [] {
      var n := |rows| - 1;
      NoRollupSkipped(rows[..n]);
      forall x | x in rows[..n] ensures x.owner != rows[n].owner || x.start != rows[n].start {
        var i :| 0 <= i < n && rows[..n][i] == x;
      }
      assert rows == rows[..n] + [rows[n]];
    }
  }

  lemma DistinctAfterAppend(minutes: seq<Minute>, m: Minute)
    requires DistinctMinutes(minutes) && forall x :: x in minutes ==> x.bucket != m.bucket || x.wan != m.wan
    ensures DistinctMinutes(minutes + [m])
  {
  }

  lemma {:induction false} OpenMinutesDistinct(router: int, samples: seq<Sample>, minutes: seq<Minute>,
      keys: seq<string>)
    requires forall m :: m in minutes ==> InterfaceKey(m.wan) in keys
    requires DistinctMinutes(minutes)
    ensures DistinctMinutes(OpenMinutes(router, samples, minutes, keys))
  {
    if minutes != [] {
      var n := |minutes| - 1;
      var last, rest := minutes[n], minutes[..n];
      OpenMinutesDistinct(router, samples, rest, keys);
      assert forall x :: x in rest ==> x.bucket != last.bucket || x.wan != last.wan;
      DistinctAfterAppend(OpenMinutes(router, samples, rest, keys), last);
    }
  }

  lemma PointRowsInserted(router: int, points: seq<Point>, minutes: seq<Minute>)
    requires PrimaryKeys(points, minutes) && TimesInScale(points, minutes)
    ensures InsertSamples(PointRows(router, points, AllKeys(points, minutes)))
      == PointRows(router, points, AllKeys(points, minutes))
  {
    var keys := AllKeys(points, minutes);
    var samples := PointRows(router, points, keys);
    forall i, j | 0 <= i < j < |samples|
      ensures samples[i].owner != samples[j].owner || samples[i].end != samples[j].end
    {
      SameOwnerSameWan(router, keys, points[i].wan, points[j].wan);
    }
    NoSampleSkipped(samples);
  }

  lemma MinuteRowsInserted(router: int, open: seq<Minute>, keys: seq<string>)
    requires DistinctMinutes(open)
    requires forall m :: m in open ==> InterfaceKey(m.wan) in keys && m.bucket <= I64_MAX - MINUTE_MS
    ensures InsertRollups(MinuteRows(router, open, keys)) == MinuteRows(router, open, keys)
  {
    var rollups := MinuteRows(router, open, keys);
    forall i, j | 0 <= i < j < |rollups|
      ensures rollups[i].owner != rollups[j].owner || rollups[i].start != rollups[j].start
    {
      SameOwnerSameWan(router, keys, open[i].wan, open[j].wan);
    }
    NoRollupSkipped(rollups);
  }

  /** The import always succeeds and keeps one sample per point and one rollup per open minute. */
  lemma ImportSucceeds(router: int, points: seq<Point>, minutes: seq<Minute>)
    returns (keys: seq<string>, samples: seq<Sample>, open: seq<Minute>)
    requires PrimaryKeys(points, minutes) && TimesInScale(points, minutes)
    ensures keys == AllKeys(points, minutes) && samples == PointRows(router, points, keys)
    ensures open == OpenMinutes(router, samples, minutes, keys) && DistinctMinutes(open)
    ensures ImportLegacy(router, points, minutes) == Ok(Imported(samples, MinuteRows(router, open, keys)))
  {
    keys := AllKeys(points, minutes);
    samples := PointRows(router, points, keys);
    open := OpenMinutes(router, samples, minutes, keys);
    PointRowsInserted(router, points, minutes);
    OpenMinutesDistinct(router, samples, minutes, keys);
    MinuteRowsInserted(router, open, keys);
  }

  // ----- the imported rows

  lemma PointRowIsSound(id: nat, router: int, keys: seq<string>, points: seq<Point>, p: Point)
    requires InterfaceKey(p.wan) in keys && p.ts >= I64_MIN + MINUTE_MS
    ensures SampleSound(SampleOfPoint(id, router, keys, points, p))
  {
  }

  lemma PointRowsApart(router: int, points: seq<Point>, keys: seq<string>, i: nat, j: nat)
    requires PrimaryKeys(points, []) && forall p :: p in points ==>
      InterfaceKey(p.wan) in keys && p.ts >= I64_MIN + MINUTE_MS
    requires i < |points| && j < |points| && i != j
    requires OwnerOfWan(router, keys, points[i].wan) == OwnerOfWan(router, keys, points[j].wan)
    ensures var a := PointRows(router, points, keys)[i];
      var b := PointRows(router, points, keys)[j];
      IntervalsApart(a.start, a.end, b.start, b.end)
  {
    assert points[i] in points && points[j] in points;
    SameOwnerSameWan(router, keys, points[i].wan, points[j].wan);
    PointsApart(points, points[i], points[j]);
  }

  lemma PointRowsAllApart(router: int, points: seq<Point>, keys: seq<string>)
    requires PrimaryKeys(points, []) && forall p :: p in points ==>
      InterfaceKey(p.wan) in keys && p.ts >= I64_MIN + MINUTE_MS
    ensures SamplesApart(PointRows(router, points, keys)) && UniqueSampleIds(PointRows(router, points, keys))
  {
    var samples := PointRows(router, points, keys);
    forall a, b | a in samples && b in samples && a.id != b.id && a.owner == b.owner
      ensures IntervalsApart(a.start, a.end, b.start, b.end)
    {
      PointRowsApart(router, points, keys, a.id, b.id);
    }
  }

  lemma PointRowsSound(router: int, points: seq<Point>, minutes: seq<Minute>)
    requires PrimaryKeys(points, minutes) && TimesInScale(points, minutes)
    ensures SamplesSound(PointRows(router, points, AllKeys(points, minutes)))
  {
    var keys := AllKeys(points, minutes);
    var samples := PointRows(router, points, keys);
    PointRowsAllApart(router, points, keys);
    forall s | s in samples ensures SampleSound(s) {
      PointRowIsSound(s.id, router, keys, points, points[s.id]);
    }
  }

  /** Two points of one WAN measure disjoint intervals. */
  lemma PointsApart(points: seq<Point>, p: Point, q: Point)
    requires p in points && q in points && p.wan == q.wan && p.ts != q.ts
    ensures IntervalsApart(p.ts - MeasuredMs(points, p), p.ts, q.ts - MeasuredMs(points, q), q.ts)
  {
  }

  /** Open minutes of one WAN are at least a minute apart. */
  ghost predicate MinutesSpaced(open: seq<Minute>) {
    forall i, j :: 0 <= i < j < |open| && open[i].wan == open[j].wan ==>
      open[i].bucket + MINUTE_MS <= open[j].bucket || open[j].bucket + MINUTE_MS <= open[i].bucket
  }

  lemma MinuteRowsApart(router: int, open: seq<Minute>, keys: seq<string>)
    requires forall m :: m in open ==> InterfaceKey(m.wan) in keys && m.bucket <= I64_MAX - MINUTE_MS
    ensures RollupsApart(MinuteRows(router, open, keys)) <==> MinutesSpaced(open)
  {
    var rows := MinuteRows(router, open, keys);
    forall i, j | 0 <= i < j < |open|
      ensures rows[i].owner == rows[j].owner <==> open[i].wan == open[j].wan
      ensures IntervalsApart(rows[i].start, rows[i].end, rows[j].start, rows[j].end)
         <==> open[i].bucket + MINUTE_MS <= open[j].bucket || open[j].bucket + MINUTE_MS <= open[i].bucket
    {
      SameOwnerSameWan(router, keys, open[i].wan, open[j].wan);
    }
  }

  /** No imported rollup overlaps an imported sample of its interface. */
  lemma OpenMinutesClear(router: int, samples: seq<Sample>, minutes: seq<Minute>, keys: seq<string>, s: Sample,
      r: Rollup)
    requires forall m :: m in minutes ==> InterfaceKey(m.wan) in keys && m.bucket <= I64_MAX - MINUTE_MS
    requires r in MinuteRows(router, OpenMinutes(router, samples, minutes, keys), keys)
    requires s in samples && s.owner == r.owner && s.source == POINT_SOURCE
    ensures IntervalsApart(s.start, s.end, r.start, r.end)
  {
    var open := OpenMinutes(router, samples, minutes, keys);
    var i :| 0 <= i < |open| && RollupOfMinute(i, router, keys, open[i]) == r;
    assert open[i] in open;
  }

  /** The tables right after the import, for whatever routers and interfaces are registered. */
  function ImportedTables(imported: Imported, routers: set<int>, interfaces: map<int, int>): Tables {
    Tables(routers, interfaces, imported.samples, imported.rollups, [], map[],
           |imported.samples|, |imported.rollups|, 0)
  }

  /** A sample that avoids an aligned minute avoids it with its whole aligned extent. */
  lemma ExtentAvoidsAlignedMinute(s: Sample, bucket: int)
    requires SampleSound(s) && AlignDown(bucket, MINUTE_MS) == bucket
    requires IntervalsApart(s.start, s.end, bucket, bucket + MINUTE_MS)
    ensures IntervalsApart(AlignDown(s.start, MINUTE_MS), AlignUp(s.end, MINUTE_MS), bucket, bucket + MINUTE_MS)
  {
    AlignDownBounds(s.start, MINUTE_MS);
    AlignDownBounds(s.end - 1, MINUTE_MS);
    if s.end <= bucket {
      if AlignDown(s.end - 1, MINUTE_MS) < bucket {
        AlignedBucketsApart(AlignDown(s.end - 1, MINUTE_MS), bucket, MINUTE_MS);
      }
    } else if AlignDown(s.start, MINUTE_MS) < bucket + MINUTE_MS {
      AlignDownMonotone(bucket + MINUTE_MS, s.start, MINUTE_MS);
      NextAligned(bucket);
      assert false;
    }
  }

  lemma NextAligned(bucket: int)
    requires AlignDown(bucket, MINUTE_MS) == bucket
    ensures AlignDown(bucket + MINUTE_MS, MINUTE_MS) == bucket + MINUTE_MS
  {
    DivShift(bucket, 1, MINUTE_MS);
    assert bucket + 1 * MINUTE_MS == bucket + MINUTE_MS;
  }

  /**
   * With minute buckets on minute boundaries the imported store is sound for one-minute
   * rollups: all rows valid, pairwise disjoint, and samples share no bucket with rollups.
   */
  lemma AlignedImportIsSound(router: int, points: seq<Point>, minutes: seq<Minute>, routers: set<int>,
      interfaces: map<int, int>)
    requires PrimaryKeys(points, minutes) && TimesInScale(points, minutes)
    requires forall m :: m in minutes ==> m.bucket % MINUTE_MS == 0
    ensures ImportLegacy(router, points, minutes).Ok?
    ensures StoreSound(ImportedTables(ImportLegacy(router, points, minutes).value, routers, interfaces), MINUTE_MS)
  {
    var keys, samples, open := ImportSucceeds(router, points, minutes);
    PointRowsSound(router, points, minutes);
    AlignedMinutesSpaced(open);
    MinuteRowsSound(router, open, keys);
    AlignedMinutesClear(router, samples, minutes, keys);
  }

  lemma MinuteRowsSound(router: int, open: seq<Minute>, keys: seq<string>)
    requires forall m :: m in open ==> InterfaceKey(m.wan) in keys && m.bucket <= I64_MAX - MINUTE_MS
    requires MinutesSpaced(open)
    ensures RollupsSound(MinuteRows(router, open, keys), MINUTE_MS)
  {
    MinuteRowsApart(router, open, keys);
    var rows := MinuteRows(router, open, keys);
    forall r | r in rows ensures RollupSound(r, MINUTE_MS) {
      var i :| 0 <= i < |open| && rows[i] == r;
    }
  }

  lemma AlignedMinutesClear(router: int, samples: seq<Sample>, minutes: seq<Minute>, keys: seq<string>)
    requires forall m :: m in minutes ==>
      InterfaceKey(m.wan) in keys && m.bucket <= I64_MAX - MINUTE_MS && m.bucket % MINUTE_MS == 0
    requires forall s :: s in samples ==> SampleSound(s) && s.source == POINT_SOURCE
    ensures AllClear(samples, MinuteRows(router, OpenMinutes(router, samples, minutes, keys), keys), MINUTE_MS)
  {
    var open := OpenMinutes(router, samples, minutes, keys);
    var rollups := MinuteRows(router, open, keys);
    forall s, r | s in samples && r in rollups && s.owner == r.owner ensures SampleClearOf(s, r, MINUTE_MS) {
      OpenMinutesClear(router, samples, minutes, keys, s, r);
      var i :| 0 <= i < |open| && rollups[i] == r;
      assert open[i] in open;
      ExtentAvoidsAlignedMinute(s, r.start);
    }
  }

  lemma AlignedMinutesSpaced(open: seq<Minute>)
    requires DistinctMinutes(open) && forall m :: m in open ==> m.bucket % MINUTE_MS == 0
    ensures MinutesSpaced(open)
  {
    forall i, j | 0 <= i < j < |open| && open[i].wan == open[j].wan
      ensures open[i].bucket + MINUTE_MS <= open[j].bucket || open[j].bucket + MINUTE_MS <= open[i].bucket
    {
      assert open[i] in open && open[j] in open;
    }
  }

  /**
   * In general, the imported rows of every interface are pairwise disjoint exactly when the
   * open minutes of each WAN are at least a minute apart.
   */
  lemma ImportDisjointExactly(router: int, points: seq<Point>, minutes: seq<Minute>)
    requires PrimaryKeys(points, minutes) && TimesInScale(points, minutes)
    ensures ImportLegacy(router, points, minutes).Ok?
    ensures var keys := AllKeys(points, minutes);
      var imported := ImportLegacy(router, points, minutes).value;
      ImportApart(imported) <==> MinutesSpaced(OpenMinutes(router, imported.samples, minutes, keys))
  {
    var keys, samples, open := ImportSucceeds(router, points, minutes);
    PointRowsSound(router, points, minutes);
    MinuteRowsApart(router, open, keys);
    forall s, r | s in samples && r in MinuteRows(router, open, keys) && s.owner == r.owner
      ensures IntervalsApart(s.start, s.end, r.start, r.end)
    {
      OpenMinutesClear(router, samples, minutes, keys, s, r);
    }
  }

  /** Imported rows of one interface never overlap. */
  ghost predicate ImportApart(imported: Imported) {
    && SamplesApart(imported.samples) && RollupsApart(imported.rollups)
    && forall s, r :: s in imported.samples && r in imported.rollups && s.owner == r.owner
         ==> IntervalsApart(s.start, s.end, r.start, r.end)
  }
}
