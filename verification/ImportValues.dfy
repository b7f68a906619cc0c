/** What the imported rows hold, point by point and minute by minute. */
module ImportValues {
  import opened Int64
  import opened Outcomes
  import opened TrafficTables
  import opened LegacyImport

  /** `n` is `x` rounded to the nearest integer, halves up, and kept between zero and the largest stored one. */
  predicate Rounds(x: real, n: int) {
    if x <= 0.0 then n == 0
    else if x + 0.5 >= (I64_MAX + 1) as real then n == I64_MAX
    else (n as real) - 0.5 <= x < (n as real) + 0.5
  }

  lemma BytesAreRounded(x: real)
    ensures Rounds(x, ToBytes(x))
  {
    if x > 0.0 {
      var n := (x + 0.5).Floor;
      assert (n as real) <= x + 0.5 < (n as real) + 1.0;
    }
  }

  /** The point of the same WAN right before `p`. */
  ghost predicate RightBefore(points: seq<Point>, q: Point, p: Point) {
    && q in points && q.wan == p.wan && q.ts < p.ts
    && forall x :: x in points && x.wan == p.wan && x.ts < p.ts ==> x.ts <= q.ts
  }

  lemma {:induction false} PreviousIsPoint(points: seq<Point>, wan: string, ts: i64)
    ensures Previous(points, wan, ts).Some? ==>
      exists q :: q in points && q.wan == wan && q.ts == Previous(points, wan, ts).value
  {
    if points != [] {
      PreviousIsPoint(points[1..], wan, ts);
      assert points == [points[0]] + points[1..];
    }
  }

  /** A point measures the time since the one before it, at most a minute; the first one of a WAN five seconds. */
  ghost predicate Measures(points: seq<Point>, p: Point, ms: int) {
    if exists q :: RightBefore(points, q, p) then
      exists q :: RightBefore(points, q, p) && ms == Min(60_000, p.ts - q.ts)
    else ms == 5_000
  }

  lemma MeasuredTime(points: seq<Point>, p: Point)
    ensures Measures(points, p, MeasuredMs(points, p))
  {
    var previous := Previous(points, p.wan, p.ts);
    PreviousIsPoint(points, p.wan, p.ts);
    if previous.Some? {
      var q :| q in points && q.wan == p.wan && q.ts == previous.value;
      assert RightBefore(points, q, p);
    }
  }

  /** Bytes that a rate in bits per second moves in so many milliseconds. */
  function BytesIn(bps: real, ms: int): real { bps * ms as real / 8000.0 }

  /** The sample a point becomes. */
  ghost predicate HoldsPoint(s: Sample, points: seq<Point>, p: Point) {
    && s.end == p.ts && s.start + s.duration == s.end && Measures(points, p, s.duration)
    && Rounds(BytesIn(p.downBps, s.duration), s.down) && Rounds(BytesIn(p.upBps, s.duration), s.up)
    && s.downBps == (if p.downBps < 0.0 then 0.0 else p.downBps)
    && s.upBps == (if p.upBps < 0.0 then 0.0 else p.upBps)
    && !s.exact && s.source == "legacy-traffic_points"
  }

  /** The rollup a minute becomes: a minute of estimated bytes. */
  ghost predicate HoldsMinute(r: Rollup, m: Minute) {
    && r.start == m.bucket && r.end == m.bucket + 60_000 && r.size == 60_000
    && r.exactDown == r.exactUp == r.exactMs == 0 && r.estMs == 60_000 && r.count == 1
    && Rounds(m.downAvg * 60.0 / 8.0, r.estDown) && Rounds(m.upAvg * 60.0 / 8.0, r.estUp)
    && r.source == "legacy-traffic_1m"
  }

  /** Rows of one WAN share an interface of the router, and those of two WANs do not. */
  ghost predicate OwnersMatch(router: int, owner: string -> Owner, wans: set<string>) {
    && (forall a :: a in wans ==> owner(a).router == router)
    && forall a, b :: a in wans && b in wans ==> (owner(a) == owner(b) <==> a == b)
  }

  ghost function Wans(points: seq<Point>, minutes: seq<Minute>): set<string> {
    (set p | p in points :: p.wan) + set m | m in minutes :: m.wan
  }

  /** Some imported sample of the minute's interface overlaps it. */
  ghost predicate Overlapped(samples: seq<Sample>, o: Owner, m: Minute) {
    exists s :: s in samples && s.owner == o && m.bucket < s.end && s.start < m.bucket + 60_000
  }

  lemma PointBytes(bps: real, ms: i64)
    ensures Rounds(BytesIn(bps, ms), ToBytes(bps * ms as real / 8000.0))
  {
    BytesAreRounded(BytesIn(bps, ms));
  }

  lemma PointDown(id: nat, router: int, keys: seq<string>, points: seq<Point>, p: Point)
    requires InterfaceKey(p.wan) in keys && p.ts >= I64_MIN + MINUTE_MS
    ensures Rounds(BytesIn(p.downBps, MeasuredMs(points, p)), SampleOfPoint(id, router, keys, points, p).down)
  {
    PointBytes(p.downBps, MeasuredMs(points, p));
  }

  lemma PointUp(id: nat, router: int, keys: seq<string>, points: seq<Point>, p: Point)
    requires InterfaceKey(p.wan) in keys && p.ts >= I64_MIN + MINUTE_MS
    ensures Rounds(BytesIn(p.upBps, MeasuredMs(points, p)), SampleOfPoint(id, router, keys, points, p).up)
  {
    PointBytes(p.upBps, MeasuredMs(points, p));
  }

  lemma PointOther(id: nat, router: int, keys: seq<string>, points: seq<Point>, p: Point)
    requires InterfaceKey(p.wan) in keys && p.ts >= I64_MIN + MINUTE_MS
    ensures var s := SampleOfPoint(id, router, keys, points, p);
      && s.end == p.ts && s.start + s.duration == s.end && s.duration == MeasuredMs(points, p)
      && s.downBps == NonNegative(p.downBps) && s.upBps == NonNegative(p.upBps) && !s.exact && s.source == POINT_SOURCE
  {
  }

  lemma SampleHoldsPoint(s: Sample, points: seq<Point>, p: Point)
    requires s.end == p.ts && s.start + s.duration == s.end && s.duration == MeasuredMs(points, p)
    requires Rounds(BytesIn(p.downBps, MeasuredMs(points, p)), s.down)
    requires Rounds(BytesIn(p.upBps, MeasuredMs(points, p)), s.up)
    requires s.downBps == NonNegative(p.downBps) && s.upBps == NonNegative(p.upBps)
    requires !s.exact && s.source == POINT_SOURCE
    ensures HoldsPoint(s, points, p)
  {
    MeasuredTime(points, p);
  }

  lemma PointSampleHolds(id: nat, router: int, keys: seq<string>, points: seq<Point>, p: Point)
    requires InterfaceKey(p.wan) in keys && p.ts >= I64_MIN + MINUTE_MS
    ensures HoldsPoint(SampleOfPoint(id, router, keys, points, p), points, p)
  {
    PointDown(id, router, keys, points, p);
    PointUp(id, router, keys, points, p);
    PointOther(id, router, keys, points, p);
    SampleHoldsPoint(SampleOfPoint(id, router, keys, points, p), points, p);
  }

  lemma MinuteRollupHolds(id: nat, router: int, keys: seq<string>, m: Minute)
    requires InterfaceKey(m.wan) in keys && m.bucket <= I64_MAX - MINUTE_MS
    ensures HoldsMinute(RollupOfMinute(id, router, keys, m), m)
  {
    BytesAreRounded(m.downAvg * 60.0 / 8.0);
    BytesAreRounded(m.upAvg * 60.0 / 8.0);
  }

  /**
   * The import gives every WAN an interface of its own, every point its sample in order, and every
   * minute that no imported sample of its WAN overlaps a rollup, and no other row.
   */
  lemma ImportHoldsAll(router: int, points: seq<Point>, minutes: seq<Minute>) returns (owner: string -> Owner)
    requires PrimaryKeys(points, minutes) && TimesInScale(points, minutes)
    ensures ImportLegacy(router, points, minutes).Ok? && OwnersMatch(router, owner, Wans(points, minutes))
    ensures var imported := ImportLegacy(router, points, minutes).value;
      && |imported.samples| == |points|
      && (forall i :: 0 <= i < |points| ==>
            imported.samples[i].owner == owner(points[i].wan) && HoldsPoint(imported.samples[i], points, points[i]))
      && (forall m :: m in minutes && !Overlapped(imported.samples, owner(m.wan), m) ==>
            exists r :: r in imported.rollups && r.owner == owner(m.wan) && HoldsMinute(r, m))
      && forall r :: r in imported.rollups ==>
           exists m :: m in minutes && !Overlapped(imported.samples, owner(m.wan), m)
                       && r.owner == owner(m.wan) && HoldsMinute(r, m)
  {
    var keys, samples, open := ImportSucceeds(router, points, minutes);
    owner := wan => if InterfaceKey(wan) in keys then OwnerOfWan(router, keys, wan) else Owner(router, -1);
    forall a, b | a in Wans(points, minutes) && b in Wans(points, minutes)
      ensures owner(a) == owner(b) <==> a == b
    {
      SameOwnerSameWan(router, keys, a, b);
    }
    forall i | 0 <= i < |points| ensures HoldsPoint(samples[i], points, points[i]) {
      PointSampleHolds(i, router, keys, points, points[i]);
    }
    OpenMinutesHeld(router, samples, minutes, keys, owner);
  }

  lemma OpenMinutesHeld(router: int, samples: seq<Sample>, minutes: seq<Minute>, keys: seq<string>,
      owner: string -> Owner)
    requires forall m :: m in minutes ==> InterfaceKey(m.wan) in keys && m.bucket <= I64_MAX - MINUTE_MS
    requires forall m :: m in minutes ==> owner(m.wan) == OwnerOfWan(router, keys, m.wan)
    requires forall s :: s in samples ==> s.source == POINT_SOURCE
    ensures var rollups := MinuteRows(router, OpenMinutes(router, samples, minutes, keys), keys);
      && (forall m :: m in minutes && !Overlapped(samples, owner(m.wan), m) ==>
            exists r :: r in rollups && r.owner == owner(m.wan) && HoldsMinute(r, m))
      && forall r :: r in rollups ==>
           exists m :: m in minutes && !Overlapped(samples, owner(m.wan), m)
                       && r.owner == owner(m.wan) && HoldsMinute(r, m)
  {
    var open := OpenMinutes(router, samples, minutes, keys);
    var rollups := MinuteRows(router, open, keys);
    forall m | m in minutes ensures MinuteCovered(samples, owner(m.wan), m) <==> Overlapped(samples, owner(m.wan), m) {
    }
    forall i | 0 <= i < |open| ensures rollups[i].owner == owner(open[i].wan) && HoldsMinute(rollups[i], open[i]) {
      MinuteRollupHolds(i, router, keys, open[i]);
    }
    forall m | m in minutes && !Overlapped(samples, owner(m.wan), m)
      ensures exists r :: r in rollups && r.owner == owner(m.wan) && HoldsMinute(r, m)
    {
      var i :| 0 <= i < |open| && open[i] == m;
      assert rollups[i] in rollups;
    }
  }
}
