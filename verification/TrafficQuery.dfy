/** The traffic query: planning, merging, folding and reporting. */
module TrafficQuery {
  import opened Int64
  import opened Outcomes
  import opened Slices
  import opened BTree
  import opened Contributions
  import opened RowStreams

  const MAX_QUERY_POINTS: nat := 50_000

  datatype Query = Query(router: int, iface: int, from: i64, to: i64, maxPoints: nat)

  /** One reported bucket, clipped to the end of the range. */
  datatype Point = Point(start: i64, end: i64, tally: Tally)

  datatype Report = Report(
    bucketSize: i64, points: seq<Point>, totals: Tally,
    requestedMs: i64, coveredMs: i64, gapCount: nat)

  // ----- fold

  datatype FoldState = FoldState(previousEnd: Option<i64>, processed: nat, buckets: Tree<Tally>, totals: Tally)

  const FOLD_START := FoldState(None, 0, [], EMPTY_TALLY)

  /** Adds a row to the totals and spreads it over the buckets, clipped to the window. */
  function Accumulate(c: Contribution, w: Window, buckets: Tree<Tally>, totals: Tally): Result<(Tree<Tally>, Tally)>
    requires w.size > 0
  {
    var clippedStart := Max(c.start, w.from);
    var clippedEnd := Min(c.end, w.to);
    var totals' :- AddSegment(totals, c, clippedStart, clippedEnd);
    var buckets' :- Spread(c, w, clippedStart, clippedEnd, buckets);
    Ok((buckets', totals'))
  }

  function FoldStep(st: FoldState, c: Contribution, w: Window, budget: nat): Result<FoldState>
    requires w.size > 0
  {
    if st.processed + 1 > budget then Err(TooLarge)
    else
      var _ :- Validate(c, st.previousEnd);
      var (buckets, totals) :- Accumulate(c, w, st.buckets, st.totals);
      Ok(FoldState(Some(c.end), st.processed + 1, buckets, totals))
  }

  function FoldRows(st: FoldState, rows: seq<Contribution>, w: Window, budget: nat): Result<FoldState>
    requires w.size > 0
    decreases |rows|
  {
    if rows == [] then Ok(st)
    else
      var next :- FoldStep(st, rows[0], w, budget);
      FoldRows(next, rows[1..], w, budget)
  }

  /** The bucket loop of one row. */
  method AccumulateRow(c: Contribution, w: Window, buckets: Tree<Tally>, totals: Tally)
    returns (r: Result<(Tree<Tally>, Tally)>)
    requires w.size > 0
    ensures r == Accumulate(c, w, buckets, totals)
  {
    var clippedStart := Max(c.start, w.from);
    var clippedEnd := Min(c.end, w.to);
    var totals' := AddSegment(totals, c, clippedStart, clippedEnd);
    if totals'.Err? {
      return Err(totals'.error);
    }
    var filled := buckets;
    var segmentStart: i64 := clippedStart;
    while segmentStart < clippedEnd
      invariant w.from <= segmentStart
      invariant Spread(c, w, clippedStart, clippedEnd, buckets) == Spread(c, w, segmentStart, clippedEnd, filled)
    {
      var bucket := BucketStart(w, segmentStart);
      var bucketEnd := Min(SatAdd(bucket, w.size), w.to);
      var segmentEnd := Min(clippedEnd, bucketEnd);
      if segmentEnd <= segmentStart {
        return Err(Verification);
      }
      var slot := Slot(w.router, w.iface, bucket);
      var prior := Get(filled, slot);
      var tally := AddSegment(if prior.Some? then prior.value else EMPTY_TALLY, c, segmentStart, segmentEnd);
      if tally.Err? {
        return Err(tally.error);
      }
      filled := Put(filled, slot, tally.value);
      segmentStart := segmentEnd;
    }
    return Ok((filled, totals'.value));
  }

  /** The merge loop: two cursors, always taking the earlier row. */
  method FoldStreams(samples: seq<Contribution>, rollups: seq<Contribution>, w: Window, budget: nat)
    returns (r: Result<FoldState>)
    requires w.size > 0
    ensures r == FoldRows(FOLD_START, Merge(samples, rollups), w, budget)
  {
    var i, j := 0, 0;
    var st := FOLD_START;
    while i < |samples| || j < |rollups|
      invariant 0 <= i <= |samples| && 0 <= j <= |rollups|
      invariant FoldRows(FOLD_START, Merge(samples, rollups), w, budget)
             == FoldRows(st, Merge(samples[i..], rollups[j..]), w, budget)
      decreases |samples| - i + |rollups| - j
    {
      var takeSample := j == |rollups| || (i < |samples| && KeyLeq(samples[i], rollups[j]));
      var c: Contribution;
      ghost var rest := Merge(samples[i..], rollups[j..]);
      if takeSample {
        c := samples[i];
        i := i + 1;
      } else {
        c := rollups[j];
        j := j + 1;
      }
      assert rest[0] == c && rest[1..] == Merge(samples[i..], rollups[j..]);
      if st.processed + 1 > budget {
        return Err(TooLarge);
      }
      var valid := Validate(c, st.previousEnd);
      if valid.Err? {
        return Err(valid.error);
      }
      var added := AccumulateRow(c, w, st.buckets, st.totals);
      if added.Err? {
        return Err(added.error);
      }
      st := FoldState(Some(c.end), st.processed + 1, added.value.0, added.value.1);
    }
    return Ok(st);
  }

  /** What a row gives to a range: nothing outside it, its clipped piece inside. */
  function Share(m: Metric, c: Contribution, a: i64, b: i64): int {
    if c.start < c.end && Selected(c, a, b) then Piece(m, c, Max(c.start, a), Min(c.end, b)) else 0
  }

  function SumShares(m: Metric, rows: seq<Contribution>, a: i64, b: i64): int {
    if rows == [] then 0 else Share(m, rows[0], a, b) + SumShares(m, rows[1..], a, b)
  }

  /** Time up to which the window has been read. */
  function Upto(st: FoldState, w: Window): int {
    if st.previousEnd.Some? then Min(st.previousEnd.value, w.to) else w.from
  }

  ghost predicate FoldOk(st: FoldState, w: Window) {
    && w.Regular()
    && (st.previousEnd.Some? ==> st.previousEnd.value > w.from)
    && BucketsOk(w, st.buckets, Upto(st, w))
    && st.totals.exactMs >= 0 && st.totals.estMs >= 0
    && st.totals.exactMs + st.totals.estMs <= Upto(st, w) - w.from
  }

  lemma BucketsStayOk(w: Window, t: Tree<Tally>, upto: int, later: int)
    requires w.size > 0 && BucketsOk(w, t, upto) && upto <= later
    ensures BucketsOk(w, t, later)
  {
    forall e | e in t ensures BucketOk(w, e, later) {
      assert BucketOk(w, e, upto);
    }
  }

  /** A row is accepted exactly when it is valid and does not start before the previous end. */
  lemma StepAccounts(st: FoldState, c: Contribution, w: Window, budget: nat, m: Metric)
    requires FoldOk(st, w) && Fits(c) && Selected(c, w.from, w.to) && st.processed < budget
    ensures FoldStep(st, c, w, budget).Ok?
       <==> RowValid(c) && (st.previousEnd.Some? ==> st.previousEnd.value <= c.start)
    ensures FoldStep(st, c, w, budget).Ok? ==>
      var next := FoldStep(st, c, w, budget).value;
      && FoldOk(next, w) && next.processed == st.processed + 1 && next.previousEnd == Some(c.end)
      && Amount(m, next.totals) == Amount(m, st.totals) + Share(m, c, w.from, w.to)
      && (m.Total() ==> SumBuckets(m, next.buckets) == SumBuckets(m, st.buckets) + Share(m, c, w.from, w.to))
  {
    if RowValid(c) && (st.previousEnd.Some? ==> st.previousEnd.value <= c.start) {
      var s: i64, e: i64 := Max(c.start, w.from), Min(c.end, w.to);
      assert Upto(st, w) <= s < e;
      BucketsStayOk(w, st.buckets, Upto(st, w), s);
      SegmentAddsPiece(st.totals, c, s, e, m);
      SpreadConserves(c, w, s, e, st.buckets, if m.Total() then m else Time);
    }
  }

  /**
   * The fold over a row list: accepted exactly when all rows are valid and chained, and then
   * both the totals and the buckets hold the sum of the rows' shares of the range.
   */
  lemma {:induction false} FoldAccounts(st: FoldState, rows: seq<Contribution>, w: Window, budget: nat, m: Metric)
    requires FoldOk(st, w) && st.processed + |rows| <= budget
    requires forall c :: c in rows ==> Fits(c) && Selected(c, w.from, w.to)
    ensures FoldRows(st, rows, w, budget).Ok? <==> AllValid(rows) && Chained(st.previousEnd, rows)
    ensures FoldRows(st, rows, w, budget).Ok? ==>
      var done := FoldRows(st, rows, w, budget).value;
      && FoldOk(done, w)
      && Amount(m, done.totals) == Amount(m, st.totals) + SumShares(m, rows, w.from, w.to)
      && (m.Total() ==> SumBuckets(m, done.buckets) == SumBuckets(m, st.buckets) + SumShares(m, rows, w.from, w.to))
    decreases |rows|
  {
    if rows != [] {
      StepAccounts(st, rows[0], w, budget, m);
      var next := FoldStep(st, rows[0], w, budget);
      assert rows == [rows[0]] + rows[1..];
      if next.Ok? {
        FoldAccounts(next.value, rows[1..], w, budget, m);
      }
    }
  }

  // ----- planning

  function LongestRow(rows: seq<Contribution>): (r: int)
    ensures r >= 1
    ensures forall c :: c in rows ==> c.end - c.start <= r
    ensures r == 1 || exists c :: c in rows && c.end - c.start == r
  {
    if rows == [] then 1 else
      assert rows == [rows[0]] + rows[1..];
      Max(rows[0].end - rows[0].start, LongestRow(rows[1..]))
  }

  /**
   * Counts the rows against the budget and returns the longest row. A length beyond 64 bits
   * leaves SQLite as a floating-point value, which the typed column read refuses.
   */
  function PlanSources(samples: seq<Contribution>, rollups: seq<Contribution>, budget: nat): Result<i64> {
    if budget + 1 > I64_MAX then Err(InvalidCommand)
    else if |samples| > budget then Err(TooLarge)
    else if LongestRow(samples) > I64_MAX then Err(Storage)
    else if |rollups| > budget - |samples| then Err(TooLarge)
    else if LongestRow(rollups) > I64_MAX then Err(Storage)
    else Ok(Max(LongestRow(samples), LongestRow(rollups)))
  }

  // ----- report

  function PointsOf(t: Tree<Tally>, size: i64, to: i64): seq<Point> {
    if t == [] then []
    else [Point(t[0].slot.start, Min(SatAdd(t[0].slot.start, size), to), t[0].value)] + PointsOf(t[1..], size, to)
  }

  function BuildReport(q: Query, size: i64, st: FoldState, gapCount: nat): Result<Report> {
    var range := SatSub(q.to, q.from);
    var covered := SatAdd(st.totals.exactMs, st.totals.estMs);
    if covered > range then Err(Verification)
    else Ok(Report(size, PointsOf(st.buckets, size, q.to), st.totals, range, covered, gapCount))
  }

  predicate QueryValid(q: Query, budget: nat) {
    q.from < q.to && 0 < q.maxPoints <= MAX_QUERY_POINTS && budget > 0
  }

  /** Smallest bucket size that could report the range within the point limit. */
  function MinimumBucketSize(q: Query): i64
    requires 0 < q.maxPoints <= MAX_QUERY_POINTS
  {
    Max(SatAdd(SatSub(q.to, q.from), q.maxPoints - 1) / q.maxPoints, 1)
  }

  /** The query on the rows of one interface, from validation to report. */
  function RunQuery(q: Query, budget: nat, samples: seq<Contribution>, rollups: seq<Contribution>, gapCount: nat)
    : Result<Report>
  {
    if !QueryValid(q, budget) then Err(InvalidCommand)
    else
      var ss, rs := Select(samples, q.from, q.to), Select(rollups, q.from, q.to);
      var resolution :- PlanSources(ss, rs, budget);
      var size := Max(MinimumBucketSize(q), resolution);
      var w := Window(q.router, q.iface, q.from, q.to, size);
      var st :- FoldRows(FOLD_START, Merge(SortByEnd(ss), SortByEnd(rs)), w, budget);
      if |st.buckets| > q.maxPoints then Err(Verification)
      else BuildReport(q, size, st, gapCount)
  }

  /** The report loop over the buckets in key order. */
  method CollectPoints(buckets: Tree<Tally>, size: i64, to: i64) returns (points: seq<Point>)
    ensures points == PointsOf(buckets, size, to)
  {
    points := [];
    for i := 0 to |buckets|
      invariant points + PointsOf(buckets[i..], size, to) == PointsOf(buckets, size, to)
    {
      var e := buckets[i];
      ghost var rest := buckets[i..];
      assert rest[0] == e && rest[1..] == buckets[i + 1..];
      points := points + [Point(e.slot.start, Min(SatAdd(e.slot.start, size), to), e.value)];
    }
  }

  function SumPoints(m: Metric, points: seq<Point>): int {
    if points == [] then 0 else Amount(m, points[0].tally) + SumPoints(m, points[1..])
  }

  lemma {:induction false} PointsMirrorBuckets(t: Tree<Tally>, size: i64, to: i64, m: Metric)
    ensures |PointsOf(t, size, to)| == |t|
    ensures forall i :: 0 <= i < |t| ==>
      PointsOf(t, size, to)[i] == Point(t[i].slot.start, Min(SatAdd(t[i].slot.start, size), to), t[i].value)
    ensures SumPoints(m, PointsOf(t, size, to)) == SumBuckets(m, t)
  {
    if t != [] {
      PointsMirrorBuckets(t[1..], size, to, m);
      assert PointsOf(t, size, to)[1..] == PointsOf(t[1..], size, to);
    }
  }
}
