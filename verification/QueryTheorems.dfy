/** What every traffic query guarantees about its report. */
module QueryTheorems {
  import opened Int64
  import opened Outcomes
  import opened Slices
  import opened BTree
  import opened Contributions
  import opened RowStreams
  import opened TrafficQuery
  import SortKeys

  /** The range and the rounding of the bucket size stay inside 64-bit arithmetic. */
  predicate Unsaturated(q: Query) {
    q.to - q.from + q.maxPoints <= I64_MAX
  }

  // ----- the streams hold what the tables hold

  lemma {:induction false} SharesOfInsert(m: Metric, c: Contribution, rows: seq<Contribution>, a: i64, b: i64)
    ensures SumShares(m, SortKeys.Insert(c, rows, EndKey), a, b) == Share(m, c, a, b) + SumShares(m, rows, a, b)
  {
    if rows == [] || KeyLeq(c, rows[0]) {
      assert ([c] + rows)[1..] == rows;
    } else {
      SharesOfInsert(m, c, rows[1..], a, b);
      var rest := SortKeys.Insert(c, rows[1..], EndKey);
      assert ([rows[0]] + rest)[1..] == rest;
    }
  }

  lemma {:induction false} SharesOfSort(m: Metric, rows: seq<Contribution>, a: i64, b: i64)
    ensures SumShares(m, SortByEnd(rows), a, b) == SumShares(m, rows, a, b)
  {
    if rows != [] {
      SharesOfSort(m, rows[1..], a, b);
      SharesOfInsert(m, rows[0], SortByEnd(rows[1..]), a, b);
    }
  }

  lemma {:induction false} SharesOfMerge(m: Metric, x: seq<Contribution>, y: seq<Contribution>, a: i64, b: i64)
    ensures SumShares(m, Merge(x, y), a, b) == SumShares(m, x, a, b) + SumShares(m, y, a, b)
  {
    if x != [] && y != [] {
      if KeyLeq(x[0], y[0]) {
        SharesOfMerge(m, x[1..], y, a, b);
        assert Merge(x, y)[1..] == Merge(x[1..], y);
      } else {
        SharesOfMerge(m, x, y[1..], a, b);
        assert Merge(x, y)[1..] == Merge(x, y[1..]);
      }
    }
  }

  lemma {:induction false} SharesOfSelect(m: Metric, rows: seq<Contribution>, a: i64, b: i64)
    ensures SumShares(m, Select(rows, a, b), a, b) == SumShares(m, rows, a, b)
  {
    if rows != [] {
      SharesOfSelect(m, rows[1..], a, b);
      if Selected(rows[0], a, b) {
        assert Select(rows, a, b)[1..] == Select(rows[1..], a, b);
      }
    }
  }

  function Streams(q: Query, samples: seq<Contribution>, rollups: seq<Contribution>): seq<Contribution> {
    Merge(SortByEnd(Select(samples, q.from, q.to)), SortByEnd(Select(rollups, q.from, q.to)))
  }

  lemma StreamsHoldTables(q: Query, samples: seq<Contribution>, rollups: seq<Contribution>, m: Metric)
    ensures var ss, rs := Select(samples, q.from, q.to), Select(rollups, q.from, q.to);
      && InOrder(Streams(q, samples, rollups))
      && multiset(Streams(q, samples, rollups)) == multiset(ss) + multiset(rs)
      && |Streams(q, samples, rollups)| == |ss| + |rs|
      && (forall c :: c in Streams(q, samples, rollups) <==> c in ss || c in rs)
    ensures SumShares(m, Streams(q, samples, rollups), q.from, q.to)
         == SumShares(m, samples, q.from, q.to) + SumShares(m, rollups, q.from, q.to)
  {
    var ss, rs := Select(samples, q.from, q.to), Select(rollups, q.from, q.to);
    SortOrders(ss);
    SortOrders(rs);
    MergeOrders(SortByEnd(ss), SortByEnd(rs));
    MergeKeepsRows(SortByEnd(ss), SortByEnd(rs));
    var merged := Streams(q, samples, rollups);
    assert |merged| == |multiset(merged)|;
    assert forall c :: c in merged <==> c in multiset(merged);
    SharesOfMerge(m, SortByEnd(ss), SortByEnd(rs), q.from, q.to);
    SharesOfSort(m, ss, q.from, q.to);
    SharesOfSort(m, rs, q.from, q.to);
    SharesOfSelect(m, samples, q.from, q.to);
    SharesOfSelect(m, rollups, q.from, q.to);
  }

  // ----- number of points

  /** The i-th bucket of an ordered tree starts at least i bucket lengths into the window. */
  lemma {:induction false} BucketsAreSpaced(w: Window, t: Tree<Tally>, upto: int, i: nat)
    requires w.size > 0 && BucketsOk(w, t, upto) && i < |t|
    ensures t[i].slot.start >= w.from + i * w.size
  {
    assert BucketOk(w, t[i], upto);
    if i > 0 {
      BucketsAreSpaced(w, t, upto, i - 1);
      assert BucketOk(w, t[i - 1], upto);
      var j, k := t[i - 1].slot.start, t[i].slot.start;
      assert Less(t[i - 1].slot, t[i].slot);
      if k < j + w.size {
        SameBucket(w, j, k);
        assert false;
      }
      assert i * w.size == (i - 1) * w.size + w.size;
    }
  }

  /** A window of at most n bucket lengths fills at most n buckets. */
  lemma BucketCountBound(w: Window, t: Tree<Tally>, n: nat)
    requires w.Regular() && BucketsOk(w, t, w.to) && w.to - w.from <= n * w.size
    ensures |t| <= n
  {
    if |t| > n {
      BucketsAreSpaced(w, t, w.to, |t| - 1);
      assert BucketOk(w, t[|t| - 1], w.to);
      MulMonotone(w.size, n, |t| - 1);
      assert false;
    }
  }

  lemma MinimumSizeSuffices(q: Query, size: int)
    requires 0 < q.maxPoints <= MAX_QUERY_POINTS && q.from < q.to && Unsaturated(q)
    requires size >= MinimumBucketSize(q)
    ensures q.to - q.from <= q.maxPoints * size
  {
    var range, n := q.to - q.from, q.maxPoints;
    var least := (range + n - 1) / n;
    assert MinimumBucketSize(q) == Max(least, 1);
    assert n * least + (range + n - 1) % n == range + n - 1;
    MulMonotone(n, least, size);
  }

  // ----- acceptance

  /** The rows of the range are within budget, representable, valid and pairwise disjoint. */
  ghost predicate RowsAcceptable(q: Query, budget: nat, samples: seq<Contribution>, rollups: seq<Contribution>) {
    var ss, rs := Select(samples, q.from, q.to), Select(rollups, q.from, q.to);
    && |ss| + |rs| <= budget
    && (forall c :: c in ss || c in rs ==> Fits(c) && RowValid(c))
    && DisjointBag(multiset(ss) + multiset(rs))
  }

  function WindowOf(q: Query, ss: seq<Contribution>, rs: seq<Contribution>): Window
    requires 0 < q.maxPoints <= MAX_QUERY_POINTS
    requires LongestRow(ss) <= I64_MAX && LongestRow(rs) <= I64_MAX
  {
    Window(q.router, q.iface, q.from, q.to,
           Max(MinimumBucketSize(q), Max(LongestRow(ss), LongestRow(rs))))
  }

  lemma PlanAccepts(ss: seq<Contribution>, rs: seq<Contribution>, budget: nat)
    requires budget < I64_MAX
    ensures PlanSources(ss, rs, budget).Ok? <==>
      |ss| + |rs| <= budget && forall c :: c in ss || c in rs ==> Fits(c)
    ensures PlanSources(ss, rs, budget).Ok? ==> LongestRow(ss) <= I64_MAX && LongestRow(rs) <= I64_MAX
  {
  }

  /** The fold of a planned query: accepted on disjoint valid rows, and then it accounts for them. */
  lemma PlannedFold(q: Query, w: Window, budget: nat, samples: seq<Contribution>, rollups: seq<Contribution>, m: Metric)
    requires w.Regular() && w.from == q.from && w.to == q.to
    requires |Select(samples, q.from, q.to)| + |Select(rollups, q.from, q.to)| <= budget
    requires forall c :: c in Select(samples, q.from, q.to) || c in Select(rollups, q.from, q.to) ==> Fits(c)
    ensures var ss, rs := Select(samples, q.from, q.to), Select(rollups, q.from, q.to);
      FoldRows(FOLD_START, Streams(q, samples, rollups), w, budget).Ok?
      <==> AllValid(ss) && AllValid(rs) && DisjointBag(multiset(ss) + multiset(rs))
    ensures var folded := FoldRows(FOLD_START, Streams(q, samples, rollups), w, budget);
      folded.Ok? ==>
        && FoldOk(folded.value, w)
        && Amount(m, folded.value.totals)
           == SumShares(m, samples, q.from, q.to) + SumShares(m, rollups, q.from, q.to)
        && (m.Total() ==> SumBuckets(m, folded.value.buckets) == Amount(m, folded.value.totals))
  {
    StreamsHoldTables(q, samples, rollups, m);
    var rows := Streams(q, samples, rollups);
    StreamAccepted(rows, Select(samples, q.from, q.to), Select(rollups, q.from, q.to));
    FoldAccounts(FOLD_START, rows, w, budget, m);
  }

  lemma StreamAccepted(rows: seq<Contribution>, ss: seq<Contribution>, rs: seq<Contribution>)
    requires InOrder(rows) && multiset(rows) == multiset(ss) + multiset(rs)
    requires forall c :: c in rows <==> c in ss || c in rs
    ensures AllValid(rows) && Chained(None, rows)
       <==> AllValid(ss) && AllValid(rs) && DisjointBag(multiset(ss) + multiset(rs))
  {
    if AllValid(rows) {
      AdjacentCheckIsComplete(rows);
    }
  }

  lemma FoldEndsInWindow(st: FoldState, w: Window)
    requires FoldOk(st, w)
    ensures BucketsOk(w, st.buckets, w.to)
  {
    BucketsStayOk(w, st.buckets, Upto(st, w), w.to);
  }

  /**
   * A query is answered exactly when the rows of its range are within budget, representable,
   * valid and pairwise disjoint. Neither the point limit nor the coverage check ever refuses.
   */
  lemma QueryAcceptsExactly(q: Query, budget: nat, samples: seq<Contribution>, rollups: seq<Contribution>, gaps: nat)
    requires QueryValid(q, budget) && Unsaturated(q) && budget < I64_MAX
    ensures RunQuery(q, budget, samples, rollups, gaps).Ok? <==> RowsAcceptable(q, budget, samples, rollups)
  {
    var ss, rs := Select(samples, q.from, q.to), Select(rollups, q.from, q.to);
    PlanAccepts(ss, rs, budget);
    if PlanSources(ss, rs, budget).Ok? {
      var w := WindowOf(q, ss, rs);
      PlannedFold(q, w, budget, samples, rollups, Time);
      var folded := FoldRows(FOLD_START, Streams(q, samples, rollups), w, budget);
      if folded.Ok? {
        FoldedFitsReport(q, w, folded.value, gaps);
      }
    }
  }

  /** Once folded, the rows fit the point limit and their coverage fits the range. */
  lemma FoldedFitsReport(q: Query, w: Window, st: FoldState, gaps: nat)
    requires 0 < q.maxPoints <= MAX_QUERY_POINTS && Unsaturated(q)
    requires w.from == q.from && w.to == q.to && w.size >= MinimumBucketSize(q) && FoldOk(st, w)
    ensures |st.buckets| <= q.maxPoints && BuildReport(q, w.size, st, gaps).Ok?
  {
    MinimumSizeSuffices(q, w.size);
    FoldEndsInWindow(st, w);
    BucketCountBound(w, st.buckets, q.maxPoints);
  }

  predicate PointSound(q: Query, p: Point) {
    && q.from <= p.start < p.end <= q.to
    && p.tally.exactMs >= 0 && p.tally.estMs >= 0
    && p.tally.exactMs + p.tally.estMs <= p.end - p.start
  }

  /** Points are disjoint, in time order, inside the range, and none covers more than its length. */
  ghost predicate PointsSound(q: Query, points: seq<Point>) {
    && (forall i :: 0 <= i < |points| ==> PointSound(q, points[i]))
    && (forall i :: 0 < i < |points| ==> points[i - 1].end <= points[i].start)
  }

  lemma BucketsBecomeSoundPoints(q: Query, w: Window, t: Tree<Tally>)
    requires w.Regular() && w.from == q.from && w.to == q.to && BucketsOk(w, t, w.to)
    ensures PointsSound(q, PointsOf(t, w.size, q.to))
  {
    PointsMirrorBuckets(t, w.size, q.to, Time);
    var points := PointsOf(t, w.size, q.to);
    forall i | 0 <= i < |points|
      ensures PointSound(q, points[i])
      ensures i > 0 ==> points[i - 1].end <= points[i].start
    {
      assert BucketOk(w, t[i], w.to);
      if i > 0 {
        BucketsApart(w, t, i);
      }
    }
  }

  lemma BucketsApart(w: Window, t: Tree<Tally>, i: int)
    requires w.Regular() && BucketsOk(w, t, w.to) && 0 < i < |t|
    ensures t[i - 1].slot.start + w.size <= t[i].slot.start
  {
    assert BucketOk(w, t[i - 1], w.to) && BucketOk(w, t[i], w.to);
    assert Less(t[i - 1].slot, t[i].slot);
    if t[i].slot.start < t[i - 1].slot.start + w.size {
      SameBucket(w, t[i - 1].slot.start, t[i].slot.start);
      assert false;
    }
  }

  /**
   * Downsampling loses nothing: totals are the rows' shares of the range, the points add up to
   * the totals for bytes and covered time, there are at most `maxPoints` of them, and coverage
   * never exceeds the time it covers.
   */
  lemma ReportAccountsForRows(q: Query, budget: nat, samples: seq<Contribution>, rollups: seq<Contribution>, gaps: nat,
      m: Metric)
    requires q.to - q.from < I64_MAX && budget < I64_MAX
    requires RunQuery(q, budget, samples, rollups, gaps).Ok?
    ensures var report := RunQuery(q, budget, samples, rollups, gaps).value;
      && Amount(m, report.totals) == SumShares(m, samples, q.from, q.to) + SumShares(m, rollups, q.from, q.to)
      && (m.Total() ==> SumPoints(m, report.points) == Amount(m, report.totals))
      && |report.points| <= q.maxPoints
      && report.coveredMs == Amount(Time, report.totals) <= report.requestedMs == q.to - q.from
      && PointsSound(q, report.points)
  {
    var ss, rs := Select(samples, q.from, q.to), Select(rollups, q.from, q.to);
    PlanAccepts(ss, rs, budget);
    var w := WindowOf(q, ss, rs);
    PlannedFold(q, w, budget, samples, rollups, m);
    var st := FoldRows(FOLD_START, Streams(q, samples, rollups), w, budget).value;
    PointsMirrorBuckets(st.buckets, w.size, q.to, m);
    FoldEndsInWindow(st, w);
    BucketsBecomeSoundPoints(q, w, st.buckets);
  }

  /** The planned bucket size lets each row of the range touch at most two buckets. */
  lemma RowTouchesTwoBuckets(q: Query, ss: seq<Contribution>, rs: seq<Contribution>, c: Contribution,
                             buckets: Tree<Tally>, slot: Slot)
    requires QueryValid(q, 1) && q.to - q.from < I64_MAX
    requires LongestRow(ss) <= I64_MAX && LongestRow(rs) <= I64_MAX
    requires (c in ss || c in rs) && RowValid(c) && Selected(c, q.from, q.to)
    requires var w := WindowOf(q, ss, rs); var at: i64, end: i64 := Max(c.start, q.from), Min(c.end, q.to);
      BucketsOk(w, buckets, at) && slot.start != BucketOf(w, at) && slot.start != BucketOf(w, end - 1)
    ensures var w := WindowOf(q, ss, rs); var at: i64, end: i64 := Max(c.start, q.from), Min(c.end, q.to);
      Spread(c, w, at, end, buckets).Ok? && Get(Spread(c, w, at, end, buckets).value, slot) == Get(buckets, slot)
  {
    var w := WindowOf(q, ss, rs);
    SpreadTouchesTwoBuckets(c, w, Max(c.start, q.from), Min(c.end, q.to), buckets, slot);
  }

  lemma ShareBounds(m: Metric, c: Contribution, a: i64, b: i64)
    requires a < b && (Selected(c, a, b) ==> RowValid(c) && Fits(c))
    ensures 0 <= Share(m, c, a, b) <= 2 * I64_MAX
  {
    if Selected(c, a, b) && m.Total() {
      var d: i64 := c.end - c.start;
      var x: i64, y: i64 := Max(c.start, a) - c.start, Min(c.end, b) - c.start;
      SliceSucceeds(Whole(m, c), d, x, y);
    }
  }

  /** Byte totals over the largest admitted number of rows stay far inside 128 bits. */
  lemma {:induction false} TotalsFitI128(m: Metric, rows: seq<Contribution>, a: i64, b: i64)
    requires a < b && forall c :: c in rows && Selected(c, a, b) ==> RowValid(c) && Fits(c)
    ensures 0 <= SumShares(m, rows, a, b) <= 2 * I64_MAX * |rows|
    ensures |rows| <= 1_000_000 ==> SumShares(m, rows, a, b) <= I128_MAX
  {
    if rows != [] {
      assert rows[0] in rows;
      ShareBounds(m, rows[0], a, b);
      TotalsFitI128(m, rows[1..], a, b);
    }
  }

  // ----- additivity

  /** One row over [a,c) gives what it gives over [a,b) and [b,c); exactness is only lost by cutting. */
  lemma ShareSplits(m: Metric, r: Contribution, a: i64, b: i64, c: i64)
    requires a < b < c && (Selected(r, a, c) ==> RowValid(r))
    ensures m.Total() ==> Share(m, r, a, c) == Share(m, r, a, b) + Share(m, r, b, c)
    ensures !m.Total() ==> Share(m, r, a, c) >= Share(m, r, a, b) + Share(m, r, b, c)
  {
  }

  lemma {:induction false} SharesSplit(m: Metric, rows: seq<Contribution>, a: i64, b: i64, c: i64)
    requires a < b < c && forall r :: r in rows && Selected(r, a, c) ==> RowValid(r)
    ensures m.Total() ==> SumShares(m, rows, a, c) == SumShares(m, rows, a, b) + SumShares(m, rows, b, c)
    ensures !m.Total() ==> SumShares(m, rows, a, c) >= SumShares(m, rows, a, b) + SumShares(m, rows, b, c)
  {
    if rows != [] {
      assert rows[0] in rows;
      ShareSplits(m, rows[0], a, b, c);
      SharesSplit(m, rows[1..], a, b, c);
    }
  }

  lemma {:induction false} NarrowerSelection(rows: seq<Contribution>, a: i64, c: i64, from: i64, to: i64)
    requires a <= from && to <= c
    ensures multiset(Select(rows, from, to)) <= multiset(Select(rows, a, c))
    ensures |Select(rows, from, to)| <= |Select(rows, a, c)|
  {
    if rows != [] {
      NarrowerSelection(rows[1..], a, c, from, to);
    }
  }

  lemma SubBagDisjoint(some: multiset<Contribution>, all: multiset<Contribution>)
    requires some <= all && DisjointBag(all)
    ensures DisjointBag(some)
  {
    forall c | c in some ensures some[c] == 1 {
      assert c in all;
    }
  }

  /** Rows acceptable for a range are acceptable for every part of it. */
  lemma PartAcceptable(q: Query, part: Query, budget: nat, samples: seq<Contribution>, rollups: seq<Contribution>)
    requires q.from <= part.from && part.to <= q.to
    requires RowsAcceptable(q, budget, samples, rollups)
    ensures RowsAcceptable(part, budget, samples, rollups)
  {
    NarrowerSelection(samples, q.from, q.to, part.from, part.to);
    NarrowerSelection(rollups, q.from, q.to, part.from, part.to);
    SubBagDisjoint(multiset(Select(samples, part.from, part.to)) + multiset(Select(rollups, part.from, part.to)),
                   multiset(Select(samples, q.from, q.to)) + multiset(Select(rollups, q.from, q.to)));
  }

  /**
   * Additivity: when [a,c) can be answered so can [a,b) and [b,c), whatever their point limits,
   * and bytes and covered time add up exactly; exact bytes and exact time over [a,c) are at
   * least the sum of the parts.
   */
  lemma QueriesAddUp(q: Query, left: Query, right: Query, budget: nat,
                     samples: seq<Contribution>, rollups: seq<Contribution>,
                     gaps: nat, leftGaps: nat, rightGaps: nat, m: Metric)
    requires q.from == left.from < left.to == right.from < right.to == q.to
    requires Unsaturated(q) && Unsaturated(left) && Unsaturated(right) && budget < I64_MAX
    requires QueryValid(left, budget) && QueryValid(right, budget)
    requires RunQuery(q, budget, samples, rollups, gaps).Ok?
    ensures RunQuery(left, budget, samples, rollups, leftGaps).Ok?
    ensures RunQuery(right, budget, samples, rollups, rightGaps).Ok?
    ensures var whole := Amount(m, RunQuery(q, budget, samples, rollups, gaps).value.totals);
      var parts := Amount(m, RunQuery(left, budget, samples, rollups, leftGaps).value.totals)
                 + Amount(m, RunQuery(right, budget, samples, rollups, rightGaps).value.totals);
      if m.Total() then whole == parts else whole >= parts
  {
    QueryAcceptsExactly(q, budget, samples, rollups, gaps);
    PartAcceptable(q, left, budget, samples, rollups);
    PartAcceptable(q, right, budget, samples, rollups);
    QueryAcceptsExactly(left, budget, samples, rollups, leftGaps);
    QueryAcceptsExactly(right, budget, samples, rollups, rightGaps);
    ReportAccountsForRows(q, budget, samples, rollups, gaps, m);
    ReportAccountsForRows(left, budget, samples, rollups, leftGaps, m);
    ReportAccountsForRows(right, budget, samples, rollups, rightGaps, m);
    SharesSplit(m, samples, q.from, left.to, q.to);
    SharesSplit(m, rollups, q.from, left.to, q.to);
  }
}
