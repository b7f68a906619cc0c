/** The resolution of a report and what each of its points holds. */
module QueryPoints {
  import opened Int64
  import opened Outcomes
  import opened Slices
  import opened BTree
  import opened Contributions
  import opened RowStreams
  import opened TrafficQuery
  import opened QueryTheorems
  import SortKeys

  // ----- the bucket size

  /** Buckets of this size report the range within the point limit and are as long as every row read. */
  ghost predicate Resolves(q: Query, samples: seq<Contribution>, rollups: seq<Contribution>, size: int) {
    && size > 0 && q.to - q.from <= q.maxPoints * size
    && (forall c :: c in samples && Selected(c, q.from, q.to) ==> c.end - c.start <= size)
    && forall c :: c in rollups && Selected(c, q.from, q.to) ==> c.end - c.start <= size
  }

  lemma LeastQuotient(range: int, n: int, size: int)
    requires n > 0 && range <= n * size
    ensures (range + n - 1) / n <= size
  {
    DivMonotone(range + n - 1, size * n + (n - 1), n);
    DivShift(n - 1, size, n);
    QuotientSmall(n - 1, n);
    assert n - 1 + size * n == size * n + (n - 1);
  }

  lemma LongestIsNeeded(q: Query, rows: seq<Contribution>, size: int)
    requires size > 0
    requires forall c :: c in rows && Selected(c, q.from, q.to) ==> c.end - c.start <= size
    ensures LongestRow(Select(rows, q.from, q.to)) <= size
  {
    var longest := LongestRow(Select(rows, q.from, q.to));
    if longest != 1 {
      var c :| c in Select(rows, q.from, q.to) && c.end - c.start == longest;
      assert c in rows;
    }
  }

  /**
   * The reported bucket size is the least one that keeps the range within the point limit and is
   * no shorter than any row read.
   */
  lemma BucketSizeIsLeast(q: Query, budget: nat, samples: seq<Contribution>, rollups: seq<Contribution>, gaps: nat)
    requires Unsaturated(q) && budget < I64_MAX && RunQuery(q, budget, samples, rollups, gaps).Ok?
    ensures var size := RunQuery(q, budget, samples, rollups, gaps).value.bucketSize;
      && Resolves(q, samples, rollups, size)
      && forall other :: Resolves(q, samples, rollups, other) ==> size <= other
  {
    var ss, rs := Select(samples, q.from, q.to), Select(rollups, q.from, q.to);
    PlanAccepts(ss, rs, budget);
    var size := RunQuery(q, budget, samples, rollups, gaps).value.bucketSize;
    assert size == Max(MinimumBucketSize(q), Max(LongestRow(ss), LongestRow(rs)));
    MinimumSizeSuffices(q, size);
    forall other | Resolves(q, samples, rollups, other) ensures size <= other {
      NoSmallerResolves(q, samples, rollups, other);
    }
  }

  lemma MinimumIsNeeded(q: Query, size: int)
    requires QueryValid(q, 1) && Unsaturated(q) && size > 0 && q.to - q.from <= q.maxPoints * size
    ensures MinimumBucketSize(q) <= size
  {
    var range, n := q.to - q.from, q.maxPoints;
    assert MinimumBucketSize(q) == Max((range + n - 1) / n, 1);
    LeastQuotient(range, n, size);
  }

  lemma NoSmallerResolves(q: Query, samples: seq<Contribution>, rollups: seq<Contribution>, size: int)
    requires QueryValid(q, 1) && Unsaturated(q) && Resolves(q, samples, rollups, size)
    ensures MinimumBucketSize(q) <= size
    ensures LongestRow(Select(samples, q.from, q.to)) <= size && LongestRow(Select(rollups, q.from, q.to)) <= size
  {
    MinimumIsNeeded(q, size);
    LongestIsNeeded(q, samples, size);
    LongestIsNeeded(q, rollups, size);
  }

  // ----- one bucket

  /** End of the window's bucket that starts at `k`. */
  function BucketEnd(w: Window, k: int): int { Min(k + w.size, w.to) }

  function CountOf(t: Tree<Tally>, k: Slot): int {
    if Get(t, k).Some? then Get(t, k).value.count else 0
  }

  function Home(w: Window, k: i64): Slot { Slot(w.router, w.iface, k) }

  /** Source rows counted by the rows of a list that overlap `[a, b)`. */
  function CountRows(rows: seq<Contribution>, a: i64, b: i64): int {
    if rows == [] then 0 else (if Selected(rows[0], a, b) then rows[0].count else 0) + CountRows(rows[1..], a, b)
  }

  /** Start of one of the window's buckets. */
  predicate BucketAt(w: Window, k: int)
    requires w.size > 0
  {
    w.from <= k < w.to && BucketOf(w, k) == k
  }

  /** What `[at, end)` of a row gives to the bucket at `k`. */
  function GivenTo(m: Metric, c: Contribution, w: Window, k: int, at: int, end: int): int
    requires c.start < c.end
  {
    var s, e := Max(at, k), Min(end, BucketEnd(w, k));
    if s < e then Piece(m, c, s, e) else 0
  }

  predicate Meets(w: Window, k: int, at: int, end: int) { Max(at, k) < Min(end, BucketEnd(w, k)) }

  lemma BucketsDoNotMeet(w: Window, j: int, k: int)
    requires w.size > 0 && w.from <= j && w.from <= k && BucketOf(w, j) == j && BucketOf(w, k) == k && j != k
    ensures j + w.size <= k || k + w.size <= j
  {
    if j < k < j + w.size {
      SameBucket(w, j, k);
      assert false;
    } else if k < j < k + w.size {
      SameBucket(w, k, j);
      assert false;
    }
  }

  /** Buckets never empty once they exist. */
  predicate Counted(t: Tree<Tally>, k: Slot) {
    Get(t, k).Some? ==> 0 < Get(t, k).value.count
  }

  lemma SegmentCounts(t: Tally, c: Contribution, s: i64, e: i64)
    requires AddSegment(t, c, s, e).Ok?
    ensures AddSegment(t, c, s, e).value.count == SatAdd(t.count, c.count)
  {
  }

  /** The segment `[at, e)` of the bucket at `j` goes to the bucket at `k` whole or not at all. */
  lemma GivenStep(m: Metric, c: Contribution, w: Window, j: int, k: int, at: int, e: int, end: int)
    requires c.start < c.end && w.size > 0 && BucketAt(w, k) && w.from <= j && BucketOf(w, j) == j
    requires j <= at < e <= end <= w.to && e == Min(end, j + w.size)
    ensures GivenTo(m, c, w, k, at, end) - GivenTo(m, c, w, k, e, end) == if j == k then Piece(m, c, at, e) else 0
    ensures Meets(w, k, at, end) <==> j == k || Meets(w, k, e, end)
    ensures j == k ==> !Meets(w, k, e, end)
  {
    if j != k {
      BucketsDoNotMeet(w, j, k);
    }
  }

  /** What `after` holds at a slot more than `before`. */
  predicate Gains(m: Metric, before: Tree<Tally>, after: Tree<Tally>, slot: Slot, share: int, count: int) {
    && Counted(before, slot) && Counted(after, slot)
    && AmountIn(m, after, slot) == AmountIn(m, before, slot) + share
    && CountOf(after, slot) == Min(I64_MAX, CountOf(before, slot) + count)
  }

  lemma GainsAddUp(m: Metric, a: Tree<Tally>, b: Tree<Tally>, c: Tree<Tally>, slot: Slot, first: int, second: int,
      n: nat, k: nat)
    requires Gains(m, a, b, slot, first, n) && Gains(m, b, c, slot, second, k)
    ensures Gains(m, a, c, slot, first + second, n + k)
  {
  }

  lemma NothingGained(m: Metric, t: Tree<Tally>, slot: Slot)
    requires Counted(t, slot)
    ensures Gains(m, t, t, slot, 0, 0)
  {
  }

  lemma PutGains(m: Metric, t: Tree<Tally>, home: Slot, slot: Slot, tally: Tally, share: int, count: int)
    requires Sorted(t) && Counted(t, slot) && count > 0
    requires Amount(m, tally) == AmountIn(m, t, home) + share && tally.count == Clamp(CountOf(t, home) + count)
    ensures Gains(m, t, Put(t, home, tally), slot, if slot == home then share else 0, if slot == home then count else 0)
  {
    GetAfterPut(t, home, tally, slot);
  }

  /** One step of the spread, seen from the bucket at `k`. */
  lemma SpreadHead(c: Contribution, w: Window, at: i64, e: i64, end: i64, buckets: Tree<Tally>, m: Metric)
    returns (home: Slot, tally: Tally)
    requires PartOf(c, w, at, end) && at < e <= end && e == Min(end, BucketOf(w, at) + w.size)
    requires BucketsOk(w, buckets, at)
    ensures FitsI64(BucketOf(w, at)) && home == Home(w, BucketOf(w, at))
    ensures Spread(c, w, at, end, buckets) == Spread(c, w, e, end, Put(buckets, home, tally))
    ensures BucketsOk(w, Put(buckets, home, tally), e)
    ensures Amount(m, tally) == AmountIn(m, buckets, home) + Piece(m, c, at, e)
    ensures tally.count == Clamp(CountOf(buckets, home) + c.count)
  {
    BucketOfBounds(w, at);
    BucketStartExact(w, at);
    var k := BucketStart(w, at);
    home := Home(w, k);
    tally := SpreadStep(c, w, at, e, buckets, m);
    assert e == Min(end, Min(SatAdd(k, w.size), w.to));
    SpreadUnfolds(c, w, at, e, end, buckets, k, tally);
    TallyGains(c, at, e, buckets, home, tally, m);
  }

  lemma SpreadUnfolds(c: Contribution, w: Window, at: i64, e: i64, end: i64, buckets: Tree<Tally>, k: i64, tally: Tally)
    requires w.size > 0 && w.from <= at < e && at < end && k == BucketStart(w, at)
    requires e == Min(end, Min(SatAdd(k, w.size), w.to))
    requires AddSegment(if Get(buckets, Home(w, k)).Some? then Get(buckets, Home(w, k)).value else EMPTY_TALLY,
                        c, at, e) == Ok(tally)
    ensures Spread(c, w, at, end, buckets) == Spread(c, w, e, end, Put(buckets, Home(w, k), tally))
  {
  }

  lemma TallyGains(c: Contribution, at: i64, e: i64, buckets: Tree<Tally>, home: Slot, tally: Tally, m: Metric)
    requires c.start < c.end
    requires AddSegment(if Get(buckets, home).Some? then Get(buckets, home).value else EMPTY_TALLY, c, at, e)
      == Ok(tally)
    requires SumBuckets(m, Put(buckets, home, tally)) == SumBuckets(m, buckets) + Piece(m, c, at, e)
    ensures Amount(m, tally) == AmountIn(m, buckets, home) + Piece(m, c, at, e)
    ensures tally.count == Clamp(CountOf(buckets, home) + c.count)
  {
    SumAfterPut(m, buckets, home, tally);
    SegmentCounts(if Get(buckets, home).Some? then Get(buckets, home).value else EMPTY_TALLY, c, at, e);
  }

  lemma StepGives(c: Contribution, w: Window, at: i64, e: i64, end: i64, buckets: Tree<Tally>, m: Metric, k: i64)
    returns (filled: Tree<Tally>)
    requires PartOf(c, w, at, end) && at < e <= end && e == Min(end, BucketOf(w, at) + w.size)
    requires BucketsOk(w, buckets, at) && BucketAt(w, k) && Counted(buckets, Home(w, k))
    ensures Spread(c, w, at, end, buckets) == Spread(c, w, e, end, filled)
    ensures BucketsOk(w, filled, e)
    ensures Gains(m, buckets, filled, Home(w, k),
                  if BucketOf(w, at) == k then Piece(m, c, at, e) else 0, if BucketOf(w, at) == k then c.count else 0)
  {
    var home, tally := SpreadHead(c, w, at, e, end, buckets, m);
    filled := Put(buckets, home, tally);
    PutGains(m, buckets, home, Home(w, k), tally, Piece(m, c, at, e), c.count);
  }

  lemma StepThenRest(c: Contribution, w: Window, j: int, k: i64, at: int, e: int, end: int, m: Metric,
      first: Tree<Tally>, second: Tree<Tally>, third: Tree<Tally>)
    requires c.start < c.end && c.count >= 0 && w.size > 0 && BucketAt(w, k) && w.from <= j && BucketOf(w, j) == j
    requires j <= at < e <= end <= w.to && e == Min(end, j + w.size)
    requires Gains(m, first, second, Home(w, k),
                   if j == k then Piece(m, c, at, e) else 0, if j == k then c.count else 0)
    requires Gains(m, second, third, Home(w, k),
                   GivenTo(m, c, w, k, e, end), if Meets(w, k, e, end) then c.count else 0)
    ensures Gains(m, first, third, Home(w, k),
                  GivenTo(m, c, w, k, at, end), if Meets(w, k, at, end) then c.count else 0)
  {
    GivenStep(m, c, w, j, k, at, e, end);
    GainsAddUp(m, first, second, third, Home(w, k), if j == k then Piece(m, c, at, e) else 0,
               GivenTo(m, c, w, k, e, end), if j == k then c.count else 0,
               if Meets(w, k, e, end) then c.count else 0);
  }

  /** Spreading a row gives the bucket at `k` exactly the row's piece of it, and counts the row once there. */
  lemma {:induction false} SpreadGives(c: Contribution, w: Window, at: i64, end: i64, buckets: Tree<Tally>, m: Metric,
      k: i64)
    requires PartOf(c, w, at, end) && BucketsOk(w, buckets, at) && BucketAt(w, k)
    requires Counted(buckets, Home(w, k))
    ensures Spread(c, w, at, end, buckets).Ok?
    ensures Gains(m, buckets, Spread(c, w, at, end, buckets).value, Home(w, k), GivenTo(m, c, w, k, at, end),
                  if Meets(w, k, at, end) then c.count else 0)
    decreases end - at
  {
    if at < end {
      BucketOfBounds(w, at);
      var j := BucketOf(w, at);
      var e: i64 := Min(end, j + w.size);
      var filled := StepGives(c, w, at, e, end, buckets, m, k);
      SpreadGives(c, w, e, end, filled, m, k);
      StepThenRest(c, w, j, k, at, e, end, m, buckets, filled, Spread(c, w, at, end, buckets).value);
    } else {
      NothingGained(m, buckets, Home(w, k));
    }
  }

  // ----- all rows

  /** One row of the fold, seen from the bucket at `k`. */
  lemma RowGives(st: FoldState, c: Contribution, w: Window, budget: nat, m: Metric, k: i64)
    requires FoldOk(st, w) && Fits(c) && Selected(c, w.from, w.to) && st.processed < budget && BucketAt(w, k)
    requires Counted(st.buckets, Home(w, k)) && FoldStep(st, c, w, budget).Ok?
    ensures var next := FoldStep(st, c, w, budget).value;
      && FoldOk(next, w) && next.processed == st.processed + 1 && RowValid(c)
      && Gains(m, st.buckets, next.buckets, Home(w, k), Share(m, c, k, BucketEnd(w, k)),
               if Selected(c, k, BucketEnd(w, k)) then c.count else 0)
  {
    StepAccounts(st, c, w, budget, m);
    var s: i64, e: i64 := Max(c.start, w.from), Min(c.end, w.to);
    assert Upto(st, w) <= s < e;
    BucketsStayOk(w, st.buckets, Upto(st, w), s);
    SpreadGives(c, w, s, e, st.buckets, m, k);
  }

  lemma {:induction false} FoldGives(st: FoldState, rows: seq<Contribution>, w: Window, budget: nat, m: Metric, k: i64)
    requires FoldOk(st, w) && st.processed + |rows| <= budget && BucketAt(w, k)
    requires forall c :: c in rows ==> Fits(c) && Selected(c, w.from, w.to)
    requires Counted(st.buckets, Home(w, k)) && FoldRows(st, rows, w, budget).Ok?
    ensures CountRows(rows, k, BucketEnd(w, k)) >= 0
    ensures Gains(m, st.buckets, FoldRows(st, rows, w, budget).value.buckets, Home(w, k),
                  SumShares(m, rows, k, BucketEnd(w, k)), CountRows(rows, k, BucketEnd(w, k)))
    decreases |rows|
  {
    if rows == [] {
      NothingGained(m, st.buckets, Home(w, k));
    } else {
      assert rows == [rows[0]] + rows[1..];
      var next := FoldStep(st, rows[0], w, budget).value;
      RowGives(st, rows[0], w, budget, m, k);
      FoldGives(next, rows[1..], w, budget, m, k);
      var done := FoldRows(next, rows[1..], w, budget).value;
      assert FoldRows(st, rows, w, budget).value == done;
      RowThenRest(st.buckets, next.buckets, done.buckets, Home(w, k), m, rows, k, BucketEnd(w, k));
    }
  }

  lemma RowThenRest(a: Tree<Tally>, b: Tree<Tally>, c: Tree<Tally>, slot: Slot, m: Metric, rows: seq<Contribution>,
      from: i64, to: i64)
    requires rows != [] && CountRows(rows[1..], from, to) >= 0 && rows[0].count >= 0
    requires Gains(m, a, b, slot, Share(m, rows[0], from, to), if Selected(rows[0], from, to) then rows[0].count else 0)
    requires Gains(m, b, c, slot, SumShares(m, rows[1..], from, to), CountRows(rows[1..], from, to))
    ensures CountRows(rows, from, to) >= 0
    ensures Gains(m, a, c, slot, SumShares(m, rows, from, to), CountRows(rows, from, to))
  {
    GainsAddUp(m, a, b, c, slot, Share(m, rows[0], from, to), SumShares(m, rows[1..], from, to),
               if Selected(rows[0], from, to) then rows[0].count else 0, CountRows(rows[1..], from, to));
  }

  // ----- back to the tables

  /** A row outside the query's range gives nothing to a bucket of it. */
  lemma {:induction false} SharesOfPart(m: Metric, rows: seq<Contribution>, from: i64, to: i64, a: i64, b: i64)
    requires from <= a && b <= to
    ensures SumShares(m, Select(rows, from, to), a, b) == SumShares(m, rows, a, b)
    ensures CountRows(Select(rows, from, to), a, b) == CountRows(rows, a, b)
  {
    if rows != [] {
      SharesOfPart(m, rows[1..], from, to, a, b);
      if Selected(rows[0], from, to) {
        assert Select(rows, from, to)[1..] == Select(rows[1..], from, to);
      }
    }
  }

  lemma {:induction false} CountOfInsert(c: Contribution, rows: seq<Contribution>, a: i64, b: i64)
    ensures CountRows(SortKeys.Insert(c, rows, EndKey), a, b)
         == (if Selected(c, a, b) then c.count else 0) + CountRows(rows, a, b)
  {
    if rows == [] || KeyLeq(c, rows[0]) {
      assert ([c] + rows)[1..] == rows;
    } else {
      CountOfInsert(c, rows[1..], a, b);
      var rest := SortKeys.Insert(c, rows[1..], EndKey);
      assert ([rows[0]] + rest)[1..] == rest;
    }
  }

  lemma {:induction false} CountOfSort(rows: seq<Contribution>, a: i64, b: i64)
    ensures CountRows(SortByEnd(rows), a, b) == CountRows(rows, a, b)
  {
    if rows != [] {
      CountOfSort(rows[1..], a, b);
      CountOfInsert(rows[0], SortByEnd(rows[1..]), a, b);
    }
  }

  lemma {:induction false} CountOfMerge(x: seq<Contribution>, y: seq<Contribution>, a: i64, b: i64)
    ensures CountRows(Merge(x, y), a, b) == CountRows(x, a, b) + CountRows(y, a, b)
  {
    if x != [] && y != [] {
      if KeyLeq(x[0], y[0]) {
        CountOfMerge(x[1..], y, a, b);
        assert Merge(x, y)[1..] == Merge(x[1..], y);
      } else {
        CountOfMerge(x, y[1..], a, b);
        assert Merge(x, y)[1..] == Merge(x, y[1..]);
      }
    }
  }

  lemma StreamsOfPart(q: Query, samples: seq<Contribution>, rollups: seq<Contribution>, m: Metric, a: i64, b: i64)
    requires q.from <= a && b <= q.to
    ensures SumShares(m, Streams(q, samples, rollups), a, b)
         == SumShares(m, samples, a, b) + SumShares(m, rollups, a, b)
    ensures CountRows(Streams(q, samples, rollups), a, b) == CountRows(samples, a, b) + CountRows(rollups, a, b)
  {
    var ss, rs := Select(samples, q.from, q.to), Select(rollups, q.from, q.to);
    SharesOfMerge(m, SortByEnd(ss), SortByEnd(rs), a, b);
    SharesOfSort(m, ss, a, b);
    SharesOfSort(m, rs, a, b);
    CountOfMerge(SortByEnd(ss), SortByEnd(rs), a, b);
    CountOfSort(ss, a, b);
    CountOfSort(rs, a, b);
    SharesOfPart(m, samples, q.from, q.to, a, b);
    SharesOfPart(m, rollups, q.from, q.to, a, b);
  }

  /** The tree holds at the slot what the rows of the tables give to `[from, to)`. */
  ghost predicate HoldsShares(m: Metric, t: Tree<Tally>, slot: Slot, samples: seq<Contribution>,
      rollups: seq<Contribution>, from: i64, to: i64)
  {
    && AmountIn(m, t, slot) == SumShares(m, samples, from, to) + SumShares(m, rollups, from, to)
    && CountOf(t, slot) == Min(I64_MAX, CountRows(samples, from, to) + CountRows(rollups, from, to))
    && (Get(t, slot).Some? <==> CountRows(samples, from, to) + CountRows(rollups, from, to) > 0)
  }

  lemma GainedFromNothing(m: Metric, t: Tree<Tally>, slot: Slot, share: int, count: nat)
    requires Gains(m, [], t, slot, share, count)
    ensures AmountIn(m, t, slot) == share && CountOf(t, slot) == Min(I64_MAX, count)
    ensures Get(t, slot).Some? <==> count > 0
  {
  }

  lemma StreamsFit(q: Query, budget: nat, samples: seq<Contribution>, rollups: seq<Contribution>)
    requires |Select(samples, q.from, q.to)| + |Select(rollups, q.from, q.to)| <= budget
    requires forall c :: c in Select(samples, q.from, q.to) || c in Select(rollups, q.from, q.to) ==> Fits(c)
    ensures |Streams(q, samples, rollups)| <= budget
    ensures forall c :: c in Streams(q, samples, rollups) ==> Fits(c) && Selected(c, q.from, q.to)
  {
    StreamsHoldTables(q, samples, rollups, Time);
  }

  /** Each bucket of a planned query holds the shares of its own interval. */
  lemma BucketHolds(q: Query, w: Window, budget: nat, samples: seq<Contribution>, rollups: seq<Contribution>,
      rows: seq<Contribution>, m: Metric, k: i64)
    requires w.Regular() && w.from == q.from && w.to == q.to && BucketAt(w, k)
    requires |rows| <= budget && (forall c :: c in rows ==> Fits(c) && Selected(c, w.from, w.to))
    requires rows == Streams(q, samples, rollups) && FoldRows(FOLD_START, rows, w, budget).Ok?
    ensures HoldsShares(m, FoldRows(FOLD_START, rows, w, budget).value.buckets, Home(w, k),
                        samples, rollups, k, BucketEnd(w, k))
  {
    FoldFromStart(rows, w, budget, m, k);
    StreamsOfPart(q, samples, rollups, m, k, BucketEnd(w, k));
  }

  lemma FoldFromStart(rows: seq<Contribution>, w: Window, budget: nat, m: Metric, k: i64)
    requires w.Regular() && |rows| <= budget && BucketAt(w, k)
    requires forall c :: c in rows ==> Fits(c) && Selected(c, w.from, w.to)
    requires FoldRows(FOLD_START, rows, w, budget).Ok?
    ensures var t := FoldRows(FOLD_START, rows, w, budget).value.buckets;
      && AmountIn(m, t, Home(w, k)) == SumShares(m, rows, k, BucketEnd(w, k))
      && CountOf(t, Home(w, k)) == Min(I64_MAX, CountRows(rows, k, BucketEnd(w, k)))
      && (Get(t, Home(w, k)).Some? <==> CountRows(rows, k, BucketEnd(w, k)) > 0)
  {
    FoldGives(FOLD_START, rows, w, budget, m, k);
    GainedFromNothing(m, FoldRows(FOLD_START, rows, w, budget).value.buckets, Home(w, k),
                      SumShares(m, rows, k, BucketEnd(w, k)), CountRows(rows, k, BucketEnd(w, k)));
  }

  /** The point lies on the grid of the report and holds the rows' shares of its own interval. */
  ghost predicate PointTells(q: Query, size: int, samples: seq<Contribution>, rollups: seq<Contribution>, m: Metric,
      p: Point)
    requires size > 0
  {
    && q.from <= p.start && (p.start - q.from) % size == 0 && p.end == Min(p.start + size, q.to)
    && Amount(m, p.tally) == SumShares(m, samples, p.start, p.end) + SumShares(m, rollups, p.start, p.end)
    && p.tally.count == Min(I64_MAX, CountRows(samples, p.start, p.end) + CountRows(rollups, p.start, p.end))
  }

  predicate HasPoint(points: seq<Point>, k: int) { exists p :: p in points && p.start == k }

  /** Some row overlaps the bucket of the grid that starts at `k`. */
  ghost predicate RowsAt(q: Query, size: int, samples: seq<Contribution>, rollups: seq<Contribution>, k: i64)
    requires size > 0
  {
    && q.from <= k < q.to && (k - q.from) % size == 0
    && CountRows(samples, k, Min(k + size, q.to)) + CountRows(rollups, k, Min(k + size, q.to)) > 0
  }

  /** A bucket of the grid has a point exactly when some row overlaps it. */
  ghost predicate PointsWhereRows(q: Query, size: int, samples: seq<Contribution>, rollups: seq<Contribution>,
      points: seq<Point>)
    requires size > 0
  {
    forall k: i64 :: HasPoint(points, k) <==> RowsAt(q, size, samples, rollups, k)
  }

  /**
   * Each point starts a multiple of the bucket size after the start of the range, ends with its
   * bucket or with the range, and holds exactly the rows' shares of its own interval; every bucket
   * that some row overlaps has a point, and no other has one.
   */
  lemma PointsHoldShares(q: Query, budget: nat, samples: seq<Contribution>, rollups: seq<Contribution>, gaps: nat,
      m: Metric)
    requires q.to - q.from < I64_MAX && budget < I64_MAX && RunQuery(q, budget, samples, rollups, gaps).Ok?
    ensures var report := RunQuery(q, budget, samples, rollups, gaps).value;
      && report.bucketSize > 0
      && (forall p :: p in report.points ==> PointTells(q, report.bucketSize, samples, rollups, m, p))
      && PointsWhereRows(q, report.bucketSize, samples, rollups, report.points)
  {
    var ss, rs := Select(samples, q.from, q.to), Select(rollups, q.from, q.to);
    PlanAccepts(ss, rs, budget);
    var w := WindowOf(q, ss, rs);
    PlannedFold(q, w, budget, samples, rollups, m);
    var st := FoldRows(FOLD_START, Streams(q, samples, rollups), w, budget).value;
    FoldEndsInWindow(st, w);
    StreamsFit(q, budget, samples, rollups);
    forall k: i64 | BucketAt(w, k)
      ensures HoldsShares(m, st.buckets, Home(w, k), samples, rollups, k, BucketEnd(w, k))
    {
      BucketHolds(q, w, budget, samples, rollups, Streams(q, samples, rollups), m, k);
    }
    PointsTell(q, w, st.buckets, samples, rollups, m);
    PointsStand(q, w, st.buckets, samples, rollups, m);
  }

  /** All buckets of a window hold the shares of their intervals. */
  ghost predicate WindowHolds(w: Window, t: Tree<Tally>, samples: seq<Contribution>, rollups: seq<Contribution>,
      m: Metric)
    requires w.size > 0
  {
    forall k: i64 :: BucketAt(w, k) ==> HoldsShares(m, t, Home(w, k), samples, rollups, k, BucketEnd(w, k))
  }

  lemma PointHolds(q: Query, w: Window, t: Tree<Tally>, samples: seq<Contribution>, rollups: seq<Contribution>,
      m: Metric, i: nat)
    requires w.Regular() && w.from == q.from && w.to == q.to && BucketsOk(w, t, w.to)
    requires WindowHolds(w, t, samples, rollups, m) && i < |t|
    ensures PointTells(q, w.size, samples, rollups, m,
                       Point(t[i].slot.start, Min(SatAdd(t[i].slot.start, w.size), q.to), t[i].value))
  {
    PointIsBucket(w, t, i);
    assert HoldsShares(m, t, Home(w, t[i].slot.start), samples, rollups, t[i].slot.start,
                       BucketEnd(w, t[i].slot.start));
  }

  lemma PointsTell(q: Query, w: Window, t: Tree<Tally>, samples: seq<Contribution>, rollups: seq<Contribution>,
      m: Metric)
    requires w.Regular() && w.from == q.from && w.to == q.to && BucketsOk(w, t, w.to)
    requires WindowHolds(w, t, samples, rollups, m)
    ensures forall p :: p in PointsOf(t, w.size, q.to) ==> PointTells(q, w.size, samples, rollups, m, p)
  {
    PointsMirrorBuckets(t, w.size, q.to, m);
    var points := PointsOf(t, w.size, q.to);
    forall p | p in points ensures PointTells(q, w.size, samples, rollups, m, p) {
      var i :| 0 <= i < |points| && points[i] == p;
      PointHolds(q, w, t, samples, rollups, m, i);
    }
  }

  lemma PointsStand(q: Query, w: Window, t: Tree<Tally>, samples: seq<Contribution>, rollups: seq<Contribution>,
      m: Metric)
    requires w.Regular() && w.from == q.from && w.to == q.to && BucketsOk(w, t, w.to)
    requires WindowHolds(w, t, samples, rollups, m)
    ensures PointsWhereRows(q, w.size, samples, rollups, PointsOf(t, w.size, q.to))
  {
    forall k: i64 ensures HasPoint(PointsOf(t, w.size, q.to), k) <==> RowsAt(q, w.size, samples, rollups, k) {
      PointAt(w, t, q.to, k);
      if q.from <= k < q.to && (k - q.from) % w.size == 0 {
        MultipleIsBucket(w, k);
        assert HoldsShares(m, t, Home(w, k), samples, rollups, k, BucketEnd(w, k));
      }
    }
  }

  lemma MultipleIsBucket(w: Window, k: int)
    requires w.size > 0 && w.from <= k < w.to
    ensures (k - w.from) % w.size == 0 <==> BucketAt(w, k)
  {
    assert k - w.from == (k - w.from) / w.size * w.size + (k - w.from) % w.size;
  }

  lemma PointIsBucket(w: Window, t: Tree<Tally>, i: nat)
    requires w.Regular() && BucketsOk(w, t, w.to) && i < |t|
    ensures var k := t[i].slot.start;
      t[i].slot == Home(w, k) && BucketAt(w, k) && (k - w.from) % w.size == 0 && Get(t, Home(w, k)) == Some(t[i].value)
  {
    assert BucketOk(w, t[i], w.to);
    GetFinds(t, t[i].slot);
    MultipleIsBucket(w, t[i].slot.start);
  }

  lemma PointAt(w: Window, t: Tree<Tally>, to: i64, k: i64)
    requires w.Regular() && BucketsOk(w, t, w.to)
    ensures HasPoint(PointsOf(t, w.size, to), k) <==> Get(t, Home(w, k)).Some?
    ensures HasPoint(PointsOf(t, w.size, to), k) ==> w.from <= k < w.to && (k - w.from) % w.size == 0
  {
    if Get(t, Home(w, k)).Some? {
      GetFinds(t, Home(w, k));
      SlotHasPoint(w, t, to, k);
    }
    if HasPoint(PointsOf(t, w.size, to), k) {
      var i := PointHasSlot(w, t, to, k);
      PointIsBucket(w, t, i);
    }
  }

  lemma SlotHasPoint(w: Window, t: Tree<Tally>, to: i64, k: i64)
    requires w.size > 0 && exists e :: e in t && e.slot == Home(w, k)
    ensures HasPoint(PointsOf(t, w.size, to), k)
  {
    PointsMirrorBuckets(t, w.size, to, Time);
    var e :| e in t && e.slot == Home(w, k);
    var i :| 0 <= i < |t| && t[i] == e;
    assert PointsOf(t, w.size, to)[i] in PointsOf(t, w.size, to);
  }

  lemma PointHasSlot(w: Window, t: Tree<Tally>, to: i64, k: i64) returns (i: nat)
    requires w.size > 0 && HasPoint(PointsOf(t, w.size, to), k)
    ensures i < |t| && t[i].slot.start == k
  {
    var points := PointsOf(t, w.size, to);
    PointsMirrorBuckets(t, w.size, to, Time);
    var p :| p in points && p.start == k;
    i :| 0 <= i < |points| && points[i] == p;
  }
}
