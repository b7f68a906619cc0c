/** Rows a traffic query reads, their validation, and how one row is spread over time buckets. */
module Contributions {
  import opened Int64
  import opened Outcomes
  import opened Slices
  import opened BTree

  /** A raw sample or a rollup row as the query sees it. */
  datatype Contribution = Contribution(
    start: i64, end: i64,
    exactDown: i64, exactUp: i64, estDown: i64, estUp: i64,
    exactMs: i64, estMs: i64, count: i64)

  /** Running totals of one time bucket, or of a whole query. */
  datatype Tally = Tally(
    exactDown: int, exactUp: int, estDown: int, estUp: int,
    exactMs: i64, estMs: i64, count: i64)

  const EMPTY_TALLY := Tally(0, 0, 0, 0, 0, 0, 0)

  /** The quantities conservation laws are stated about. */
  datatype Metric = Down | Up | Time | ExactDown | ExactUp | ExactTime {
    predicate Total() { Down? || Up? || Time? }
  }

  /** Range of a query on one interface and the bucket size it is reported in. */
  datatype Window = Window(router: int, iface: int, from: i64, to: i64, size: i64) {
    /** The range is increasing and its length does not saturate 64-bit arithmetic. */
    predicate Regular() {
      from < to && to - from < I64_MAX && size > 0
    }
  }

  function Amount(m: Metric, t: Tally): int {
    match m
    case Down => t.exactDown + t.estDown
    case Up => t.exactUp + t.estUp
    case Time => t.exactMs + t.estMs
    case ExactDown => t.exactDown
    case ExactUp => t.exactUp
    case ExactTime => t.exactMs
  }

  // ----- one row

  function Duration(c: Contribution): i64 { SatSub(c.end, c.start) }

  function Covered(c: Contribution): i64 { SatAdd(c.exactMs, c.estMs) }

  /** The row passes every check that concerns it alone. */
  predicate RowValid(c: Contribution) {
    && Duration(c) > 0
    && c.exactDown >= 0 && c.exactUp >= 0 && c.estDown >= 0 && c.estUp >= 0
    && c.exactMs >= 0 && c.estMs >= 0 && Covered(c) <= Duration(c)
    && c.count > 0
    && !(Covered(c) == 0 && c.exactDown + c.exactUp + c.estDown + c.estUp > 0)
  }

  function Validate(c: Contribution, previousEnd: Option<i64>): Result<()> {
    if !RowValid(c) then Err(Verification)
    else if previousEnd.Some? && c.start < previousEnd.value then Err(Verification)
    else Ok(())
  }

  /** Amount of a metric held by the whole row. */
  function Whole(m: Metric, c: Contribution): int {
    match m
    case Down => c.exactDown + c.estDown
    case Up => c.exactUp + c.estUp
    case Time => Covered(c)
    case ExactDown => c.exactDown
    case ExactUp => c.exactUp
    case ExactTime => c.exactMs
  }

  /** The row's length is representable, which the planning step has already required. */
  predicate Fits(c: Contribution) { c.end - c.start <= I64_MAX }

  /** Amount of a metric that lies before time `t` of a row. */
  function Cut(m: Metric, c: Contribution, t: int): int
    requires c.start < c.end
  {
    RunningShare(Whole(m, c), c.end - c.start, t - c.start)
  }

  /**
   * What a row gives to the segment `[s, e)` of its interval: totals are shared in
   * proportion, exactness survives only when the row is taken whole.
   */
  function Piece(m: Metric, c: Contribution, s: int, e: int): int
    requires c.start < c.end
  {
    if m.Total() then Cut(m, c, e) - Cut(m, c, s)
    else if s == c.start && e == c.end then Whole(m, c)
    else 0
  }

  /** Adds the segment `[s, e)` of a row to a tally, with every check of the program. */
  function AddSegment(t: Tally, c: Contribution, s: i64, e: i64): Result<Tally> {
    var relStart := SatSub(s, c.start);
    var relEnd := SatSub(e, c.start);
    if s == c.start && e == c.end then
      Ok(Tally(
        t.exactDown + c.exactDown, t.exactUp + c.exactUp,
        t.estDown + c.estDown, t.estUp + c.estUp,
        SatAdd(t.exactMs, c.exactMs), SatAdd(t.estMs, c.estMs), SatAdd(t.count, c.count)))
    else
      var down :- ProportionalSlice(c.exactDown + c.estDown, Duration(c), relStart, relEnd);
      var up :- ProportionalSlice(c.exactUp + c.estUp, Duration(c), relStart, relEnd);
      var covered :- ProportionalSlice(Covered(c), Duration(c), relStart, relEnd);
      if !FitsI64(covered) then Err(Verification)
      else
        Ok(t.(estDown := t.estDown + down, estUp := t.estUp + up,
              estMs := SatAdd(t.estMs, Min(covered, SatSub(e, s))),
              count := SatAdd(t.count, c.count)))
  }

  /**
   * On a valid row and a segment of it `AddSegment` never fails, adds exactly the row's
   * piece of every metric, and adds no more covered time than the segment is long, so the
   * clamp on the covered time never binds.
   */
  lemma SegmentAddsPiece(t: Tally, c: Contribution, s: i64, e: i64, m: Metric)
    requires RowValid(c) && Fits(c) && c.start <= s < e <= c.end && e - s < I64_MAX
    requires t.exactMs >= 0 && t.estMs >= 0 && t.exactMs + t.estMs + (e - s) <= I64_MAX
    ensures AddSegment(t, c, s, e).Ok?
    ensures var t' := AddSegment(t, c, s, e).value;
      && Amount(m, t') == Amount(m, t) + Piece(m, c, s, e)
      && t'.exactMs >= t.exactMs && t'.estMs >= t.estMs
      && t'.exactMs + t'.estMs <= t.exactMs + t.estMs + (e - s)
  {
    var d := Duration(c);
    assert d == c.end - c.start;
    if s == c.start && e == c.end {
      ShareOfEnds(Whole(m, c), d);
    } else {
      PartAdded(t, c, s, e);
    }
  }

  /** A proper part of a row adds the three proportional slices, all as estimates. */
  lemma PartAdded(t: Tally, c: Contribution, s: i64, e: i64)
    requires RowValid(c) && Fits(c) && c.start <= s < e <= c.end && !(s == c.start && e == c.end)
    requires t.exactMs >= 0 && t.estMs >= 0 && t.exactMs + t.estMs + (e - s) <= I64_MAX
    ensures 0 <= Cut(Time, c, e) - Cut(Time, c, s) <= e - s
    ensures AddSegment(t, c, s, e) == Ok(t.(
      estDown := t.estDown + Cut(Down, c, e) - Cut(Down, c, s),
      estUp := t.estUp + Cut(Up, c, e) - Cut(Up, c, s),
      estMs := t.estMs + Cut(Time, c, e) - Cut(Time, c, s),
      count := SatAdd(t.count, c.count)))
  {
    var d := Duration(c);
    var x: i64, y: i64 := s - c.start, e - c.start;
    SliceSucceeds(Whole(Down, c), d, x, y);
    SliceSucceeds(Whole(Up, c), d, x, y);
    SliceSucceeds(Whole(Time, c), d, x, y);
    ShareOutpacedByTime(Covered(c), d, x, y);
  }

  // ----- spreading a row over buckets

  /** Start of the bucket that holds time `t`. */
  function BucketOf(w: Window, t: int): int
    requires w.size > 0
  {
    w.from + (t - w.from) / w.size * w.size
  }

  lemma BucketOfBounds(w: Window, t: int)
    requires w.size > 0 && w.from <= t
    ensures w.from <= BucketOf(w, t) <= t < BucketOf(w, t) + w.size
    ensures BucketOf(w, BucketOf(w, t)) == BucketOf(w, t)
  {
    var q := (t - w.from) / w.size;
    MulMonotone(w.size, 0, q);
    DivCancels(q, w.size);
  }

  /** Two times in one bucket-long stretch that starts at a bucket boundary share the bucket. */
  lemma SameBucket(w: Window, k: int, t: int)
    requires w.size > 0 && w.from <= k && BucketOf(w, k) == k && k <= t < k + w.size
    ensures BucketOf(w, t) == k
  {
    var q := (k - w.from) / w.size;
    DivShift(t - k, q, w.size);
    assert t - k + q * w.size == t - w.from;
    QuotientSmall(t - k, w.size);
  }

  lemma QuotientSmall(a: int, d: int)
    requires 0 <= a < d
    ensures a / d == 0
  {
  }

  /** The bucket start as the program computes it, with saturating steps. */
  function BucketStart(w: Window, t: i64): i64
    requires w.size > 0 && w.from <= t
  {
    SatAdd(w.from, SatMul(SatSub(t, w.from) / w.size, w.size))
  }

  lemma BucketStartExact(w: Window, t: i64)
    requires w.Regular() && w.from <= t < w.to
    ensures BucketStart(w, t) == BucketOf(w, t)
  {
    BucketOfBounds(w, t);
    var q := (t - w.from) / w.size;
    assert FitsI64(q * w.size);
  }

  /** Spreads `[at, end)` of a row over the buckets, one bucket per step. */
  function Spread(c: Contribution, w: Window, at: i64, end: i64, buckets: Tree<Tally>): Result<Tree<Tally>>
    requires w.size > 0 && w.from <= at
    decreases end - at
  {
    if at >= end then Ok(buckets)
    else
      var bucket := BucketStart(w, at);
      var bucketEnd := Min(SatAdd(bucket, w.size), w.to);
      var segmentEnd := Min(end, bucketEnd);
      if segmentEnd <= at then Err(Verification)
      else
        var slot := Slot(w.router, w.iface, bucket);
        var prior := Get(buckets, slot);
        var tally :- AddSegment(if prior.Some? then prior.value else EMPTY_TALLY, c, at, segmentEnd);
        Spread(c, w, segmentEnd, end, Put(buckets, slot, tally))
  }

  /** Sum of a metric over all buckets. */
  function SumBuckets(m: Metric, t: Tree<Tally>): int {
    if t == [] then 0 else Amount(m, t[0].value) + SumBuckets(m, t[1..])
  }

  function AmountIn(m: Metric, t: Tree<Tally>, k: Slot): int {
    if Get(t, k).Some? then Amount(m, Get(t, k).value) else 0
  }

  lemma {:induction false} SumAfterPut(m: Metric, t: Tree<Tally>, k: Slot, v: Tally)
    ensures SumBuckets(m, Put(t, k, v)) == SumBuckets(m, t) - AmountIn(m, t, k) + Amount(m, v)
  {
    if t != [] && !Less(k, t[0].slot) && t[0].slot != k {
      SumAfterPut(m, t[1..], k, v);
      assert ([t[0]] + Put(t[1..], k, v))[1..] == Put(t[1..], k, v);
    } else if t != [] && t[0].slot == k {
      assert ([Entry(k, v)] + t[1..])[1..] == t[1..];
    } else {
      assert ([Entry(k, v)] + t)[1..] == t;
    }
  }

  /**
   * A bucket filled by rows that end by `upto`: it starts at a bucket boundary of the window
   * and covers no more time than has passed in it.
   */
  predicate BucketOk(w: Window, e: Entry<Tally>, upto: int)
    requires w.size > 0
  {
    && e.slot.router == w.router && e.slot.iface == w.iface
    && w.from <= e.slot.start < upto
    && BucketOf(w, e.slot.start) == e.slot.start
    && e.value.exactMs >= 0 && e.value.estMs >= 0
    && e.value.exactMs + e.value.estMs <= Min(upto, e.slot.start + w.size) - e.slot.start
  }

  ghost predicate BucketsOk(w: Window, t: Tree<Tally>, upto: int)
    requires w.size > 0
  {
    Sorted(t) && forall e :: e in t ==> BucketOk(w, e, upto)
  }

  /** `[at, end)` is a part of a valid row and of the window. */
  predicate PartOf(c: Contribution, w: Window, at: i64, end: i64) {
    && w.Regular() && RowValid(c) && Fits(c)
    && Max(c.start, w.from) <= at <= end <= Min(c.end, w.to)
  }

  /** One step of `Spread`: the bucket of `at` receives the segment `[at, e)`. */
  lemma SpreadStep(c: Contribution, w: Window, at: i64, e: i64, buckets: Tree<Tally>, m: Metric)
    returns (tally: Tally)
    requires PartOf(c, w, at, e) && at < e <= BucketOf(w, at) + w.size
    requires BucketsOk(w, buckets, at) && FitsI64(BucketOf(w, at))
    ensures var slot := Slot(w.router, w.iface, BucketOf(w, at));
      var prior := Get(buckets, slot);
      && AddSegment(if prior.Some? then prior.value else EMPTY_TALLY, c, at, e) == Ok(tally)
      && SumBuckets(m, Put(buckets, slot, tally)) == SumBuckets(m, buckets) + Piece(m, c, at, e)
      && BucketsOk(w, Put(buckets, slot, tally), e)
  {
    BucketOfBounds(w, at);
    var k := BucketOf(w, at);
    var slot := Slot(w.router, w.iface, k);
    var prior := Get(buckets, slot);
    GetFinds(buckets, slot);
    var t := if prior.Some? then prior.value else EMPTY_TALLY;
    assert prior.Some? ==> BucketOk(w, Entry(slot, prior.value), at);
    assert t.exactMs + t.estMs <= at - k;
    SegmentAddsPiece(t, c, at, e, m);
    tally := AddSegment(t, c, at, e).value;
    SumAfterPut(m, buckets, slot, tally);
    PutKeepsOrder(buckets, slot, tally);
    assert BucketOk(w, Entry(slot, tally), e);
    forall x | x in Put(buckets, slot, tally) ensures BucketOk(w, x, e) {
      if x.slot != slot {
        assert x in buckets;
        assert BucketOk(w, x, at);
      }
    }
  }

  /**
   * Spreading a valid row never fails, conserves every total metric, and leaves each bucket
   * covered by no more than its elapsed time.
   */
  lemma {:induction false} SpreadConserves(c: Contribution, w: Window, at: i64, end: i64, buckets: Tree<Tally>,
      m: Metric)
    requires PartOf(c, w, at, end) && m.Total()
    requires BucketsOk(w, buckets, at)
    ensures Spread(c, w, at, end, buckets).Ok?
    ensures BucketsOk(w, Spread(c, w, at, end, buckets).value, end)
    ensures SumBuckets(m, Spread(c, w, at, end, buckets).value)
         == SumBuckets(m, buckets) + Cut(m, c, end) - Cut(m, c, at)
    decreases end - at
  {
    if at < end {
      BucketOfBounds(w, at);
      BucketStartExact(w, at);
      var bucket := BucketStart(w, at);
      var segmentEnd := Min(end, Min(SatAdd(bucket, w.size), w.to));
      var tally := SpreadStep(c, w, at, segmentEnd, buckets, m);
      SpreadConserves(c, w, segmentEnd, end, Put(buckets, Slot(w.router, w.iface, bucket), tally), m);
    }
  }

  /**
   * The part `[at, end)` of a row that ends with its bucket or with the row is spread in one
   * step, which changes that bucket only.
   */
  lemma SpreadInOneBucket(c: Contribution, w: Window, at: i64, end: i64, later: i64, buckets: Tree<Tally>, slot: Slot)
    returns (filled: Tree<Tally>)
    requires PartOf(c, w, at, end) && at < end
    requires end <= later && end == Min(later, BucketOf(w, at) + w.size)
    requires BucketsOk(w, buckets, at)
    requires slot.start != BucketOf(w, at)
    ensures BucketsOk(w, filled, end)
    ensures Get(filled, slot) == Get(buckets, slot)
    ensures Spread(c, w, at, later, buckets) == Spread(c, w, end, later, filled)
  {
    BucketOfBounds(w, at);
    BucketStartExact(w, at);
    var k := BucketStart(w, at);
    assert Min(later, Min(SatAdd(k, w.size), w.to)) == end;
    var tally := SpreadStep(c, w, at, end, buckets, Time);
    var home := Slot(w.router, w.iface, k);
    filled := Put(buckets, home, tally);
    GetAfterPut(buckets, home, tally, slot);
  }

  lemma SpreadAcrossBoundary(c: Contribution, w: Window, at: i64, boundary: i64, end: i64, buckets: Tree<Tally>,
      slot: Slot)
    requires PartOf(c, w, at, end) && at < boundary < end <= boundary + w.size
    requires boundary == BucketOf(w, at) + w.size && BucketOf(w, boundary) == BucketOf(w, end - 1) == boundary
    requires BucketsOk(w, buckets, at)
    requires slot.start != BucketOf(w, at) && slot.start != BucketOf(w, end - 1)
    ensures Spread(c, w, at, end, buckets).Ok?
    ensures Get(Spread(c, w, at, end, buckets).value, slot) == Get(buckets, slot)
  {
    var first := SpreadInOneBucket(c, w, at, boundary, end, buckets, slot);
    var second := SpreadInOneBucket(c, w, boundary, end, end, first, slot);
    assert Spread(c, w, end, end, second) == Ok(second);
  }

  /** A row no longer than a bucket changes only the buckets of its first and last millisecond. */
  lemma SpreadTouchesTwoBuckets(c: Contribution, w: Window, at: i64, end: i64, buckets: Tree<Tally>, slot: Slot)
    requires PartOf(c, w, at, end) && at < end <= at + w.size
    requires BucketsOk(w, buckets, at)
    requires slot.start != BucketOf(w, at) && slot.start != BucketOf(w, end - 1)
    ensures Spread(c, w, at, end, buckets).Ok?
    ensures Get(Spread(c, w, at, end, buckets).value, slot) == Get(buckets, slot)
  {
    BucketOfBounds(w, at);
    var boundary := BucketOf(w, at) + w.size;
    if boundary < end {
      BucketOfNext(w, BucketOf(w, at));
      SameBucket(w, boundary, end - 1);
      SpreadAcrossBoundary(c, w, at, boundary, end, buckets, slot);
    } else {
      var only := SpreadInOneBucket(c, w, at, end, end, buckets, slot);
      assert Spread(c, w, end, end, only) == Ok(only);
    }
  }

  lemma BucketOfNext(w: Window, k: int)
    requires w.size > 0 && w.from <= k && BucketOf(w, k) == k
    ensures BucketOf(w, k + w.size) == k + w.size
  {
    DivShift(k - w.from, 1, w.size);
    assert k - w.from + 1 * w.size == k + w.size - w.from;
    var q := (k - w.from) / w.size;
    assert (q + 1) * w.size == q * w.size + w.size;
  }
}
