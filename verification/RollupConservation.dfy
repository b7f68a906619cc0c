/**
 * A rollup batch moves amounts and never creates or loses any.
 *
 * The laws are stated for an arbitrary row filter, so that they hold for the ledger of one
 * interface and for the rows inside a query range alike. `label` says on which side of the
 * filter a bucket lies.
 */
module RollupConservation {
  import opened Int64
  import opened Outcomes
  import opened Slices
  import opened BTree
  import opened Contributions
  import opened TrafficTables
  import opened RollupBatch

  type Label = Slot -> bool

  // ----- buckets under construction

  predicate BucketSound(e: Entry<Bucket>, size: i64)
    requires size > 0
  {
    var t := e.value.tally;
    && AlignDown(e.slot.start, size) == e.slot.start
    && e.slot.start <= e.value.start < e.value.end <= e.slot.start + size
    && t.exactDown >= 0 && t.exactUp >= 0 && t.estDown >= 0 && t.estUp >= 0
    && t.exactMs >= 0 && t.estMs >= 0 && t.count > 0
    && 0 < t.exactMs + t.estMs <= e.value.end - e.value.start
  }

  ghost predicate BatchSound(t: Tree<Bucket>, size: i64)
    requires size > 0
  {
    Sorted(t) && forall e :: e in t ==> BucketSound(e, size)
  }

  function LabelledAmount(m: Metric, g: Label, e: Entry<Bucket>): int {
    if g(e.slot) then Amount(m, e.value.tally) else 0
  }

  function SumBatch(m: Metric, g: Label, t: Tree<Bucket>): int {
    if t == [] then 0 else LabelledAmount(m, g, t[0]) + SumBatch(m, g, t[1..])
  }

  lemma {:induction false} SumBatchAfterPut(m: Metric, g: Label, t: Tree<Bucket>, k: Slot, v: Bucket)
    ensures SumBatch(m, g, Put(t, k, v)) == SumBatch(m, g, t) + LabelledAmount(m, g, Entry(k, v))
      - (if Get(t, k).Some? then LabelledAmount(m, g, Entry(k, Get(t, k).value)) else 0)
  {
    if t != [] && !Less(k, t[0].slot) && t[0].slot != k {
      SumBatchAfterPut(m, g, t[1..], k, v);
      assert ([t[0]] + Put(t[1..], k, v))[1..] == Put(t[1..], k, v);
    } else if t != [] && t[0].slot == k {
      assert ([Entry(k, v)] + t[1..])[1..] == t[1..];
    } else {
      assert ([Entry(k, v)] + t)[1..] == t;
    }
  }

  // ----- one sample

  /** Amount of a sample that lies before time `x`. Exactness survives only unsplit samples. */
  function Before(m: Metric, s: Sample, exact: bool, x: i64): int
    requires s.duration > 0
  {
    match m
    case Down => RunningShare(s.down, s.duration, SatSub(x, s.start))
    case Up => RunningShare(s.up, s.duration, SatSub(x, s.start))
    case Time => x - s.start
    case ExactDown => if exact then RunningShare(s.down, s.duration, SatSub(x, s.start)) else 0
    case ExactUp => if exact then RunningShare(s.up, s.duration, SatSub(x, s.start)) else 0
    case ExactTime => if exact then x - s.start else 0
  }

  lemma BeforeEnds(m: Metric, s: Sample, exact: bool, x: i64)
    requires RawValid(s) && s.start <= x <= s.end
    ensures Before(m, s, exact, s.start) == 0
    ensures m.Total() || (exact && s.exact) ==> Before(m, s, exact, s.end) == SampleAmount(m, s)
    ensures 0 <= Before(m, s, exact, x) <= Before(m, s, exact, s.end)
  {
    ShareOfEnds(s.down, s.duration);
    ShareOfEnds(s.up, s.duration);
    var r := SatSub(x, s.start);
    SliceSucceeds(s.down, s.duration, 0, r);
    SliceSucceeds(s.up, s.duration, 0, r);
  }

  /** Segment `[at, end)` of a sample, within the bucket at `bucketStart`, added to that bucket. */
  lemma SegmentAdded(s: Sample, size: i64, plannedEnd: i64, at: i64, end: i64, bucketStart: i64, prior: Bucket,
      m: Metric)
    requires size > 0 && RawValid(s) && s.start <= at < end <= plannedEnd <= s.end
    requires bucketStart == AlignDown(at, size) && end <= bucketStart + size
    requires prior == Bucket(EMPTY_TALLY, at, at)
          || (BucketSound(Entry(SlotOf(s.owner, bucketStart), prior), size) && prior.end <= at)
    ensures ProportionalSlice(s.down, s.duration, SatSub(at, s.start), SatSub(end, s.start)).Ok?
    ensures ProportionalSlice(s.up, s.duration, SatSub(at, s.start), SatSub(end, s.start)).Ok?
    ensures var down := ProportionalSlice(s.down, s.duration, SatSub(at, s.start), SatSub(end, s.start)).value;
      var up := ProportionalSlice(s.up, s.duration, SatSub(at, s.start), SatSub(end, s.start)).value;
      var exact := s.exact && !IsSplit(s, size, plannedEnd);
      var filled := AddToBucket(prior, down, up, SatSub(end, at), exact, end);
      && BucketSound(Entry(SlotOf(s.owner, bucketStart), filled), size)
      && filled.end == end && filled.start == prior.start
      && Amount(m, filled.tally)
         == Amount(m, prior.tally) + Before(m, s, exact, end) - Before(m, s, exact, at)
  {
    SliceSucceeds(s.down, s.duration, SatSub(at, s.start), SatSub(end, s.start));
    SliceSucceeds(s.up, s.duration, SatSub(at, s.start), SatSub(end, s.start));
    AlignDownBounds(at, size);
  }

  /** Every bucket the interval `[from, to)` of an owner falls into carries the given flag. */
  ghost predicate Labelled(g: Label, o: Owner, from: int, to: int, size: i64, flag: bool)
    requires size > 0
  {
    forall t: int :: from <= t < to && FitsI64(AlignDown(t, size)) ==> g(SlotOf(o, AlignDown(t, size))) == flag
  }

  function PriorBucket(buckets: Tree<Bucket>, slot: Slot, at: i64): Bucket {
    var found := Get(buckets, slot);
    if found.Some? then found.value else Bucket(EMPTY_TALLY, at, at)
  }

  /**
   * A segment that does not start before its bucket's end is always moved: the bucket of `at`
   * is replaced by a sound one that ends with the segment and holds its amount.
   */
  lemma SegmentShape(s: Sample, size: i64, plannedEnd: i64, at: i64, buckets: Tree<Bucket>, m: Metric)
    returns (slot: Slot, b: Bucket)
    requires size > 0 && RawValid(s) && s.start <= at < plannedEnd <= s.end && BatchSound(buckets, size)
    requires FitsI64(AlignDown(at, size)) && PriorBucket(buckets, SlotOf(s.owner, AlignDown(at, size)), at).end <= at
    ensures slot == SlotOf(s.owner, AlignDown(at, size))
    ensures ConsumeSegment(s, size, plannedEnd, at, buckets) == Ok((Put(buckets, slot, b), b.end))
    ensures at < b.end <= plannedEnd && b.start == PriorBucket(buckets, slot, at).start
    ensures b.tally.count == SatAdd(PriorBucket(buckets, slot, at).tally.count, 1)
    ensures BucketSound(Entry(slot, b), size)
    ensures Amount(m, b.tally) == Amount(m, PriorBucket(buckets, slot, at).tally)
      + Before(m, s, s.exact && !IsSplit(s, size, plannedEnd), b.end)
        - Before(m, s, s.exact && !IsSplit(s, size, plannedEnd), at)
  {
    AlignDownBounds(at, size);
    var bucketStart: i64 := AlignDown(at, size);
    var end: i64 := Min(plannedEnd, SatAdd(bucketStart, size));
    slot := SlotOf(s.owner, bucketStart);
    var prior := PriorBucket(buckets, slot, at);
    GetFinds(buckets, slot);
    SegmentAdded(s, size, plannedEnd, at, end, bucketStart, prior, m);
    var down := ProportionalSlice(s.down, s.duration, SatSub(at, s.start), SatSub(end, s.start)).value;
    var up := ProportionalSlice(s.up, s.duration, SatSub(at, s.start), SatSub(end, s.start)).value;
    b := AddToBucket(prior, down, up, SatSub(end, at), s.exact && !IsSplit(s, size, plannedEnd), end);
  }

  lemma BatchSoundAfterPut(buckets: Tree<Bucket>, slot: Slot, b: Bucket, size: i64)
    requires size > 0 && BatchSound(buckets, size) && BucketSound(Entry(slot, b), size)
    ensures BatchSound(Put(buckets, slot, b), size)
  {
    PutKeepsOrder(buckets, slot, b);
  }

  /** One segment moved: the buckets stay sound and receive exactly the segment's amount. */
  lemma SegmentConserves(s: Sample, size: i64, plannedEnd: i64, at: i64, buckets: Tree<Bucket>, m: Metric, g: Label)
    requires size > 0 && RawValid(s) && s.start <= at < plannedEnd <= s.end && BatchSound(buckets, size)
    requires ConsumeSegment(s, size, plannedEnd, at, buckets).Ok?
    ensures var (filled, end) := ConsumeSegment(s, size, plannedEnd, at, buckets).value;
      var exact := s.exact && !IsSplit(s, size, plannedEnd);
      && FitsI64(AlignDown(at, size))
      && BatchSound(filled, size)
      && SumBatch(m, g, filled) == SumBatch(m, g, buckets)
         + (if g(SlotOf(s.owner, AlignDown(at, size))) then Before(m, s, exact, end) - Before(m, s, exact, at) else 0)
  {
    var slot, b := SegmentShape(s, size, plannedEnd, at, buckets, m);
    SumBatchAfterPut(m, g, buckets, slot, b);
    BatchSoundAfterPut(buckets, slot, b, size);
  }

  /** Consuming a sample: order, progress, and the amounts that reach the buckets. */
  lemma {:induction false} ConsumeConserves(s: Sample, size: i64, plannedEnd: i64, at: i64, budget: nat,
      buckets: Tree<Bucket>,
                                            m: Metric, g: Label, flag: bool)
    requires size > 0 && RawValid(s) && s.start <= at <= plannedEnd <= s.end
    requires BatchSound(buckets, size) && Consume(s, size, plannedEnd, at, budget, buckets).Ok?
    requires Labelled(g, s.owner, at, Consume(s, size, plannedEnd, at, budget, buckets).value.1, size, flag)
    ensures var (buckets', at', budget') := Consume(s, size, plannedEnd, at, budget, buckets).value;
      var exact := s.exact && !IsSplit(s, size, plannedEnd);
      && BatchSound(buckets', size)
      && at <= at' <= plannedEnd && (at' == plannedEnd || budget' == 0)
      && (at < plannedEnd && budget > 0 ==> at < at' && budget' < budget)
      && budget' <= budget
      && SumBatch(m, g, buckets') == SumBatch(m, g, buckets)
         + (if flag then Before(m, s, exact, at') - Before(m, s, exact, at) else 0)
    decreases plannedEnd - at
  {
    if at < plannedEnd && budget > 0 {
      SegmentConserves(s, size, plannedEnd, at, buckets, m, g);
      var (filled, end) := ConsumeSegment(s, size, plannedEnd, at, buckets).value;
      ConsumeConserves(s, size, plannedEnd, end, budget - 1, filled, m, g, flag);
    }
  }

  // ----- what a plan takes from the samples

  function RemainderAmount(m: Metric, r: Remainder): int {
    match m
    case Down => r.down
    case Up => r.up
    case Time => r.end - r.start
    case _ => 0
  }

  function TakenByRemainder(m: Metric, f: Filter, samples: seq<Sample>, r: Remainder): int {
    var found := Lookup(samples, r.id);
    if found.None? then 0
    else
      var s := found.value;
      SampleShare(m, f, s) - (if f(s.owner, r.start, r.end) then RemainderAmount(m, r) else 0)
  }

  function TakenByRemainders(m: Metric, f: Filter, samples: seq<Sample>, rs: seq<Remainder>): int {
    if rs == [] then 0
    else
      var n := |rs| - 1;
      TakenByRemainders(m, f, samples, rs[..n]) + TakenByRemainder(m, f, samples, rs[n])
  }

  function TakenByDelete(m: Metric, f: Filter, samples: seq<Sample>, id: nat): int {
    var found := Lookup(samples, id);
    if found.None? then 0 else SampleShare(m, f, found.value)
  }

  function TakenByDeletes(m: Metric, f: Filter, samples: seq<Sample>, ids: seq<nat>): int {
    if ids == [] then 0
    else
      var n := |ids| - 1;
      TakenByDeletes(m, f, samples, ids[..n]) + TakenByDelete(m, f, samples, ids[n])
  }

  function Taken(m: Metric, f: Filter, samples: seq<Sample>, p: Progress): int {
    TakenByRemainders(m, f, samples, p.remainders) + TakenByDeletes(m, f, samples, p.consumed)
  }

  /** What the plan `done` consumes of a sample, and its remainder, lie on the sample's side of the filter. */
  ghost predicate Uniform(f: Filter, g: Label, s: Sample, size: i64, done: Progress)
    requires size > 0
  {
    var flag := f(s.owner, s.start, s.end);
    && (s.id in done.consumed ==> Labelled(g, s.owner, s.start, s.end, size, flag))
    && (forall r :: r in done.remainders && r.id == s.id ==> Labelled(g, s.owner, s.start, r.start, size, flag))
    && forall x: int :: s.start <= x < s.end ==> f(s.owner, x, s.end) == flag
  }

  /** Everything settled by `p` is settled the same way by `done`. */
  ghost predicate Extends(done: Progress, p: Progress) {
    && (forall id :: id in p.consumed ==> id in done.consumed)
    && forall r :: r in p.remainders ==> r in done.remainders
  }

  /** Conservation of totals; exact amounts may only shrink. */
  predicate Moves(m: Metric, gained: int, taken: int) {
    if m.Total() then gained == taken else gained <= taken
  }

  lemma PlanSampleConserves(p: Progress, s: Sample, size: i64, cutoff: i64, samples: seq<Sample>, m: Metric, f: Filter,
      g: Label, done: Progress)
    requires size > 0 && p.budget > 0 && s.start < cutoff && BatchSound(p.buckets, size)
    requires Lookup(samples, s.id) == Some(s) && Uniform(f, g, s, size, done)
    requires PlanSample(p, s, size, cutoff).Ok? && Extends(done, PlanSample(p, s, size, cutoff).value)
    ensures var p' := PlanSample(p, s, size, cutoff).value;
      && BatchSound(p'.buckets, size) && p'.budget < p.budget
      && Moves(m, SumBatch(m, g, p'.buckets) - SumBatch(m, g, p.buckets),
               Taken(m, f, samples, p') - Taken(m, f, samples, p))
  {
    var plannedEnd: i64 := Min(s.end, cutoff);
    var exact := s.exact && !IsSplit(s, size, plannedEnd);
    var at := PlanSampleShape(p, s, size, cutoff);
    SettledWhere(p, s, at, PlanSample(p, s, size, cutoff).value, done);
    ConsumeConserves(s, size, plannedEnd, s.start, p.budget, p.buckets, m, g, f(s.owner, s.start, s.end));
    BeforeEnds(m, s, exact, at);
    if at == s.end {
      TakenWithDelete(m, f, samples, p, PlanSample(p, s, size, cutoff).value, s);
    } else {
      RestComplementsBefore(m, s, at, exact);
      TakenWithRemainder(m, f, samples, p, PlanSample(p, s, size, cutoff).value, RestOf(s, at));
    }
  }

  lemma SettledWhere(p: Progress, s: Sample, at: i64, p': Progress, done: Progress)
    requires s.duration > 0 && Extends(done, p')
    requires p'.consumed == if at == s.end then p.consumed + [s.id] else p.consumed
    requires p'.remainders == if at == s.end then p.remainders else p.remainders + [RestOf(s, at)]
    ensures at == s.end ==> s.id in done.consumed
    ensures at != s.end ==> RestOf(s, at) in done.remainders
  {
    if at == s.end {
      assert p'.consumed[|p.consumed|] == s.id;
    } else {
      assert p'.remainders[|p.remainders|] == RestOf(s, at);
    }
  }

  /** A planned sample is either fully consumed or leaves the remainder of what was consumed. */
  lemma PlanSampleShape(p: Progress, s: Sample, size: i64, cutoff: i64) returns (at: i64)
    requires size > 0 && s.start < cutoff
    requires PlanSample(p, s, size, cutoff).Ok?
    ensures RawValid(s) && Consume(s, size, Min(s.end, cutoff), s.start, p.budget, p.buckets).Ok?
    ensures at == Consume(s, size, Min(s.end, cutoff), s.start, p.budget, p.buckets).value.1
    ensures s.start <= at <= Min(s.end, cutoff)
    ensures var p' := PlanSample(p, s, size, cutoff).value;
      var consumption := Consume(s, size, Min(s.end, cutoff), s.start, p.budget, p.buckets).value;
      p' == if at == s.end then Progress(consumption.0, consumption.2, p.consumed + [s.id], p.remainders)
            else Progress(consumption.0, consumption.2, p.consumed, p.remainders + [RestOf(s, at)])
  {
    at := Consume(s, size, Min(s.end, cutoff), s.start, p.budget, p.buckets).value.1;
    if at != s.end {
      RestIsPlanned(s, at);
    }
  }

  /** The remainder of a sample consumed up to `at`. */
  function RestOf(s: Sample, at: i64): Remainder
    requires s.duration > 0
  {
    Remainder(s.id, at, s.end, s.down - RunningShare(s.down, s.duration, SatSub(at, s.start)),
              s.up - RunningShare(s.up, s.duration, SatSub(at, s.start)))
  }

  lemma RestIsPlanned(s: Sample, at: i64)
    requires RawValid(s) && s.start <= at < s.end
    ensures ProportionalSlice(s.down, s.duration, 0, SatSub(at, s.start)) == Ok(s.down - RestOf(s, at).down)
    ensures ProportionalSlice(s.up, s.duration, 0, SatSub(at, s.start)) == Ok(s.up - RestOf(s, at).up)
  {
    SliceSucceeds(s.down, s.duration, 0, SatSub(at, s.start));
    SliceSucceeds(s.up, s.duration, 0, SatSub(at, s.start));
  }

  lemma RestComplementsBefore(m: Metric, s: Sample, at: i64, exact: bool)
    requires RawValid(s) && s.start <= at < s.end
    ensures ProportionalSlice(s.down, s.duration, 0, SatSub(at, s.start)) == Ok(s.down - RestOf(s, at).down)
    ensures ProportionalSlice(s.up, s.duration, 0, SatSub(at, s.start)) == Ok(s.up - RestOf(s, at).up)
    ensures 0 <= RestOf(s, at).down <= s.down && 0 <= RestOf(s, at).up <= s.up
    ensures m.Total() ==> Before(m, s, exact, at) == SampleAmount(m, s) - RemainderAmount(m, RestOf(s, at))
    ensures !m.Total() && (exact ==> s.exact) ==> Before(m, s, exact, at) <= SampleAmount(m, s)
  {
    SliceSucceeds(s.down, s.duration, 0, SatSub(at, s.start));
    SliceSucceeds(s.up, s.duration, 0, SatSub(at, s.start));
    ShareOfEnds(s.down, s.duration);
    ShareOfEnds(s.up, s.duration);
  }

  lemma TakenWithDelete(m: Metric, f: Filter, samples: seq<Sample>, p: Progress, p': Progress, s: Sample)
    requires Lookup(samples, s.id) == Some(s)
    requires p'.consumed == p.consumed + [s.id] && p'.remainders == p.remainders
    ensures Taken(m, f, samples, p') == Taken(m, f, samples, p) + SampleShare(m, f, s)
  {
    assert p'.consumed[..|p.consumed|] == p.consumed;
  }

  lemma TakenWithRemainder(m: Metric, f: Filter, samples: seq<Sample>, p: Progress, p': Progress, r: Remainder)
    requires p'.remainders == p.remainders + [r] && p'.consumed == p.consumed
    ensures Taken(m, f, samples, p') == Taken(m, f, samples, p) + TakenByRemainder(m, f, samples, r)
  {
    assert p'.remainders[..|p.remainders|] == p.remainders;
  }

  lemma {:induction false} PlanExtends(p: Progress, batch: seq<Sample>, size: i64, cutoff: i64)
    requires size > 0 && PlanBatch(p, batch, size, cutoff).Ok?
    ensures Extends(PlanBatch(p, batch, size, cutoff).value, p)
    decreases |batch|
  {
    if batch != [] && p.budget > 0 {
      PlanExtends(PlanSample(p, batch[0], size, cutoff).value, batch[1..], size, cutoff);
    }
  }

  lemma {:induction false} BatchConserves(p: Progress, batch: seq<Sample>, size: i64, cutoff: i64, samples: seq<Sample>,
                                          m: Metric, f: Filter, g: Label)
    requires size > 0 && BatchSound(p.buckets, size) && PlanBatch(p, batch, size, cutoff).Ok?
    requires forall s :: s in batch ==>
      s.start < cutoff && Lookup(samples, s.id) == Some(s)
        && Uniform(f, g, s, size, PlanBatch(p, batch, size, cutoff).value)
    ensures var p' := PlanBatch(p, batch, size, cutoff).value;
      && BatchSound(p'.buckets, size)
      && Moves(m, SumBatch(m, g, p'.buckets) - SumBatch(m, g, p.buckets),
               Taken(m, f, samples, p') - Taken(m, f, samples, p))
    decreases |batch|
  {
    if batch != [] && p.budget > 0 {
      assert batch[0] in batch;
      var next := PlanSample(p, batch[0], size, cutoff).value;
      PlanExtends(next, batch[1..], size, cutoff);
      PlanSampleConserves(p, batch[0], size, cutoff, samples, m, f, g, PlanBatch(p, batch, size, cutoff).value);
      BatchConserves(next, batch[1..], size, cutoff, samples, m, f, g);
    }
  }

  // ----- what the rollup table gains

  lemma {:induction false} UpsertConserves(rollups: seq<Rollup>, row: Rollup, batchStart: i64, m: Metric, f: Filter,
      flag: bool)
    requires Upsert(rollups, row, batchStart).Ok? && batchStart <= row.end
    requires f(row.owner, row.start, row.end) == flag
    requires forall r :: r in rollups && SameBucketRow(r, row) ==> f(r.owner, r.start, r.end) == flag
    ensures var stored := Upsert(rollups, row, batchStart).value;
      && SumRollups(m, f, stored) == SumRollups(m, f, rollups) + (if flag then RollupAmount(m, row) else 0)
      && forall r :: r in stored ==> r in rollups || SameBucketRow(r, row)
  {
    if rollups == [] {
    } else if SameBucketRow(rollups[0], row) {
      assert rollups[0] in rollups;
      var merged := MergeRows(rollups[0], row, batchStart);
      assert ([merged] + rollups[1..])[1..] == rollups[1..];
    } else {
      UpsertConserves(rollups[1..], row, batchStart, m, f, flag);
      var rest := Upsert(rollups[1..], row, batchStart).value;
      assert ([rollups[0]] + rest)[1..] == rest;
    }
  }

  /** Bucket rows, stored and existing, lie on the side of the filter their label says. */
  ghost predicate LabelsAgree(rollups: seq<Rollup>, buckets: Tree<Bucket>, size: i64, f: Filter, g: Label) {
    && (forall e :: e in buckets ==> f(Owner(e.slot.router, e.slot.iface), e.slot.start, e.value.end) == g(e.slot))
    && forall e, r :: e in buckets && r in rollups ==>
         SlotOf(r.owner, r.start) == e.slot && r.size == size && r.source == RAW_ROLLUP ==>
         f(r.owner, r.start, r.end) == g(e.slot)
  }

  lemma {:induction false} StoreConserves(rollups: seq<Rollup>, nextId: nat, buckets: Tree<Bucket>, size: i64,
      m: Metric, f: Filter, g: Label)
    requires size > 0 && BatchSound(buckets, size) && LabelsAgree(rollups, buckets, size, f, g)
    requires StoreBuckets(rollups, nextId, buckets, size).Ok?
    ensures SumRollups(m, f, StoreBuckets(rollups, nextId, buckets, size).value)
         == SumRollups(m, f, rollups) + SumBatch(m, g, buckets)
    decreases |buckets|
  {
    if buckets != [] {
      var e := buckets[0];
      assert e in buckets && BucketSound(e, size);
      var row := BucketRow(nextId, e, size).value;
      assert SlotOf(row.owner, row.start) == e.slot;
      UpsertConserves(rollups, row, e.value.start, m, f, g(e.slot));
      var stored := Upsert(rollups, row, e.value.start).value;
      assert forall x :: x in buckets[1..] ==> x in buckets && x.slot != e.slot;
      assert LabelsAgree(stored, buckets[1..], size, f, g);
      StoreConserves(stored, nextId + 1, buckets[1..], size, m, f, g);
    }
  }

  // ----- what the sample table loses

  lemma {:induction false} UpdateConserves(samples: seq<Sample>, r: Remainder, m: Metric, f: Filter)
    requires UpdateRow(samples, r).Ok?
    requires Lookup(samples, r.id).Some? ==> Lookup(samples, r.id).value.end == r.end
    ensures var updated := UpdateRow(samples, r).value;
      && SumSamples(m, f, updated) == SumSamples(m, f, samples) - TakenByRemainder(m, f, samples, r)
      && forall id: nat :: id != r.id ==> Lookup(updated, id) == Lookup(samples, id)
  {
    if samples[0].id == r.id {
      var s' := Shrink(samples[0], r, r.down, r.up);
      assert ([s'] + samples[1..])[1..] == samples[1..];
    } else {
      UpdateConserves(samples[1..], r, m, f);
      var rest := UpdateRow(samples[1..], r).value;
      assert ([samples[0]] + rest)[1..] == rest;
    }
  }

  lemma {:induction false} DeleteConserves(samples: seq<Sample>, id: nat, m: Metric, f: Filter)
    requires DeleteRow(samples, id).Ok?
    ensures var left := DeleteRow(samples, id).value;
      && SumSamples(m, f, left) == SumSamples(m, f, samples) - TakenByDelete(m, f, samples, id)
      && forall other: nat :: other != id ==> Lookup(left, other) == Lookup(samples, other)
  {
    if samples[0].id != id {
      DeleteConserves(samples[1..], id, m, f);
      var rest := DeleteRow(samples[1..], id).value;
      assert ([samples[0]] + rest)[1..] == rest;
    }
  }

  /** No sample is settled twice, and every remainder keeps its sample's end. */
  ghost predicate SettlesOnce(samples: seq<Sample>, p: Progress) {
    && (forall i, j :: 0 <= i < j < |p.remainders| ==> p.remainders[i].id != p.remainders[j].id)
    && (forall i, j :: 0 <= i < j < |p.consumed| ==> p.consumed[i] != p.consumed[j])
    && (forall i, j :: 0 <= i < |p.remainders| && 0 <= j < |p.consumed| ==> p.remainders[i].id != p.consumed[j])
    && (forall id :: id in p.consumed ==> Lookup(samples, id).Some?)
    && forall r :: r in p.remainders ==> Lookup(samples, r.id).Some? && Lookup(samples, r.id).value.end == r.end
  }

  lemma {:induction false} RemaindersConserve(samples: seq<Sample>, p: Progress, n: nat, m: Metric, f: Filter)
    requires SettlesOnce(samples, p) && n <= |p.remainders|
    requires ApplyRemainders(samples, p.remainders[..n]).Ok?
    ensures var shrunk := ApplyRemainders(samples, p.remainders[..n]).value;
      && SumSamples(m, f, shrunk) == SumSamples(m, f, samples) - TakenByRemainders(m, f, samples, p.remainders[..n])
      && forall id: nat :: (forall i :: 0 <= i < n ==> p.remainders[i].id != id) ==>
        Lookup(shrunk, id) == Lookup(samples, id)
  {
    if n > 0 {
      assert p.remainders[..n][..n - 1] == p.remainders[..n - 1];
      RemaindersConserve(samples, p, n - 1, m, f);
      var earlier := ApplyRemainders(samples, p.remainders[..n - 1]).value;
      var r := p.remainders[n - 1];
      assert Lookup(earlier, r.id) == Lookup(samples, r.id);
      UpdateConserves(earlier, r, m, f);
    }
  }

  lemma {:induction false} DeletesConserve(samples: seq<Sample>, shrunk: seq<Sample>, p: Progress, n: nat, m: Metric,
      f: Filter)
    requires SettlesOnce(samples, p) && n <= |p.consumed|
    requires forall id :: id in p.consumed ==> Lookup(shrunk, id) == Lookup(samples, id)
    requires DeleteConsumed(shrunk, p.consumed[..n]).Ok?
    ensures var left := DeleteConsumed(shrunk, p.consumed[..n]).value;
      && SumSamples(m, f, left) == SumSamples(m, f, shrunk) - TakenByDeletes(m, f, samples, p.consumed[..n])
      && forall j :: n <= j < |p.consumed| ==> Lookup(left, p.consumed[j]) == Lookup(samples, p.consumed[j])
  {
    if n > 0 {
      assert p.consumed[..n][..n - 1] == p.consumed[..n - 1];
      DeletesConserve(samples, shrunk, p, n - 1, m, f);
      DeleteConserves(DeleteConsumed(shrunk, p.consumed[..n - 1]).value, p.consumed[n - 1], m, f);
    }
  }
}
