/** A rollup batch is invisible to every query whose range cuts no row, except for lost exactness. */
module RollupRefinement {
  import opened Int64
  import opened Outcomes
  import opened Slices
  import opened BTree
  import opened Contributions
  import opened RowStreams
  import opened TrafficQuery
  import opened QueryTheorems
  import opened TrafficTables
  import opened RollupBatch
  import opened RollupConservation
  import opened RollupTheorems

  // ----- consumed time is covered by buckets

  /** Some bucket of the interface holds time `t` and reaches beyond it. */
  ghost predicate HeldByBucket(buckets: Tree<Bucket>, o: Owner, t: int, size: i64)
    requires size > 0
  {
    && FitsI64(AlignDown(t, size))
    && exists e :: e in buckets && e.slot == SlotOf(o, AlignDown(t, size)) && t < e.value.end
  }

  ghost predicate HeldOver(buckets: Tree<Bucket>, o: Owner, from: int, to: int, size: i64)
    requires size > 0
  {
    forall t :: from <= t < to ==> HeldByBucket(buckets, o, t, size)
  }

  lemma HeldOverJoin(later: Tree<Bucket>, earlier: Tree<Bucket>, o: Owner, from: int, middle: int, to: int, size: i64)
    requires size > 0 && Reaches(later, earlier)
    requires HeldOver(earlier, o, from, middle, size) && HeldOver(later, o, middle, to, size)
    ensures HeldOver(later, o, from, to, size)
  {
    forall t | from <= t < to ensures HeldByBucket(later, o, t, size) {
      if t < middle {
        HeldLater(later, earlier, o, t, size);
      }
    }
  }

  /** Buckets never disappear and never end earlier. */
  ghost predicate Reaches(later: Tree<Bucket>, earlier: Tree<Bucket>) {
    forall e {:trigger ReachesBucket(later, e)} :: e in earlier ==> ReachesBucket(later, e)
  }

  ghost predicate ReachesBucket(later: Tree<Bucket>, e: Entry<Bucket>) {
    exists x :: x in later && x.slot == e.slot && x.value.end >= e.value.end
  }

  lemma ReachesTransitive(c: Tree<Bucket>, b: Tree<Bucket>, a: Tree<Bucket>)
    requires Reaches(c, b) && Reaches(b, a)
    ensures Reaches(c, a)
  {
    forall e | e in a ensures ReachesBucket(c, e) {
      assert ReachesBucket(b, e);
      var y :| y in b && y.slot == e.slot && y.value.end >= e.value.end;
      assert ReachesBucket(c, y);
    }
  }

  lemma HeldLater(later: Tree<Bucket>, earlier: Tree<Bucket>, o: Owner, t: int, size: i64)
    requires size > 0 && Reaches(later, earlier) && HeldByBucket(earlier, o, t, size)
    ensures HeldByBucket(later, o, t, size)
  {
    var e :| e in earlier && e.slot == SlotOf(o, AlignDown(t, size)) && t < e.value.end;
    assert ReachesBucket(later, e);
  }

  lemma SegmentReaches(s: Sample, size: i64, plannedEnd: i64, at: i64, buckets: Tree<Bucket>)
    requires size > 0 && RawValid(s) && s.start <= at < plannedEnd <= s.end && BatchSound(buckets, size)
    requires ConsumeSegment(s, size, plannedEnd, at, buckets).Ok?
    ensures var (filled, end) := ConsumeSegment(s, size, plannedEnd, at, buckets).value;
      && BatchSound(filled, size) && Reaches(filled, buckets)
      && HeldOver(filled, s.owner, at, end, size)
  {
    AlignDownBounds(at, size);
    var slot, b := SegmentShape(s, size, plannedEnd, at, buckets, Time);
    BatchSoundAfterPut(buckets, slot, b, size);
    PutKeepsOrder(buckets, slot, b);
    GetFinds(buckets, slot);
    var filled := Put(buckets, slot, b);
    assert Entry(slot, b) in filled;
    forall e | e in buckets ensures ReachesBucket(filled, e) {
      if e.slot == slot {
        assert Entry(slot, b) in filled;
      } else {
        assert e in filled;
      }
    }
    forall t | at <= t < b.end ensures HeldByBucket(filled, s.owner, t, size) {
      AlignedWithin(at, t, size);
    }
  }

  lemma AlignedWithin(at: int, t: int, size: int)
    requires size > 0 && at <= t < AlignDown(at, size) + size
    ensures AlignDown(t, size) == AlignDown(at, size)
  {
    AlignDownBounds(at, size);
    var k := AlignDown(at, size);
    DivShift(t - k, at / size, size);
    assert t - k + at / size * size == t;
    QuotientSmall(t - k, size);
  }

  lemma {:induction false} ConsumeReaches(s: Sample, size: i64, plannedEnd: i64, at: i64, budget: nat,
      buckets: Tree<Bucket>)
    requires size > 0 && RawValid(s) && s.start <= at <= plannedEnd <= s.end && BatchSound(buckets, size)
    requires Consume(s, size, plannedEnd, at, budget, buckets).Ok?
    ensures var (filled, end, left) := Consume(s, size, plannedEnd, at, budget, buckets).value;
      && BatchSound(filled, size) && Reaches(filled, buckets)
      && HeldOver(filled, s.owner, at, end, size)
    decreases plannedEnd - at
  {
    if at < plannedEnd && budget > 0 {
      SegmentReaches(s, size, plannedEnd, at, buckets);
      var (first, middle) := ConsumeSegment(s, size, plannedEnd, at, buckets).value;
      ConsumeReaches(s, size, plannedEnd, middle, budget - 1, first);
      var (filled, end, left) := Consume(s, size, plannedEnd, middle, budget - 1, first).value;
      ReachesTransitive(filled, first, buckets);
      HeldOverJoin(filled, first, s.owner, at, middle, end, size);
    }
  }

  /** Time a plan has consumed of a sample is held by the plan's buckets. */
  ghost predicate ConsumedIsHeld(p: Progress, s: Sample, size: i64)
    requires size > 0
  {
    && (s.id in p.consumed ==> HeldOver(p.buckets, s.owner, s.start, s.end, size))
    && forall r :: r in p.remainders && r.id == s.id ==> HeldOver(p.buckets, s.owner, s.start, r.start, size)
  }

  lemma HeldAfterStep(p: Progress, s: Sample, size: i64, cutoff: i64, x: Sample)
    requires size > 0 && p.budget > 0 && s.start < cutoff && BatchSound(p.buckets, size)
    requires PlanSample(p, s, size, cutoff).Ok?
    requires x.id == s.id ==> x == s && s.id !in p.consumed && forall r :: r in p.remainders ==> r.id != s.id
    requires x.id != s.id ==> ConsumedIsHeld(p, x, size)
    ensures BatchSound(PlanSample(p, s, size, cutoff).value.buckets, size)
    ensures ConsumedIsHeld(PlanSample(p, s, size, cutoff).value, x, size)
  {
    var at := PlanSampleShape(p, s, size, cutoff);
    var p' := PlanSample(p, s, size, cutoff).value;
    ConsumeReaches(s, size, Min(s.end, cutoff), s.start, p.budget, p.buckets);
    if x.id != s.id {
      forall t | HeldByBucket(p.buckets, x.owner, t, size) ensures HeldByBucket(p'.buckets, x.owner, t, size) {
        HeldLater(p'.buckets, p.buckets, x.owner, t, size);
      }
    }
  }

  /** After a whole batch, for every sample of the table. */
  lemma {:induction false} HeldAfterBatch(p: Progress, batch: seq<Sample>, size: i64, cutoff: i64, samples: seq<Sample>,
      x: Sample)
    requires size > 0 && BatchSound(p.buckets, size) && SettlesOnce(samples, p) && Untouched(p, batch)
      && UniqueSampleIds(batch)
    requires forall s :: s in batch ==> s.start < cutoff && Lookup(samples, s.id) == Some(s)
    requires Lookup(samples, x.id) == Some(x) && ConsumedIsHeld(p, x, size)
    requires PlanBatch(p, batch, size, cutoff).Ok?
    ensures ConsumedIsHeld(PlanBatch(p, batch, size, cutoff).value, x, size)
    decreases |batch|
  {
    if batch != [] && p.budget > 0 {
      var s, rest := batch[0], batch[1..];
      assert s in batch;
      HeldAfterStep(p, s, size, cutoff, x);
      StepSettlesOnce(p, batch, size, cutoff, samples);
      HeldAfterBatch(PlanSample(p, s, size, cutoff).value, rest, size, cutoff, samples, x);
    }
  }

  // ----- stored rows of buckets

  predicate IsRowOf(r: Rollup, e: Entry<Bucket>) {
    r.owner == Owner(e.slot.router, e.slot.iface) && r.start == e.slot.start && r.end == e.value.end
  }

  lemma {:induction false} UpsertHas(rollups: seq<Rollup>, row: Rollup, batchStart: i64)
    requires Upsert(rollups, row, batchStart).Ok? && batchStart <= row.end
    ensures var stored := Upsert(rollups, row, batchStart).value;
      && (exists r :: r in stored && SameBucketRow(r, row) && r.end == row.end)
      && forall x :: x in rollups && !SameBucketRow(x, row) ==> x in stored
  {
    if rollups != [] && !SameBucketRow(rollups[0], row) {
      UpsertHas(rollups[1..], row, batchStart);
      var rest := Upsert(rollups[1..], row, batchStart).value;
      var r :| r in rest && SameBucketRow(r, row) && r.end == row.end;
      assert r in [rollups[0]] + rest;
    } else {
      var stored := Upsert(rollups, row, batchStart).value;
      assert stored[0] in stored;
    }
  }

  /** Every bucket of the batch ends up as a row that ends where the bucket ends. */
  lemma {:induction false} StoreHas(rollups: seq<Rollup>, nextId: nat, buckets: Tree<Bucket>, size: i64)
    requires size > 0 && BatchSound(buckets, size) && StoreBuckets(rollups, nextId, buckets, size).Ok?
    ensures var stored := StoreBuckets(rollups, nextId, buckets, size).value;
      && (forall e :: e in buckets ==> exists r :: r in stored && IsRowOf(r, e))
      && forall x :: x in rollups && (forall e :: e in buckets ==> SlotOf(x.owner, x.start) != e.slot) ==> x in stored
    decreases |buckets|
  {
    if buckets != [] {
      var e := buckets[0];
      assert e in buckets && BucketSound(e, size);
      var row := BucketRow(nextId, e, size).value;
      UpsertHas(rollups, row, e.value.start);
      var next := Upsert(rollups, row, e.value.start).value;
      StoreHas(next, nextId + 1, buckets[1..], size);
      var own :| own in next && SameBucketRow(own, row) && own.end == row.end;
      forall x | x in buckets[1..] ensures SlotOf(own.owner, own.start) != x.slot {
        assert Less(e.slot, x.slot);
      }
      assert IsRowOf(own, e);
      assert forall x :: x in buckets <==> x == e || x in buckets[1..];
    }
  }

  // ----- ranges that cut no row

  predicate Uncut(start: int, end: int, a: int, b: int) {
    end <= a || b <= start || (a <= start && end <= b)
  }

  /** No row of the interface crosses an end of the range `[a, b)`. */
  ghost predicate RangeCutsNothing(t: Tables, o: Owner, a: int, b: int) {
    && (forall s :: s in t.samples && s.owner == o ==> Uncut(s.start, s.end, a, b))
    && forall r :: r in t.rollups && r.owner == o ==> Uncut(r.start, r.end, a, b)
  }

  /** Rows satisfy the interval check of their table. */
  ghost predicate IntervalsNonEmpty(t: Tables) {
    && (forall s :: s in t.samples ==> s.start < s.end)
    && forall r :: r in t.rollups ==> r.start < r.end
  }

  function InsideFilter(o: Owner, a: int, b: int): Filter {
    (x: Owner, start: int, end: int) => x == o && a <= start && end <= b
  }

  /** Buckets of the plan that lie inside the range. */
  function InsideLabel(buckets: Tree<Bucket>, o: Owner, a: int, b: int): Label {
    (k: Slot) => k.router == o.router && k.iface == o.iface && a <= k.start
                 && Get(buckets, k).Some? && Get(buckets, k).value.end <= b
  }

  /** A bucket row and any uncut interval that shares a moment with it lie on the same side. */
  lemma SameSide(e: Entry<Bucket>, start: int, end: int, t: int, a: int, b: int)
    requires Uncut(start, end, a, b) && Uncut(e.slot.start, e.value.end, a, b)
    requires start <= t < end && e.slot.start <= t < e.value.end
    ensures a <= start && end <= b <==> a <= e.slot.start && e.value.end <= b
  {
  }

  lemma ConsumedOnOneSide(t: Tables, p: Progress, size: i64, s: Sample, o: Owner, a: int, b: int)
    requires size > 0 && BatchSound(p.buckets, size) && s.start < s.end && ConsumedIsHeld(p, s, size)
    requires forall r :: r in p.remainders && r.id == s.id ==> r.start < s.end
    requires s.owner == o ==> Uncut(s.start, s.end, a, b)
    requires forall e :: e in p.buckets && e.slot.router == o.router && e.slot.iface == o.iface ==>
      Uncut(e.slot.start, e.value.end, a, b)
    ensures Uniform(InsideFilter(o, a, b), InsideLabel(p.buckets, o, a, b), s, size, p)
  {
    var f, g := InsideFilter(o, a, b), InsideLabel(p.buckets, o, a, b);
    var flag := f(s.owner, s.start, s.end);
    forall x: int | s.start <= x < s.end && FitsI64(AlignDown(x, size)) && HeldByBucket(p.buckets, s.owner, x, size)
      ensures g(SlotOf(s.owner, AlignDown(x, size))) == flag
    {
      var e :| e in p.buckets && e.slot == SlotOf(s.owner, AlignDown(x, size)) && x < e.value.end;
      GetFinds(p.buckets, e.slot);
      AlignDownBounds(x, size);
      if s.owner == o {
        SameSide(e, s.start, s.end, x, a, b);
      }
    }
    assert s.id in p.consumed ==> Labelled(g, s.owner, s.start, s.end, size, flag);
    forall r | r in p.remainders && r.id == s.id ensures Labelled(g, s.owner, s.start, r.start, size, flag) {
      assert HeldOver(p.buckets, s.owner, s.start, r.start, size);
    }
  }

  /**
   * For every range that cuts no row of the interface, before or after a batch, the totals of
   * the rows inside are unchanged and their exact amounts do not grow.
   */
  lemma RollupRefinesRange(t: Tables, cutoff: i64, size: i64, batchSize: nat, o: Owner, a: int, b: int, m: Metric)
    requires UniqueSampleIds(t.samples) && IntervalsNonEmpty(t)
    requires RollupTables(t, cutoff, size, batchSize).Ok?
    requires RangeCutsNothing(t, o, a, b)
    requires RangeCutsNothing(RollupTables(t, cutoff, size, batchSize).value.0, o, a, b)
    ensures Moves(m, Held(m, InsideFilter(o, a, b), RollupTables(t, cutoff, size, batchSize).value.0),
                  Held(m, InsideFilter(o, a, b), t))
  {
    RangeFits(t, cutoff, size, batchSize, o, a, b);
    var g := InsideLabel(PlanOf(t, cutoff, size, batchSize).buckets, o, a, b);
    RollupConserves(t, cutoff, size, batchSize, m, InsideFilter(o, a, b), g);
  }

  /** A range that cuts no row before or after the batch cuts nothing that the batch moves. */
  lemma RangeFits(t: Tables, cutoff: i64, size: i64, batchSize: nat, o: Owner, a: int, b: int)
    requires UniqueSampleIds(t.samples) && IntervalsNonEmpty(t)
    requires RollupTables(t, cutoff, size, batchSize).Ok?
    requires RangeCutsNothing(t, o, a, b)
    requires RangeCutsNothing(RollupTables(t, cutoff, size, batchSize).value.0, o, a, b)
    ensures var p := PlanOf(t, cutoff, size, batchSize);
      FilterFits(t, size, p, InsideFilter(o, a, b), InsideLabel(p.buckets, o, a, b))
  {
    var p := PlanOf(t, cutoff, size, batchSize);
    var f, g := InsideFilter(o, a, b), InsideLabel(p.buckets, o, a, b);
    PlanIsSound(t, cutoff, size, batchSize);
    StoreHas(t.rollups, t.nextRollup, p.buckets, size);
    var stored := RollupTables(t, cutoff, size, batchSize).value.0.rollups;
    forall e | e in p.buckets && e.slot.router == o.router && e.slot.iface == o.iface
      ensures Uncut(e.slot.start, e.value.end, a, b)
    {
      var r :| r in stored && IsRowOf(r, e);
    }
    forall s | s in t.samples ensures Uniform(f, g, s, size, p) {
      PlanHolds(t, cutoff, size, batchSize, s);
      ConsumedOnOneSide(t, p, size, s, o, a, b);
    }
    LabelsFit(t, p, size, o, a, b);
  }

  lemma LabelsFit(t: Tables, p: Progress, size: i64, o: Owner, a: int, b: int)
    requires size > 0 && BatchSound(p.buckets, size) && IntervalsNonEmpty(t) && RangeCutsNothing(t, o, a, b)
    requires forall e :: e in p.buckets && e.slot.router == o.router && e.slot.iface == o.iface ==>
      Uncut(e.slot.start, e.value.end, a, b)
    ensures LabelsAgree(t.rollups, p.buckets, size, InsideFilter(o, a, b), InsideLabel(p.buckets, o, a, b))
  {
    var f, g := InsideFilter(o, a, b), InsideLabel(p.buckets, o, a, b);
    forall e | e in p.buckets
      ensures f(Owner(e.slot.router, e.slot.iface), e.slot.start, e.value.end) == g(e.slot)
      ensures g(e.slot)
        <==> e.slot.router == o.router && e.slot.iface == o.iface && a <= e.slot.start && e.value.end <= b
    {
      GetFinds(p.buckets, e.slot);
    }
    forall e, r | e in p.buckets && r in t.rollups && SlotOf(r.owner, r.start) == e.slot && r.size == size
      && r.source == RAW_ROLLUP
      ensures f(r.owner, r.start, r.end) == g(e.slot)
    {
      assert BucketSound(e, size);
      if r.owner == o {
        SameSide(e, r.start, r.end, r.start, a, b);
      }
    }
  }

  lemma PlanIsSound(t: Tables, cutoff: i64, size: i64, batchSize: nat)
    requires UniqueSampleIds(t.samples) && RollupTables(t, cutoff, size, batchSize).Ok?
    ensures size > 0 && BatchSound(PlanOf(t, cutoff, size, batchSize).buckets, size)
    ensures SettlesOnce(t.samples, PlanOf(t, cutoff, size, batchSize))
  {
    var batch := ChooseBatch(t.samples, cutoff, batchSize);
    var start := Progress([], batchSize * 2, [], []);
    BatchIsOrdered(t.samples, cutoff, batchSize);
    BatchSettlesOnce(start, batch, size, cutoff, t.samples);
    var f, g := (x: Owner, a: int, b: int) => true, (k: Slot) => true;
    BatchConserves(start, batch, size, cutoff, t.samples, Time, f, g);
  }

  /** What a plan consumed of a sample of the table is held by its buckets. */
  lemma PlanHolds(t: Tables, cutoff: i64, size: i64, batchSize: nat, s: Sample)
    requires UniqueSampleIds(t.samples) && RollupTables(t, cutoff, size, batchSize).Ok? && s in t.samples
    ensures size > 0 && ConsumedIsHeld(PlanOf(t, cutoff, size, batchSize), s, size)
    ensures forall r :: r in PlanOf(t, cutoff, size, batchSize).remainders && r.id == s.id ==> r.start < s.end
  {
    var batch := ChooseBatch(t.samples, cutoff, batchSize);
    BatchIsOrdered(t.samples, cutoff, batchSize);
    LookupFinds(t.samples, s);
    HeldAfterBatch(Progress([], batchSize * 2, [], []), batch, size, cutoff, t.samples, s);
    PlanIsSound(t, cutoff, size, batchSize);
    var p := PlanOf(t, cutoff, size, batchSize);
    StoredRemaindersOrdered(t.samples, p);
  }

  /** The update of a remainder is refused unless it leaves a non-empty interval. */
  lemma StoredRemaindersOrdered(samples: seq<Sample>, p: Progress)
    requires SettlesOnce(samples, p) && ApplyRemainders(samples, p.remainders).Ok?
    ensures forall r :: r in p.remainders ==> r.start < r.end
  {
    forall i | 0 <= i < |p.remainders| ensures p.remainders[i].start < p.remainders[i].end {
      AppliedOrdered(samples, p.remainders, i);
    }
  }

  lemma {:induction false} AppliedOrdered(samples: seq<Sample>, rs: seq<Remainder>, i: nat)
    requires ApplyRemainders(samples, rs).Ok? && i < |rs|
    ensures rs[i].start < rs[i].end
  {
    var n := |rs| - 1;
    if i == n {
      UpdatedOrdered(ApplyRemainders(samples, rs[..n]).value, rs[n]);
    } else {
      AppliedOrdered(samples, rs[..n], i);
      assert rs[..n][i] == rs[i];
    }
  }

  lemma {:induction false} UpdatedOrdered(samples: seq<Sample>, r: Remainder)
    requires UpdateRow(samples, r).Ok?
    ensures r.start < r.end
  {
    if samples[0].id != r.id {
      UpdatedOrdered(samples[1..], r);
    }
  }

  // ----- what queries see

  lemma RowShare(m: Metric, c: Contribution, a: i64, b: i64, amount: int)
    requires c.start < c.end && Uncut(c.start, c.end, a, b) && a < b
    requires a <= c.start && c.end <= b ==> Whole(m, c) == amount
    ensures Share(m, c, a, b) == if a <= c.start && c.end <= b then amount else 0
  {
    if a <= c.start && c.end <= b {
      ShareOfEnds(Whole(m, c), c.end - c.start);
    }
  }

  lemma {:induction false} SampleSharesAreHeld(samples: seq<Sample>, o: Owner, a: i64, b: i64, m: Metric)
    requires a < b && b - a < I64_MAX
    requires forall s :: s in samples && s.owner == o ==>
      s.start < s.end && Uncut(s.start, s.end, a, b) && (a <= s.start && s.end <= b ==> RawValid(s))
    ensures SumShares(m, SampleRows(samples, o), a, b) == SumSamples(m, InsideFilter(o, a, b), samples)
  {
    if samples != [] {
      var s := samples[0];
      assert s in samples;
      SampleSharesAreHeld(samples[1..], o, a, b, m);
      if s.owner == o {
        RowShare(m, SampleRow(s), a, b, SampleAmount(m, s));
        assert SampleRows(samples, o)[1..] == SampleRows(samples[1..], o);
      }
    }
  }

  lemma {:induction false} RollupSharesAreHeld(rollups: seq<Rollup>, o: Owner, a: i64, b: i64, m: Metric)
    requires a < b && b - a < I64_MAX
    requires forall r :: r in rollups && r.owner == o ==>
      r.start < r.end && Uncut(r.start, r.end, a, b) && (a <= r.start && r.end <= b ==> RowValid(RollupRow(r)))
    ensures SumShares(m, RollupRows(rollups, o), a, b) == SumRollups(m, InsideFilter(o, a, b), rollups)
  {
    if rollups != [] {
      var r := rollups[0];
      assert r in rollups;
      RollupSharesAreHeld(rollups[1..], o, a, b, m);
      if r.owner == o {
        RowShare(m, RollupRow(r), a, b, RollupAmount(m, r));
        assert RollupRows(rollups, o)[1..] == RollupRows(rollups[1..], o);
      }
    }
  }
}
