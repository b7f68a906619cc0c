/** Which bytes and times stay exact in a rollup batch: all but those of settled samples that were cut. */
module RollupExactness {
  import opened Int64
  import opened Outcomes
  import opened Slices
  import opened BTree
  import opened Contributions
  import opened RowStreams
  import opened TrafficQuery
  import opened TrafficTables
  import opened RollupBatch
  import opened RollupConservation
  import opened RollupTheorems
  import opened StoreInvariant
  import opened RollupSafety
  import opened RollupGuarantees
  import opened RollupRefinement
  import opened RollupRows
  import opened StoreQueries

  /** The sample lies across a bucket boundary or across the cutoff. */
  predicate Crosses(s: Sample, size: int, cutoff: int)
    requires size > 0
  {
    AlignDown(s.start, size) != AlignDown(s.end - 1, size) || s.end > cutoff
  }

  lemma SameAligned(a: int, b: int, size: int)
    requires size > 0 && AlignDown(a, size) == AlignDown(b, size)
    ensures a / size == b / size
  {
    DivCancels(a / size, size);
    DivCancels(b / size, size);
  }

  lemma SplitIsCrossing(s: Sample, size: i64, cutoff: i64)
    requires size > 0 && s.start < cutoff && s.start < s.end
    ensures IsSplit(s, size, Min(s.end, cutoff)) <==> Crosses(s, size, cutoff)
  {
    if s.end <= cutoff && AlignDown(s.start, size) == AlignDown(s.end - 1, size) {
      SameAligned(s.start, s.end - 1, size);
    }
  }

  /** A sample inside one bucket is consumed in one step. */
  lemma WholeIsConsumed(s: Sample, size: i64, cutoff: i64, budget: nat, buckets: Tree<Bucket>)
    requires size > 0 && s.start < s.end && budget > 0 && !Crosses(s, size, cutoff)
    requires Consume(s, size, s.end, s.start, budget, buckets).Ok?
    ensures Consume(s, size, s.end, s.start, budget, buckets).value.1 == s.end
  {
    AlignDownBounds(s.end - 1, size);
    var (filled, end) := ConsumeSegment(s, size, s.end, s.start, buckets).value;
    assert end == s.end;
  }

  // ----- the loss of settled samples

  /** What a settled sample loses of an exact metric under a filter. */
  function LossOf(m: Metric, f: Filter, size: int, cutoff: int, s: Sample): int
    requires size > 0
  {
    if Crosses(s, size, cutoff) then SampleShare(m, f, s) else 0
  }

  function LossAmong(m: Metric, f: Filter, size: int, cutoff: int, samples: seq<Sample>, ids: set<nat>): int
    requires size > 0
  {
    if samples == [] then 0
    else
      (if samples[0].id in ids then LossOf(m, f, size, cutoff, samples[0]) else 0)
      + LossAmong(m, f, size, cutoff, samples[1..], ids)
  }

  /** What the samples that are no longer in the table, or not as they were, lose of an exact metric. */
  function CutAmount(m: Metric, f: Filter, size: int, cutoff: int, before: seq<Sample>, after: seq<Sample>): int
    requires size > 0
  {
    if before == [] then 0
    else
      (if before[0] !in after && Crosses(before[0], size, cutoff) then SampleShare(m, f, before[0]) else 0)
      + CutAmount(m, f, size, cutoff, before[1..], after)
  }

  lemma {:induction false} LossElsewhere(m: Metric, f: Filter, size: int, cutoff: int, samples: seq<Sample>,
      ids: set<nat>, id: nat)
    requires size > 0 && forall s :: s in samples ==> s.id != id
    ensures LossAmong(m, f, size, cutoff, samples, ids + {id}) == LossAmong(m, f, size, cutoff, samples, ids)
  {
    if samples != [] {
      assert samples[0] in samples;
      LossElsewhere(m, f, size, cutoff, samples[1..], ids, id);
    }
  }

  lemma {:induction false} LossWithOne(m: Metric, f: Filter, size: int, cutoff: int, samples: seq<Sample>,
      ids: set<nat>, s: Sample)
    requires size > 0 && UniqueSampleIds(samples) && s in samples && s.id !in ids
    ensures LossAmong(m, f, size, cutoff, samples, ids + {s.id})
         == LossAmong(m, f, size, cutoff, samples, ids) + LossOf(m, f, size, cutoff, s)
  {
    assert samples == [samples[0]] + samples[1..];
    if samples[0] == s {
      LossElsewhere(m, f, size, cutoff, samples[1..], ids, s.id);
    } else {
      LossWithOne(m, f, size, cutoff, samples[1..], ids, s);
      assert samples[0].id != s.id;
    }
  }

  lemma {:induction false} LossByRows(m: Metric, f: Filter, size: int, cutoff: int, before: seq<Sample>,
      after: seq<Sample>, ids: set<nat>)
    requires size > 0 && forall s :: s in before ==> (s in after <==> s.id !in ids)
    ensures LossAmong(m, f, size, cutoff, before, ids) == CutAmount(m, f, size, cutoff, before, after)
  {
    if before != [] {
      assert before[0] in before;
      LossByRows(m, f, size, cutoff, before[1..], after, ids);
    }
  }

  function SettledIds(p: Progress): set<nat> {
    (set r | r in p.remainders :: r.id) + set id | id in p.consumed
  }

  // ----- planning

  /** What reaches the buckets of one sample is what it held, unless it was cut. */
  lemma ExactReached(s: Sample, at: i64, size: i64, cutoff: i64, m: Metric)
    requires size > 0 && RawValid(s) && s.start < cutoff && s.start < at <= Min(s.end, cutoff) && !m.Total()
    requires !Crosses(s, size, cutoff) ==> at == s.end
    ensures Before(m, s, s.exact && !IsSplit(s, size, Min(s.end, cutoff)), at)
         == if Crosses(s, size, cutoff) then 0 else SampleAmount(m, s)
    ensures Before(m, s, s.exact && !IsSplit(s, size, Min(s.end, cutoff)), s.start) == 0
  {
    SplitIsCrossing(s, size, cutoff);
    BeforeEnds(m, s, s.exact && !IsSplit(s, size, Min(s.end, cutoff)), at);
  }

  lemma SettledIdsGrow(p: Progress, p': Progress, s: Sample, at: i64)
    requires s.duration > 0
    requires p'.consumed == if at == s.end then p.consumed + [s.id] else p.consumed
    requires p'.remainders == if at == s.end then p.remainders else p.remainders + [RestOf(s, at)]
    ensures SettledIds(p') == SettledIds(p) + {s.id}
  {
  }

  lemma TakenGrows(m: Metric, f: Filter, samples: seq<Sample>, p: Progress, p': Progress, s: Sample, at: i64)
    requires s.duration > 0 && Lookup(samples, s.id) == Some(s) && !m.Total()
    requires p'.consumed == if at == s.end then p.consumed + [s.id] else p.consumed
    requires p'.remainders == if at == s.end then p.remainders else p.remainders + [RestOf(s, at)]
    ensures Taken(m, f, samples, p') == Taken(m, f, samples, p) + SampleShare(m, f, s)
  {
    if at == s.end {
      TakenWithDelete(m, f, samples, p, p', s);
    } else {
      TakenWithRemainder(m, f, samples, p, p', RestOf(s, at));
    }
  }

  lemma SampleStop(p: Progress, s: Sample, size: i64, cutoff: i64) returns (at: i64)
    requires size > 0 && p.budget > 0 && s.start < cutoff && PlanSample(p, s, size, cutoff).Ok?
    ensures RawValid(s) && Consume(s, size, Min(s.end, cutoff), s.start, p.budget, p.buckets).Ok?
    ensures at == Consume(s, size, Min(s.end, cutoff), s.start, p.budget, p.buckets).value.1
    ensures s.start < at <= Min(s.end, cutoff) && (!Crosses(s, size, cutoff) ==> at == s.end)
    ensures var p' := PlanSample(p, s, size, cutoff).value;
      && p'.buckets == Consume(s, size, Min(s.end, cutoff), s.start, p.budget, p.buckets).value.0
      && p'.consumed == (if at == s.end then p.consumed + [s.id] else p.consumed)
      && p'.remainders == (if at == s.end then p.remainders else p.remainders + [RestOf(s, at)])
  {
    at := PlanSampleShape(p, s, size, cutoff);
    if !Crosses(s, size, cutoff) {
      WholeIsConsumed(s, size, cutoff, p.budget, p.buckets);
    }
  }

  lemma PlanSampleExact(p: Progress, s: Sample, size: i64, cutoff: i64, samples: seq<Sample>, m: Metric, f: Filter,
      g: Label, done: Progress)
    requires size > 0 && p.budget > 0 && s.start < cutoff && BatchSound(p.buckets, size) && !m.Total()
    requires Lookup(samples, s.id) == Some(s) && Uniform(f, g, s, size, done)
    requires UniqueSampleIds(samples) && s in samples && s.id !in SettledIds(p)
    requires PlanSample(p, s, size, cutoff).Ok? && Extends(done, PlanSample(p, s, size, cutoff).value)
    ensures var p' := PlanSample(p, s, size, cutoff).value;
      && BatchSound(p'.buckets, size) && SettledIds(p') == SettledIds(p) + {s.id}
      && SumBatch(m, g, p'.buckets) - SumBatch(m, g, p.buckets)
         == Taken(m, f, samples, p') - Taken(m, f, samples, p)
            - LossAmong(m, f, size, cutoff, samples, SettledIds(p'))
            + LossAmong(m, f, size, cutoff, samples, SettledIds(p))
  {
    var p' := PlanSample(p, s, size, cutoff).value;
    var at := SampleStop(p, s, size, cutoff);
    SettledWhere(p, s, at, p', done);
    ConsumeConserves(s, size, Min(s.end, cutoff), s.start, p.budget, p.buckets, m, g, f(s.owner, s.start, s.end));
    ExactReached(s, at, size, cutoff, m);
    SettledIdsGrow(p, p', s, at);
    TakenGrows(m, f, samples, p, p', s, at);
    LossWithOne(m, f, size, cutoff, samples, SettledIds(p), s);
  }

  lemma {:induction false} BatchExact(p: Progress, batch: seq<Sample>, size: i64, cutoff: i64, samples: seq<Sample>,
      m: Metric, f: Filter, g: Label)
    requires size > 0 && BatchSound(p.buckets, size) && PlanBatch(p, batch, size, cutoff).Ok? && !m.Total()
    requires UniqueSampleIds(samples) && UniqueSampleIds(batch)
    requires forall s :: s in batch ==>
      && s.start < cutoff && s in samples && Lookup(samples, s.id) == Some(s) && s.id !in SettledIds(p)
      && Uniform(f, g, s, size, PlanBatch(p, batch, size, cutoff).value)
    ensures var done := PlanBatch(p, batch, size, cutoff).value;
      && BatchSound(done.buckets, size)
      && SumBatch(m, g, done.buckets) - SumBatch(m, g, p.buckets)
         == Taken(m, f, samples, done) - Taken(m, f, samples, p)
            - LossAmong(m, f, size, cutoff, samples, SettledIds(done))
            + LossAmong(m, f, size, cutoff, samples, SettledIds(p))
    decreases |batch|
  {
    if batch != [] && p.budget > 0 {
      assert batch[0] in batch;
      var next := PlanSample(p, batch[0], size, cutoff).value;
      PlanExtends(next, batch[1..], size, cutoff);
      PlanSampleExact(p, batch[0], size, cutoff, samples, m, f, g, PlanBatch(p, batch, size, cutoff).value);
      assert forall s :: s in batch[1..] ==> s in batch && s.id != batch[0].id;
      BatchExact(next, batch[1..], size, cutoff, samples, m, f, g);
    }
  }

  // ----- whole batches

  lemma {:induction false} NothingSettled(m: Metric, f: Filter, size: int, cutoff: int, samples: seq<Sample>)
    requires size > 0
    ensures LossAmong(m, f, size, cutoff, samples, {}) == 0
  {
    if samples != [] {
      NothingSettled(m, f, size, cutoff, samples[1..]);
    }
  }

  lemma SettledIdsMeaning(p: Progress, id: nat)
    ensures id in SettledIds(p) <==> Settled(p, id)
  {
  }

  lemma CutOfPlan(t: Tables, cutoff: i64, size: i64, batchSize: nat, m: Metric, f: Filter)
    requires UniqueSampleIds(t.samples) && RollupTables(t, cutoff, size, batchSize).Ok?
    ensures size > 0
    ensures LossAmong(m, f, size, cutoff, t.samples, SettledIds(PlanOf(t, cutoff, size, batchSize)))
         == CutAmount(m, f, size, cutoff, t.samples, RollupTables(t, cutoff, size, batchSize).value.0.samples)
  {
    var p := PlanOf(t, cutoff, size, batchSize);
    var after := RollupTables(t, cutoff, size, batchSize).value.0.samples;
    PlanLeavesRests(t, cutoff, size, batchSize);
    SettledRows(t.samples, p, size, cutoff);
    forall s | s in t.samples ensures s in after <==> s.id !in SettledIds(p) {
      SettledIdsMeaning(p, s.id);
    }
    LossByRows(m, f, size, cutoff, t.samples, after, SettledIds(p));
  }

  lemma BatchFromNothing(start: Progress, batch: seq<Sample>, size: i64, cutoff: i64, samples: seq<Sample>,
      m: Metric, f: Filter, g: Label)
    requires start == Progress([], start.budget, [], [])
    requires size > 0 && PlanBatch(start, batch, size, cutoff).Ok? && !m.Total()
    requires UniqueSampleIds(samples) && UniqueSampleIds(batch)
    requires forall s :: s in batch ==> s.start < cutoff && s in samples && Lookup(samples, s.id) == Some(s)
    requires forall s :: s in samples ==> Uniform(f, g, s, size, PlanBatch(start, batch, size, cutoff).value)
    ensures var p := PlanBatch(start, batch, size, cutoff).value;
      && BatchSound(p.buckets, size)
      && SumBatch(m, g, p.buckets)
         == Taken(m, f, samples, p) - LossAmong(m, f, size, cutoff, samples, SettledIds(p))
  {
    assert SettledIds(start) == {};
    NothingSettled(m, f, size, cutoff, samples);
    BatchExact(start, batch, size, cutoff, samples, m, f, g);
  }

  lemma PlanKeepsExact(t: Tables, cutoff: i64, size: i64, batchSize: nat, m: Metric, f: Filter, g: Label)
    requires UniqueSampleIds(t.samples) && RollupTables(t, cutoff, size, batchSize).Ok? && !m.Total()
    requires size > 0 && forall s :: s in t.samples ==> Uniform(f, g, s, size, PlanOf(t, cutoff, size, batchSize))
    ensures var p := PlanOf(t, cutoff, size, batchSize);
      && BatchSound(p.buckets, size)
      && SumBatch(m, g, p.buckets)
         == Taken(m, f, t.samples, p) - LossAmong(m, f, size, cutoff, t.samples, SettledIds(p))
  {
    BatchIsOrdered(t.samples, cutoff, batchSize);
    BatchFromNothing(StartOf(batchSize), ChooseBatch(t.samples, cutoff, batchSize), size, cutoff, t.samples, m, f, g);
  }

  /**
   * For every filter that cuts no row, a successful batch lowers an exact amount by exactly what
   * the settled samples across a bucket boundary or the cutoff held of it.
   */
  lemma RollupKeepsExact(t: Tables, cutoff: i64, size: i64, batchSize: nat, m: Metric, f: Filter, g: Label)
    requires UniqueSampleIds(t.samples) && RollupTables(t, cutoff, size, batchSize).Ok? && !m.Total()
    requires FilterFits(t, size, PlanOf(t, cutoff, size, batchSize), f, g)
    ensures var t' := RollupTables(t, cutoff, size, batchSize).value.0;
      Held(m, f, t') == Held(m, f, t) - CutAmount(m, f, size, cutoff, t.samples, t'.samples)
  {
    var p := PlanOf(t, cutoff, size, batchSize);
    PlanKeepsExact(t, cutoff, size, batchSize, m, f, g);
    StoreConserves(t.rollups, t.nextRollup, p.buckets, size, m, f, g);
    PlanLeavesRests(t, cutoff, size, batchSize);
    SettlingConserves(t.samples, p, m, f);
    CutOfPlan(t, cutoff, size, batchSize, m, f);
  }

  /**
   * The exact ledger of every interface: a batch takes from it what settled samples across a bucket
   * boundary or the cutoff held. A settled sample inside one bucket and before the cutoff keeps all
   * its exactness.
   */
  lemma RollupKeepsExactLedger(t: Tables, cutoff: i64, size: i64, batchSize: nat, m: Metric, o: Owner)
    requires UniqueSampleIds(t.samples) && RollupTables(t, cutoff, size, batchSize).Ok? && !m.Total()
    ensures size > 0
    ensures var t' := RollupTables(t, cutoff, size, batchSize).value.0;
      Ledger(m, o, t') == Ledger(m, o, t) - CutAmount(m, OwnerFilter(o), size, cutoff, t.samples, t'.samples)
  {
    var f, g := OwnerFilter(o), OwnerLabel(o);
    assert FilterFits(t, size, PlanOf(t, cutoff, size, batchSize), f, g);
    RollupKeepsExact(t, cutoff, size, batchSize, m, f, g);
  }

  /**
   * The same for what lies inside a range that cuts no row before or after the batch, and so for
   * the exact amounts every query over such a range reports.
   */
  lemma RollupKeepsExactRange(t: Tables, cutoff: i64, size: i64, batchSize: nat, o: Owner, a: int, b: int, m: Metric)
    requires UniqueSampleIds(t.samples) && IntervalsNonEmpty(t) && !m.Total()
    requires RollupTables(t, cutoff, size, batchSize).Ok?
    requires RangeCutsNothing(t, o, a, b)
    requires RangeCutsNothing(RollupTables(t, cutoff, size, batchSize).value.0, o, a, b)
    ensures size > 0
    ensures var t' := RollupTables(t, cutoff, size, batchSize).value.0;
      Held(m, InsideFilter(o, a, b), t')
        == Held(m, InsideFilter(o, a, b), t)
           - CutAmount(m, InsideFilter(o, a, b), size, cutoff, t.samples, t'.samples)
  {
    RangeFits(t, cutoff, size, batchSize, o, a, b);
    var g := InsideLabel(PlanOf(t, cutoff, size, batchSize).buckets, o, a, b);
    RollupKeepsExact(t, cutoff, size, batchSize, m, InsideFilter(o, a, b), g);
  }

  lemma QueriesKeepExact(t: Tables, cutoff: i64, size: i64, batchSize: nat, q: Query, budget: nat, m: Metric)
    requires StoreSound(t, size) && BatchParametersValid(size, batchSize) && !m.Total()
    requires RollupTables(t, cutoff, size, batchSize).Ok?
    requires q.to - q.from < I64_MAX && budget < I64_MAX
    requires RangeCutsNothing(t, OwnerIn(q), q.from, q.to)
    requires RangeCutsNothing(RollupTables(t, cutoff, size, batchSize).value.0, OwnerIn(q), q.from, q.to)
    requires QueryStore(t, q, budget).Ok? && QueryStore(RollupTables(t, cutoff, size, batchSize).value.0, q, budget).Ok?
    ensures var t' := RollupTables(t, cutoff, size, batchSize).value.0;
      Amount(m, QueryStore(t', q, budget).value.totals)
        == Amount(m, QueryStore(t, q, budget).value.totals)
           - CutAmount(m, InsideFilter(OwnerIn(q), q.from, q.to), size, cutoff, t.samples, t'.samples)
  {
    var t' := RollupTables(t, cutoff, size, batchSize).value.0;
    RollupStaysSound(t, cutoff, size, batchSize);
    TotalsAreHeld(t, size, q, budget, m);
    TotalsAreHeld(t', size, q, budget, m);
    forall s | s in t.samples ensures s.start < s.end { assert SampleSound(s); }
    forall r | r in t.rollups ensures r.start < r.end { assert RollupSound(r, size); }
    RollupKeepsExactRange(t, cutoff, size, batchSize, OwnerIn(q), q.from, q.to, m);
  }
}
