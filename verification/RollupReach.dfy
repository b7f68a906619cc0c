/** How much one rollup batch gets done. */
module RollupReach {
  import opened Int64
  import opened Outcomes
  import opened Slices
  import opened BTree
  import opened TrafficTables
  import opened RollupBatch
  import opened RollupConservation
  import opened RollupTheorems
  import opened StoreInvariant
  import opened RollupSafety
  import opened RollupGuarantees
  import opened RollupRows
  import opened RollupExactness
  import opened Counting

  /** Samples the batch could take. */
  ghost function Due(samples: seq<Sample>, cutoff: int): set<Sample> {
    set s | s in samples && s.start < cutoff
  }

  /** Samples that are no longer in the table, or not as they were. */
  ghost function Gone(before: seq<Sample>, after: seq<Sample>): set<Sample> {
    set s | s in before && s !in after
  }

  lemma UniqueIsDistinct(samples: seq<Sample>)
    requires UniqueSampleIds(samples)
    ensures Distinct(samples)
  {
  }

  /** A batch takes as many due samples as its size allows. */
  lemma BatchIsFull(samples: seq<Sample>, cutoff: i64, limit: nat)
    requires UniqueSampleIds(samples)
    ensures |ChooseBatch(samples, cutoff, limit)| == Min(limit, |Due(samples, cutoff)|)
  {
    BeforeCutoffKeeps(samples, cutoff);
    UniqueIsDistinct(BeforeCutoff(samples, cutoff));
    SameElements(BeforeCutoff(samples, cutoff), Due(samples, cutoff));
  }

  // ----- the reported number

  lemma {:induction false} UpdateKeepsEachId(samples: seq<Sample>, r: Remainder)
    requires UpdateRow(samples, r).Ok?
    ensures var updated := UpdateRow(samples, r).value;
      |updated| == |samples| && forall i :: 0 <= i < |samples| ==> updated[i].id == samples[i].id
  {
    if samples[0].id != r.id {
      UpdateKeepsEachId(samples[1..], r);
    }
  }

  lemma {:induction false} RemaindersKeepLength(samples: seq<Sample>, remainders: seq<Remainder>)
    requires ApplyRemainders(samples, remainders).Ok?
    ensures |ApplyRemainders(samples, remainders).value| == |samples|
    decreases |remainders|
  {
    if remainders != [] {
      var n := |remainders| - 1;
      RemaindersKeepLength(samples, remainders[..n]);
      UpdateKeepsEachId(ApplyRemainders(samples, remainders[..n]).value, remainders[n]);
    }
  }

  lemma {:induction false} DeleteTakesOne(samples: seq<Sample>, id: nat)
    requires DeleteRow(samples, id).Ok?
    ensures |DeleteRow(samples, id).value| == |samples| - 1
  {
    if samples[0].id != id {
      DeleteTakesOne(samples[1..], id);
    }
  }

  lemma {:induction false} DeletesTakeAll(samples: seq<Sample>, ids: seq<nat>)
    requires DeleteConsumed(samples, ids).Ok?
    ensures |DeleteConsumed(samples, ids).value| == |samples| - |ids|
    decreases |ids|
  {
    if ids != [] {
      var n := |ids| - 1;
      DeletesTakeAll(samples, ids[..n]);
      DeleteTakesOne(DeleteConsumed(samples, ids[..n]).value, ids[n]);
    }
  }

  /** The number a batch reports is the number of rows the sample table lost. */
  lemma RollupReportsRemoved(t: Tables, cutoff: i64, size: i64, batchSize: nat)
    requires RollupTables(t, cutoff, size, batchSize).Ok?
    ensures var (t', removed) := RollupTables(t, cutoff, size, batchSize).value;
      removed == |t.samples| - |t'.samples|
  {
    var p := PlanOf(t, cutoff, size, batchSize);
    RemaindersKeepLength(t.samples, p.remainders);
    DeletesTakeAll(ApplyRemainders(t.samples, p.remainders).value, p.consumed);
  }

  // ----- samples no longer than a bucket

  predicate Short(s: Sample, size: int) { s.end - s.start <= size }

  /** A short sample takes at most two segments of the budget. */
  lemma ShortIsConsumed(s: Sample, size: i64, plannedEnd: i64, budget: nat, buckets: Tree<Bucket>)
    requires size > 0 && s.start < plannedEnd <= s.end && Short(s, size) && budget >= 2
    requires Consume(s, size, plannedEnd, s.start, budget, buckets).Ok?
    ensures var r := Consume(s, size, plannedEnd, s.start, budget, buckets).value;
      r.1 == plannedEnd && r.2 >= budget - 2
  {
    AlignDownBounds(s.start, size);
    var (filled, end) := ConsumeSegment(s, size, plannedEnd, s.start, buckets).value;
    if end < plannedEnd {
      NextBoundary(s.start, size);
      assert end == AlignDown(s.start, size) + size && AlignDown(end, size) == end;
      SecondSegmentEnds(s, size, plannedEnd, end, budget - 1, filled);
    }
  }

  lemma SecondSegmentEnds(s: Sample, size: i64, plannedEnd: i64, at: i64, budget: nat, buckets: Tree<Bucket>)
    requires size > 0 && at < plannedEnd <= at + size && AlignDown(at, size) == at && budget >= 1
    requires Consume(s, size, plannedEnd, at, budget, buckets).Ok?
    ensures var r := Consume(s, size, plannedEnd, at, budget, buckets).value;
      r.1 == plannedEnd && r.2 == budget - 1
  {
    var (filled, end) := ConsumeSegment(s, size, plannedEnd, at, buckets).value;
    assert end == plannedEnd;
  }

  /** Every remainder starts at the cutoff. */
  ghost predicate RestsAtCutoff(p: Progress, cutoff: int) {
    forall r :: r in p.remainders ==> r.start == cutoff
  }

  lemma ShortSampleSettles(p: Progress, s: Sample, size: i64, cutoff: i64)
    requires size > 0 && p.budget >= 2 && s.start < cutoff && Short(s, size)
    requires PlanSample(p, s, size, cutoff).Ok? && RestsAtCutoff(p, cutoff)
    ensures var p' := PlanSample(p, s, size, cutoff).value;
      p'.budget >= p.budget - 2 && SettledIds(p') == SettledIds(p) + {s.id} && RestsAtCutoff(p', cutoff)
  {
    var at := PlanSampleShape(p, s, size, cutoff);
    ShortIsConsumed(s, size, Min(s.end, cutoff), p.budget, p.buckets);
    SettledIdsGrow(p, PlanSample(p, s, size, cutoff).value, s, at);
  }

  ghost function IdsOf(samples: seq<Sample>): set<nat> {
    set s | s in samples :: s.id
  }

  lemma IdsOfHead(samples: seq<Sample>)
    requires samples != []
    ensures IdsOf(samples) == {samples[0].id} + IdsOf(samples[1..])
  {
    assert samples == [samples[0]] + samples[1..];
  }

  lemma {:induction false} ShortBatchPlanned(p: Progress, batch: seq<Sample>, size: i64, cutoff: i64)
    requires size > 0 && PlanBatch(p, batch, size, cutoff).Ok? && p.budget >= 2 * |batch| && RestsAtCutoff(p, cutoff)
    requires forall s :: s in batch ==> s.start < cutoff && Short(s, size)
    ensures var done := PlanBatch(p, batch, size, cutoff).value;
      RestsAtCutoff(done, cutoff) && SettledIds(done) == SettledIds(p) + IdsOf(batch)
    decreases |batch|
  {
    if batch != [] {
      assert batch[0] in batch;
      ShortSampleSettles(p, batch[0], size, cutoff);
      ShortBatchPlanned(PlanSample(p, batch[0], size, cutoff).value, batch[1..], size, cutoff);
      IdsOfHead(batch);
    }
  }

  lemma GoneAreBatch(samples: seq<Sample>, after: seq<Sample>, batch: seq<Sample>)
    requires UniqueSampleIds(samples) && UniqueSampleIds(batch) && forall s :: s in batch ==> s in samples
    requires forall s :: s in samples ==> (s !in after <==> s.id in IdsOf(batch))
    ensures |Gone(samples, after)| == |batch|
    ensures forall s :: s in Gone(samples, after) <==> s in batch
  {
    forall s ensures s in Gone(samples, after) <==> s in batch {
      if s in Gone(samples, after) {
        var x :| x in batch && x.id == s.id;
        LookupFinds(samples, s);
        LookupFinds(samples, x);
      }
    }
    UniqueIsDistinct(batch);
    SameElements(batch, Gone(samples, after));
  }

  lemma WholeBatchSettled(t: Tables, cutoff: i64, size: i64, batchSize: nat)
    requires UniqueSampleIds(t.samples) && RollupTables(t, cutoff, size, batchSize).Ok? && size > 0
    requires RestsAtCutoff(PlanOf(t, cutoff, size, batchSize), cutoff)
    requires SettledIds(PlanOf(t, cutoff, size, batchSize)) == IdsOf(ChooseBatch(t.samples, cutoff, batchSize))
    ensures var after := RollupTables(t, cutoff, size, batchSize).value.0.samples;
      && |Gone(t.samples, after)| == Min(batchSize, |Due(t.samples, cutoff)|)
      && (forall s, x :: s in Gone(t.samples, after) && x in t.samples && x in after ==> s.start <= x.start)
      && forall x :: x in after && x !in t.samples ==> x.start == cutoff
  {
    var batch, p := ChooseBatch(t.samples, cutoff, batchSize), PlanOf(t, cutoff, size, batchSize);
    var after := RollupTables(t, cutoff, size, batchSize).value.0.samples;
    BatchIsOrdered(t.samples, cutoff, batchSize);
    BatchIsFull(t.samples, cutoff, batchSize);
    PlanLeavesRests(t, cutoff, size, batchSize);
    SettledRows(t.samples, p, size, cutoff);
    forall s | s in t.samples ensures s !in after <==> s.id in IdsOf(batch) {
      SettledIdsMeaning(p, s.id);
    }
    GoneAreBatch(t.samples, after, batch);
    forall s, x | s in Gone(t.samples, after) && x in t.samples && x in after ensures s.start <= x.start {
      assert x !in Gone(t.samples, after);
      BatchIsEarliest(t.samples, cutoff, batchSize, s, x);
    }
    forall x | x in after && x !in t.samples ensures x.start == cutoff {
      assert LeftFrom(t.samples, p, x);
    }
  }

  /**
   * When no due sample is longer than a bucket, a batch never runs out of its segment budget: it
   * settles as many due samples as its size allows, the earliest ones, and what is left of any of
   * them starts at the cutoff.
   */
  lemma ShortSamplesAreSettled(t: Tables, cutoff: i64, size: i64, batchSize: nat)
    requires UniqueSampleIds(t.samples) && RollupTables(t, cutoff, size, batchSize).Ok?
    requires forall s :: s in t.samples && s.start < cutoff ==> Short(s, size)
    ensures var after := RollupTables(t, cutoff, size, batchSize).value.0.samples;
      && |Gone(t.samples, after)| == Min(batchSize, |Due(t.samples, cutoff)|)
      && (forall s, x :: s in Gone(t.samples, after) && x in t.samples && x in after ==> s.start <= x.start)
      && forall x :: x in after && x !in t.samples ==> x.start == cutoff
  {
    var batch := ChooseBatch(t.samples, cutoff, batchSize);
    BatchIsOrdered(t.samples, cutoff, batchSize);
    BatchIsFull(t.samples, cutoff, batchSize);
    assert SettledIds(StartOf(batchSize)) == {};
    ShortBatchPlanned(StartOf(batchSize), batch, size, cutoff);
    WholeBatchSettled(t, cutoff, size, batchSize);
  }
}
