/** Conservation laws of whole rollup batches. */
module RollupTheorems {
  import opened Int64
  import opened Outcomes
  import opened Slices
  import opened BTree
  import opened Contributions
  import opened TrafficTables
  import opened RollupBatch
  import opened RollupConservation
  import SortKeys

  // ----- the chosen batch

  ghost predicate StartOrder(samples: seq<Sample>) {
    forall i, j :: 0 <= i < j < |samples| ==> samples[i].start <= samples[j].start
  }

  lemma HeadIsEarliest(s: Sample, rest: seq<Sample>)
    requires StartOrder(rest) && UniqueSampleIds(rest)
    requires forall x :: x in rest ==> x.id != s.id && s.start <= x.start
    ensures StartOrder([s] + rest) && UniqueSampleIds([s] + rest)
  {
    forall i, j | 0 <= i < j < |[s] + rest|
      ensures ([s] + rest)[i].start <= ([s] + rest)[j].start && ([s] + rest)[i].id != ([s] + rest)[j].id
    {
      assert ([s] + rest)[j] in rest;
    }
  }

  lemma {:induction false} InsertKeepsOrder(s: Sample, rest: seq<Sample>)
    requires StartOrder(rest) && UniqueSampleIds(rest) && forall x :: x in rest ==> x.id != s.id
    ensures var r := SortKeys.Insert(s, rest, StartKey);
      StartOrder(r) && UniqueSampleIds(r) && forall x :: x in r <==> x == s || x in rest
  {
    if rest == [] || SortKeys.Leq(StartKey(s), StartKey(rest[0])) {
      HeadIsEarliest(s, rest);
    } else {
      InsertKeepsOrder(s, rest[1..]);
      HeadIsEarliest(rest[0], SortKeys.Insert(s, rest[1..], StartKey));
    }
  }

  lemma {:induction false} SortKeepsOrder(samples: seq<Sample>)
    requires UniqueSampleIds(samples)
    ensures var r := SortKeys.SortByKey(samples, StartKey);
      StartOrder(r) && UniqueSampleIds(r) && forall x :: x in r <==> x in samples
  {
    if samples != [] {
      assert samples == [samples[0]] + samples[1..];
      SortKeepsOrder(samples[1..]);
      InsertKeepsOrder(samples[0], SortKeys.SortByKey(samples[1..], StartKey));
    }
  }

  lemma {:induction false} StartingBeforeKeeps(samples: seq<Sample>, cutoff: i64)
    requires UniqueSampleIds(samples)
    ensures UniqueSampleIds(StartingBefore(samples, cutoff))
    ensures forall x :: x in StartingBefore(samples, cutoff) <==> x in samples && x.start < cutoff
  {
    if samples != [] {
      assert samples == [samples[0]] + samples[1..];
      StartingBeforeKeeps(samples[1..], cutoff);
      assert forall x :: x in samples[1..] ==> x.id != samples[0].id;
    }
  }

  lemma BeforeCutoffKeeps(samples: seq<Sample>, cutoff: i64)
    requires UniqueSampleIds(samples)
    ensures StartOrder(BeforeCutoff(samples, cutoff)) && UniqueSampleIds(BeforeCutoff(samples, cutoff))
    ensures forall x :: x in BeforeCutoff(samples, cutoff) <==> x in samples && x.start < cutoff
  {
    StartingBeforeKeeps(samples, cutoff);
    SortKeepsOrder(StartingBefore(samples, cutoff));
  }

  /** The batch holds distinct samples from before the cutoff, in order of their start. */
  lemma BatchIsOrdered(samples: seq<Sample>, cutoff: i64, limit: nat)
    requires UniqueSampleIds(samples)
    ensures var batch := ChooseBatch(samples, cutoff, limit);
      && StartOrder(batch) && UniqueSampleIds(batch)
      && forall s :: s in batch ==> s in samples && s.start < cutoff && Lookup(samples, s.id) == Some(s)
  {
    BeforeCutoffKeeps(samples, cutoff);
    forall s | s in ChooseBatch(samples, cutoff, limit) ensures Lookup(samples, s.id) == Some(s) {
      assert s in BeforeCutoff(samples, cutoff);
      LookupFinds(samples, s);
    }
  }

  /** No sample left out of the batch is earlier than one in it. */
  lemma BatchIsEarliest(samples: seq<Sample>, cutoff: i64, limit: nat, s: Sample, x: Sample)
    requires UniqueSampleIds(samples)
    requires s in ChooseBatch(samples, cutoff, limit)
    requires x in samples && x !in ChooseBatch(samples, cutoff, limit)
    ensures s.start <= x.start
  {
    BeforeCutoffKeeps(samples, cutoff);
    var all, batch := BeforeCutoff(samples, cutoff), ChooseBatch(samples, cutoff, limit);
    assert s in all;
    if x.start < cutoff {
      var i :| 0 <= i < |batch| && batch[i] == s;
      var j :| 0 <= j < |all| && all[j] == x;
      assert batch[i] == all[i];
    }
  }

  // ----- each sample is settled once

  ghost predicate Untouched(p: Progress, batch: seq<Sample>) {
    forall s :: s in batch ==>
      (forall i :: 0 <= i < |p.remainders| ==> p.remainders[i].id != s.id) && s.id !in p.consumed
  }

  /** Planning the first sample of a batch settles it, once. */
  lemma StepSettlesOnce(p: Progress, batch: seq<Sample>, size: i64, cutoff: i64, samples: seq<Sample>)
    requires size > 0 && SettlesOnce(samples, p) && Untouched(p, batch) && UniqueSampleIds(batch) && batch != []
    requires forall s :: s in batch ==> s.start < cutoff && Lookup(samples, s.id) == Some(s)
    requires PlanSample(p, batch[0], size, cutoff).Ok?
    ensures SettlesOnce(samples, PlanSample(p, batch[0], size, cutoff).value)
    ensures Untouched(PlanSample(p, batch[0], size, cutoff).value, batch[1..])
  {
    var s := batch[0];
    assert s in batch;
    var at := PlanSampleShape(p, s, size, cutoff);
    assert forall x :: x in batch[1..] ==> x in batch && x.id != s.id;
  }

  lemma {:induction false} BatchSettlesOnce(p: Progress, batch: seq<Sample>, size: i64, cutoff: i64,
      samples: seq<Sample>)
    requires size > 0 && SettlesOnce(samples, p) && Untouched(p, batch) && UniqueSampleIds(batch)
    requires forall s :: s in batch ==> s.start < cutoff && Lookup(samples, s.id) == Some(s)
    requires PlanBatch(p, batch, size, cutoff).Ok?
    ensures SettlesOnce(samples, PlanBatch(p, batch, size, cutoff).value)
    decreases |batch|
  {
    if batch != [] && p.budget > 0 {
      StepSettlesOnce(p, batch, size, cutoff, samples);
      BatchSettlesOnce(PlanSample(p, batch[0], size, cutoff).value, batch[1..], size, cutoff, samples);
    }
  }

  // ----- whole batches

  /** The plan of a batch that succeeds. */
  function PlanOf(t: Tables, cutoff: i64, size: i64, batchSize: nat): Progress
    requires RollupTables(t, cutoff, size, batchSize).Ok?
  {
    PlanBatch(Progress([], batchSize * 2, [], []), ChooseBatch(t.samples, cutoff, batchSize), size, cutoff).value
  }

  /** Filter and label fit the store and the plan: nothing is cut by the filter. */
  ghost predicate FilterFits(t: Tables, size: i64, p: Progress, f: Filter, g: Label) {
    && size > 0
    && (forall s :: s in t.samples ==> Uniform(f, g, s, size, p))
    && LabelsAgree(t.rollups, p.buckets, size, f, g)
  }

  /**
   * Conservation: for every filter that cuts none of the rows involved, a successful batch
   * keeps each total of the filtered rows and never increases an exact amount.
   */
  lemma RollupConserves(t: Tables, cutoff: i64, size: i64, batchSize: nat, m: Metric, f: Filter, g: Label)
    requires UniqueSampleIds(t.samples) && RollupTables(t, cutoff, size, batchSize).Ok?
    requires FilterFits(t, size, PlanOf(t, cutoff, size, batchSize), f, g)
    ensures Moves(m, Held(m, f, RollupTables(t, cutoff, size, batchSize).value.0), Held(m, f, t))
  {
    var batch := ChooseBatch(t.samples, cutoff, batchSize);
    BatchIsOrdered(t.samples, cutoff, batchSize);
    var start := Progress([], batchSize * 2, [], []);
    BatchConserves(start, batch, size, cutoff, t.samples, m, f, g);
    BatchSettlesOnce(start, batch, size, cutoff, t.samples);
    var p := PlanOf(t, cutoff, size, batchSize);
    StoreConserves(t.rollups, t.nextRollup, p.buckets, size, m, f, g);
    SettlingConserves(t.samples, p, m, f);
  }

  lemma SettlingConserves(samples: seq<Sample>, p: Progress, m: Metric, f: Filter)
    requires SettlesOnce(samples, p)
    requires ApplyRemainders(samples, p.remainders).Ok?
    requires DeleteConsumed(ApplyRemainders(samples, p.remainders).value, p.consumed).Ok?
    ensures SumSamples(m, f, DeleteConsumed(ApplyRemainders(samples, p.remainders).value, p.consumed).value)
         == SumSamples(m, f, samples) - Taken(m, f, samples, p)
  {
    assert p.remainders[..|p.remainders|] == p.remainders && p.consumed[..|p.consumed|] == p.consumed;
    RemaindersConserve(samples, p, |p.remainders|, m, f);
    DeletesConserve(samples, ApplyRemainders(samples, p.remainders).value, p, |p.consumed|, m, f);
  }

  function OwnerFilter(o: Owner): Filter { (x: Owner, a: int, b: int) => x == o }

  function OwnerLabel(o: Owner): Label { (k: Slot) => k.router == o.router && k.iface == o.iface }

  /** Everything an interface holds, in samples and rollups. */
  function Ledger(m: Metric, o: Owner, t: Tables): int { Held(m, OwnerFilter(o), t) }

  /** For every interface a successful batch keeps its totals and only loses exactness. */
  lemma RollupKeepsLedger(t: Tables, cutoff: i64, size: i64, batchSize: nat, m: Metric, o: Owner)
    requires UniqueSampleIds(t.samples) && RollupTables(t, cutoff, size, batchSize).Ok?
    ensures Moves(m, Ledger(m, o, RollupTables(t, cutoff, size, batchSize).value.0), Ledger(m, o, t))
  {
    var f, g := OwnerFilter(o), OwnerLabel(o);
    var p := PlanOf(t, cutoff, size, batchSize);
    assert FilterFits(t, size, p, f, g);
    RollupConserves(t, cutoff, size, batchSize, m, f, g);
  }
}
