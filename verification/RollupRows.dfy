/** The sample table after a rollup batch, row by row. */
module RollupRows {
  import opened Int64
  import opened Outcomes
  import opened Slices
  import opened BTree
  import opened Contributions
  import opened TrafficTables
  import opened RollupBatch
  import opened RollupConservation
  import opened RollupTheorems
  import opened StoreInvariant
  import opened RollupSafety
  import opened RollupGuarantees

  // ----- what a plan leaves of a sample

  /** The consumed part of a sample ends at a bucket boundary or at the planned end. */
  lemma {:induction false} ConsumeStops(s: Sample, size: i64, plannedEnd: i64, at: i64, budget: nat,
      buckets: Tree<Bucket>)
    requires size > 0 && Consume(s, size, plannedEnd, at, budget, buckets).Ok? && at < plannedEnd && budget > 0
    ensures var stop := Consume(s, size, plannedEnd, at, budget, buckets).value.1;
      at < stop <= plannedEnd && (stop == plannedEnd || AlignDown(stop, size) == stop)
    decreases plannedEnd - at
  {
    var (filled, end) := ConsumeSegment(s, size, plannedEnd, at, buckets).value;
    if end < plannedEnd {
      NextBoundary(at, size);
      if budget > 1 {
        ConsumeStops(s, size, plannedEnd, end, budget - 1, filled);
      }
    }
  }

  lemma NextBoundary(at: int, size: int)
    requires size > 0
    ensures AlignDown(AlignDown(at, size) + size, size) == AlignDown(at, size) + size
  {
    AlignDownBounds(at, size);
    DivShift(AlignDown(at, size), 1, size);
    assert AlignDown(at, size) + 1 * size == AlignDown(at, size) + size;
    DivCancels(at / size, size);
    assert (at / size + 1) * size == at / size * size + size;
  }

  /** Where the rest of a sample may start: inside it, at a bucket boundary or at the cutoff. */
  predicate RestStart(s: Sample, at: int, size: int, cutoff: int)
    requires size > 0
  {
    s.start < at < s.end && at <= cutoff && (at == cutoff || AlignDown(at, size) == at)
  }

  ghost predicate IsRest(samples: seq<Sample>, r: Remainder, size: i64, cutoff: i64)
    requires size > 0
  {
    && Lookup(samples, r.id).Some? && RawValid(Lookup(samples, r.id).value)
    && RestStart(Lookup(samples, r.id).value, r.start, size, cutoff)
    && r == RestOf(Lookup(samples, r.id).value, r.start)
  }

  ghost predicate RestsPlanned(samples: seq<Sample>, p: Progress, size: i64, cutoff: i64)
    requires size > 0
  {
    forall r :: r in p.remainders ==> IsRest(samples, r, size, cutoff)
  }

  lemma SamplePlansRest(p: Progress, s: Sample, size: i64, cutoff: i64, samples: seq<Sample>)
    requires size > 0 && p.budget > 0 && s.start < cutoff && Lookup(samples, s.id) == Some(s)
    requires PlanSample(p, s, size, cutoff).Ok? && RestsPlanned(samples, p, size, cutoff)
    ensures RestsPlanned(samples, PlanSample(p, s, size, cutoff).value, size, cutoff)
  {
    var at := PlanSampleShape(p, s, size, cutoff);
    ConsumeStops(s, size, Min(s.end, cutoff), s.start, p.budget, p.buckets);
    if at != s.end {
      assert IsRest(samples, RestOf(s, at), size, cutoff);
    }
  }

  lemma {:induction false} BatchPlansRests(p: Progress, batch: seq<Sample>, size: i64, cutoff: i64,
      samples: seq<Sample>)
    requires size > 0 && PlanBatch(p, batch, size, cutoff).Ok? && RestsPlanned(samples, p, size, cutoff)
    requires forall s :: s in batch ==> s.start < cutoff && Lookup(samples, s.id) == Some(s)
    ensures RestsPlanned(samples, PlanBatch(p, batch, size, cutoff).value, size, cutoff)
    decreases |batch|
  {
    if batch != [] && p.budget > 0 {
      assert batch[0] in batch;
      SamplePlansRest(p, batch[0], size, cutoff, samples);
      BatchPlansRests(PlanSample(p, batch[0], size, cutoff).value, batch[1..], size, cutoff, samples);
    }
  }

  lemma RestIsStorable(samples: seq<Sample>, r: Remainder, size: i64, cutoff: i64)
    requires size > 0 && IsRest(samples, r, size, cutoff)
    ensures RemainderStorable(samples, r)
  {
    var s := Lookup(samples, r.id).value;
    RestComplementsBefore(Time, s, r.start, false);
  }

  // ----- which rows are left

  lemma {:induction false} DeletesKeepOthers(samples: seq<Sample>, ids: seq<nat>, id: nat)
    requires DeleteConsumed(samples, ids).Ok? && id !in ids
    ensures Lookup(DeleteConsumed(samples, ids).value, id) == Lookup(samples, id)
  {
    if ids != [] {
      var n := |ids| - 1;
      DeletesKeepOthers(samples, ids[..n], id);
      DeleteConserves(DeleteConsumed(samples, ids[..n]).value, ids[n], Time, OwnerFilter(Owner(0, 0)));
    }
  }

  /** What settling does to the rows: unsettled ones stay, settled ones leave only what a remainder says. */
  lemma SettledRows(samples: seq<Sample>, p: Progress, size: i64, cutoff: i64)
    requires size > 0 && UniqueSampleIds(samples) && SettlesOnce(samples, p) && RestsPlanned(samples, p, size, cutoff)
    ensures ApplyRemainders(samples, p.remainders).Ok?
    ensures DeleteConsumed(ApplyRemainders(samples, p.remainders).value, p.consumed).Ok?
    ensures var left := DeleteConsumed(ApplyRemainders(samples, p.remainders).value, p.consumed).value;
      && UniqueSampleIds(left)
      && (forall x :: x in left ==> LeftFrom(samples, p, x))
      && forall s :: s in samples ==> (s in left <==> !Settled(p, s.id))
  {
    forall r | r in p.remainders ensures RemainderStorable(samples, r) {
      RestIsStorable(samples, r, size, cutoff);
    }
    SettlingSucceeds(samples, p);
    var left := DeleteConsumed(ApplyRemainders(samples, p.remainders).value, p.consumed).value;
    forall s | s in samples ensures s in left <==> !Settled(p, s.id) {
      LookupFinds(samples, s);
      if !Settled(p, s.id) {
        UnsettledStays(samples, p, s);
      } else if s in left {
        SettledChanges(samples, p, size, cutoff, s);
      }
    }
  }

  lemma UnsettledStays(samples: seq<Sample>, p: Progress, s: Sample)
    requires UniqueSampleIds(samples) && SettlesOnce(samples, p) && Lookup(samples, s.id) == Some(s)
    requires forall r :: r in p.remainders ==> RemainderStorable(samples, r)
    requires !Settled(p, s.id) && ApplyRemainders(samples, p.remainders).Ok?
    requires DeleteConsumed(ApplyRemainders(samples, p.remainders).value, p.consumed).Ok?
    ensures s in DeleteConsumed(ApplyRemainders(samples, p.remainders).value, p.consumed).value
  {
    assert p.remainders[..|p.remainders|] == p.remainders;
    RemaindersConserve(samples, p, |p.remainders|, Time, OwnerFilter(s.owner));
    var shrunk := ApplyRemainders(samples, p.remainders).value;
    DeletesKeepOthers(shrunk, p.consumed, s.id);
    LookupNone(DeleteConsumed(shrunk, p.consumed).value, s.id);
  }

  lemma SettledChanges(samples: seq<Sample>, p: Progress, size: i64, cutoff: i64, s: Sample)
    requires size > 0 && RestsPlanned(samples, p, size, cutoff) && Settled(p, s.id)
    requires Lookup(samples, s.id) == Some(s)
    ensures !LeftFrom(samples, p, s)
  {
    forall r | r in p.remainders && RemainderStorable(samples, r) ensures s != Shrunk(samples, r) {
      assert IsRest(samples, r, size, cutoff);
      LookupNone(samples, r.id);
    }
  }

  lemma PlanLeavesRests(t: Tables, cutoff: i64, size: i64, batchSize: nat)
    requires UniqueSampleIds(t.samples) && RollupTables(t, cutoff, size, batchSize).Ok?
    ensures size > 0 && SettlesOnce(t.samples, PlanOf(t, cutoff, size, batchSize))
    ensures RestsPlanned(t.samples, PlanOf(t, cutoff, size, batchSize), size, cutoff)
  {
    var batch := ChooseBatch(t.samples, cutoff, batchSize);
    BatchIsOrdered(t.samples, cutoff, batchSize);
    BatchSettlesOnce(StartOf(batchSize), batch, size, cutoff, t.samples);
    BatchPlansRests(StartOf(batchSize), batch, size, cutoff, t.samples);
  }

  /** The part of a sample from `at` on: its bytes are what the floor of the earlier part leaves. */
  function RestRow(s: Sample, at: i64): Sample
    requires SampleSound(s) && s.start < at < s.end
  {
    var down, up, ms := s.down - s.down * (at - s.start) / (s.end - s.start),
                        s.up - s.up * (at - s.start) / (s.end - s.start), s.end - at;
    RestBytes(s.down, s.end - s.start, at - s.start);
    RestBytes(s.up, s.end - s.start, at - s.start);
    Sample(s.id, s.owner, at, s.end, ms, down, up, (down * 8000) as real / ms as real, (up * 8000) as real / ms as real,
           false, s.source)
  }

  lemma RestBytes(value: u63, duration: i64, x: int)
    requires 0 < x < duration
    ensures 0 <= value - value * x / duration <= I64_MAX
  {
    ShareIsMonotone(value, duration, 0, x);
    ShareIsMonotone(value, duration, x, duration);
    ShareOfEnds(value, duration);
  }

  /**
   * Every sample after a successful batch is an old one, untouched, or what is left of an old one
   * from a bucket boundary or from the cutoff on.
   */
  lemma RollupLeavesRests(t: Tables, cutoff: i64, size: i64, batchSize: nat, x: Sample)
    requires StoreSound(t, size) && RollupTables(t, cutoff, size, batchSize).Ok?
    requires x in RollupTables(t, cutoff, size, batchSize).value.0.samples && x !in t.samples
    ensures exists s ::
      s in t.samples && SampleSound(s) && RestStart(s, x.start, size, cutoff) && x == RestRow(s, x.start)
  {
    var p := PlanOf(t, cutoff, size, batchSize);
    PlanLeavesRests(t, cutoff, size, batchSize);
    SettledRows(t.samples, p, size, cutoff);
    assert LeftFrom(t.samples, p, x);
    var r :| r in p.remainders && RemainderStorable(t.samples, r) && x == Shrunk(t.samples, r);
    assert IsRest(t.samples, r, size, cutoff);
    var s := RestBecomesRow(t.samples, r, size, cutoff);
  }

  lemma RestBecomesRow(samples: seq<Sample>, r: Remainder, size: i64, cutoff: i64) returns (s: Sample)
    requires size > 0 && IsRest(samples, r, size, cutoff) && RemainderStorable(samples, r)
    requires forall x :: x in samples ==> SampleSound(x)
    ensures s in samples && SampleSound(s) && RestStart(s, r.start, size, cutoff)
    ensures Shrunk(samples, r) == RestRow(s, r.start)
  {
    s := Lookup(samples, r.id).value;
    LookupNone(samples, r.id);
    assert r == RestOf(s, r.start);
  }
}
