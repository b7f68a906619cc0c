/** The three guarantees of the rollup job: it stays sound, refines what queries see, and makes progress. */
module RollupGuarantees {
  import opened Int64
  import opened Outcomes
  import opened Slices
  import opened BTree
  import opened Contributions
  import opened TrafficTables
  import opened RollupBatch
  import opened RollupConservation
  import opened RollupTheorems
  import opened StoreInvariant
  import opened RollupSafety

  predicate BatchParametersValid(size: i64, batchSize: nat) {
    size > 0 && 0 < batchSize <= I64_MAX && batchSize * 2 <= U64_MAX
  }

  function StartOf(batchSize: nat): Progress { Progress([], batchSize * 2, [], []) }

  lemma PlanInvHoldsAtStart(t: Tables, cutoff: i64, size: i64, batchSize: nat)
    requires StoreSound(t, size)
    ensures PlanInv(t, StartOf(batchSize), ChooseBatch(t.samples, cutoff, batchSize), size, cutoff)
  {
    var batch := ChooseBatch(t.samples, cutoff, batchSize);
    BatchIsOrdered(t.samples, cutoff, batchSize);
    forall s, x | s in batch && x in t.samples && x !in batch ensures s.start <= x.start {
      BatchIsEarliest(t.samples, cutoff, batchSize, s, x);
    }
  }

  lemma SettlesOnceAtEnd(t: Tables, cutoff: i64, size: i64, batchSize: nat)
    requires StoreSound(t, size)
    requires PlanBatch(StartOf(batchSize), ChooseBatch(t.samples, cutoff, batchSize), size, cutoff).Ok?
    ensures SettlesOnce(t.samples,
      PlanBatch(StartOf(batchSize), ChooseBatch(t.samples, cutoff, batchSize), size, cutoff).value)
  {
    BatchIsOrdered(t.samples, cutoff, batchSize);
    BatchSettlesOnce(StartOf(batchSize), ChooseBatch(t.samples, cutoff, batchSize), size, cutoff, t.samples);
  }

  // ----- soundness

  /** A remaining sample lies within the old sample of its id, with the same interface. */
  lemma LeftInside(t: Tables, p: Progress, size: i64, x: Sample) returns (s: Sample)
    requires StoreSound(t, size) && BucketsBehindRemainders(t, p) && LeftFrom(t.samples, p, x)
    ensures s in t.samples && s.id == x.id && s.owner == x.owner
    ensures s.start <= x.start && x.end == s.end && SampleSound(x)
  {
    if x in t.samples && !Settled(p, x.id) {
      s := x;
    } else {
      var r :| r in p.remainders && RemainderStorable(t.samples, r) && x == Shrunk(t.samples, r);
      assert RemainderFits(t, r);
      s := Lookup(t.samples, r.id).value;
      LookupNone(t.samples, r.id);
    }
  }

  lemma LeftSamplesSound(t: Tables, p: Progress, size: i64, left: seq<Sample>)
    requires StoreSound(t, size) && BucketsBehindRemainders(t, p)
    requires UniqueSampleIds(left) && forall x :: x in left ==> LeftFrom(t.samples, p, x)
    ensures SamplesSound(left)
  {
    forall x | x in left ensures SampleSound(x) {
      var s := LeftInside(t, p, size, x);
    }
    forall a, b | a in left && b in left && a.id != b.id && a.owner == b.owner
      ensures IntervalsApart(a.start, a.end, b.start, b.end)
    {
      var sa := LeftInside(t, p, size, a);
      var sb := LeftInside(t, p, size, b);
      assert IntervalsApart(sa.start, sa.end, sb.start, sb.end);
    }
  }

  lemma LeftClearOf(t: Tables, p: Progress, size: i64, x: Sample, r: Rollup)
    requires StoreSound(t, size) && BatchSound(p.buckets, size)
    requires BucketsBehindRemainders(t, p) && BucketsBehindSamples(t, p)
    requires LeftFrom(t.samples, p, x) && StoredFrom(t.rollups, p.buckets, size, r) && x.owner == r.owner
    ensures SampleClearOf(x, r, size)
  {
    var s := LeftInside(t, p, size, x);
    if r in t.rollups {
      assert SampleClearOf(s, r, size);
      AlignDownMonotone(s.start, x.start, size);
    } else {
      var e :| e in p.buckets && StoresBucket(r, e, size) && r.end == e.value.end;
      if !(x in t.samples && !Settled(p, x.id)) {
        var m :| m in p.remainders && RemainderStorable(t.samples, m) && x == Shrunk(t.samples, m);
        assert OwnerOf(e.slot) == OwnerOfRemainder(t, m);
      }
    }
  }

  /** The only way a batch can fail on a sound store with valid parameters. */
  ghost predicate IntegerLimit(t: Tables, cutoff: i64, size: i64, batchSize: nat)
    requires size > 0
  {
    var batch := ChooseBatch(t.samples, cutoff, batchSize);
    var plan := PlanBatch(StartOf(batchSize), batch, size, cutoff);
    if plan.Err? then exists s :: s in batch && !FitsI64(AlignDown(s.start, size))
    else exists e :: e in plan.value.buckets && LimitHit(t.rollups, e, size)
  }

  /**
   * On a sound store a batch of any size with any cutoff fails exactly at integer limits: a
   * bucket that would start below the 64-bit range, or a total that would leave it. When it
   * succeeds the store is sound again.
   */
  lemma RollupStaysSound(t: Tables, cutoff: i64, size: i64, batchSize: nat)
    requires StoreSound(t, size) && BatchParametersValid(size, batchSize)
    ensures RollupTables(t, cutoff, size, batchSize).Err? <==> IntegerLimit(t, cutoff, size, batchSize)
    ensures RollupTables(t, cutoff, size, batchSize).Ok? ==>
      StoreSound(RollupTables(t, cutoff, size, batchSize).value.0, size)
  {
    var batch := ChooseBatch(t.samples, cutoff, batchSize);
    PlanInvHoldsAtStart(t, cutoff, size, batchSize);
    var rest := PlanKeepsInvariant(t, StartOf(batchSize), batch, size, cutoff);
    var plan := PlanBatch(StartOf(batchSize), batch, size, cutoff);
    if plan.Ok? {
      var p := plan.value;
      SettlesOnceAtEnd(t, cutoff, size, batchSize);
      StoreSucceeds(t.rollups, t.nextRollup, p.buckets, size);
      assert forall r :: r in p.remainders ==> RemainderFits(t, r);
      SettlingSucceeds(t.samples, p);
      var stored := StoreBuckets(t.rollups, t.nextRollup, p.buckets, size);
      if stored.Ok? {
        var left := DeleteConsumed(ApplyRemainders(t.samples, p.remainders).value, p.consumed).value;
        LeftSamplesSound(t, p, size, left);
        forall x, r | x in left && r in stored.value && x.owner == r.owner ensures SampleClearOf(x, r, size) {
          LeftClearOf(t, p, size, x, r);
        }
      }
    }
  }

  /**
   * Every sample has the id, interface and end of an old one, and every new rollup row is a raw one
   * that ends within an old sample of its interface.
   */
  ghost predicate RowsDerived(t: Tables, t': Tables) {
    && (forall x :: x in t'.samples ==>
          exists s :: s in t.samples && s.id == x.id && s.owner == x.owner && x.end == s.end)
    && forall r :: r in t'.rollups ==>
         r in t.rollups || (RawRow(r) && exists s :: s in t.samples && s.owner == r.owner && r.end <= s.end)
  }

  /**
   * Where the rows of a successful batch come from: every sample keeps the id, interface and
   * end of an old one, every new rollup row ends within an old sample of its interface, and
   * the rows of other sources are untouched.
   */
  lemma RollupOrigins(t: Tables, cutoff: i64, size: i64, batchSize: nat)
    requires StoreSound(t, size) && BatchParametersValid(size, batchSize)
    requires RollupTables(t, cutoff, size, batchSize).Ok?
    ensures var t' := RollupTables(t, cutoff, size, batchSize).value.0;
      RowsDerived(t, t') && t'.checkpoints == t.checkpoints
  {
    PlanInvHoldsAtStart(t, cutoff, size, batchSize);
    var rest := PlanKeepsInvariant(t, StartOf(batchSize), ChooseBatch(t.samples, cutoff, batchSize), size, cutoff);
    var p := PlanOf(t, cutoff, size, batchSize);
    SettlesOnceAtEnd(t, cutoff, size, batchSize);
    StoreSucceeds(t.rollups, t.nextRollup, p.buckets, size);
    assert forall r :: r in p.remainders ==> RemainderFits(t, r);
    SettlingSucceeds(t.samples, p);
    var t' := RollupTables(t, cutoff, size, batchSize).value.0;
    forall x | x in t'.samples
      ensures exists s :: s in t.samples && s.id == x.id && s.owner == x.owner && x.end == s.end
    {
      var s := LeftInside(t, p, size, x);
    }
    forall r | r in t'.rollups
      ensures r in t.rollups || (RawRow(r) && exists s :: s in t.samples && s.owner == r.owner && r.end <= s.end)
    {
      assert StoredFrom(t.rollups, p.buckets, size, r);
    }
  }
}
