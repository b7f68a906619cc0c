/** The invariant under which the traffic history of every interface can be queried. */
module StoreInvariant {
  import opened Int64
  import opened Outcomes
  import opened Slices
  import opened BTree
  import opened Contributions
  import opened TrafficTables
  import opened RollupBatch

  /** End of the last bucket that a non-empty interval ending at `t` touches. */
  function AlignUp(t: int, size: int): int
    requires size > 0
  {
    AlignDown(t - 1, size) + size
  }

  lemma AlignDownMonotone(a: int, b: int, size: int)
    requires size > 0 && a <= b
    ensures AlignDown(a, size) <= AlignDown(b, size)
  {
    DivMonotone(a, b, size);
    MulMonotone(size, a / size, b / size);
  }

  /** Two aligned buckets with different starts do not meet. */
  lemma AlignedBucketsApart(a: int, b: int, size: int)
    requires size > 0 && AlignDown(a, size) == a && AlignDown(b, size) == b && a < b
    ensures a + size <= b
  {
    if b < a + size {
      DivShift(b - a, a / size, size);
      assert b - a + a / size * size == b;
      QuotientSmall(b - a, size);
    }
  }

  predicate RawRow(r: Rollup) { r.source == RAW_ROLLUP }

  /** A rollup row passes validation, is representable, and a raw one lies in its own bucket. */
  predicate RollupSound(r: Rollup, size: i64)
    requires size > 0
  {
    && RowValid(RollupRow(r)) && Fits(RollupRow(r))
    && (RawRow(r) ==> r.size == size && AlignDown(r.start, size) == r.start && r.end <= r.start + size)
  }

  predicate SampleSound(s: Sample) {
    RawValid(s) && s.end - s.start <= I64_MAX
  }

  predicate IntervalsApart(a: int, b: int, c: int, d: int) {
    b <= c || d <= a
  }

  /** A sample of the row's interface starts after a raw rollup and shares no bucket with any other rollup. */
  predicate SampleClearOf(s: Sample, r: Rollup, size: i64)
    requires size > 0
  {
    if RawRow(r) then r.end <= s.start
    else IntervalsApart(AlignDown(s.start, size), AlignUp(s.end, size), r.start, r.end)
  }

  ghost predicate SamplesApart(samples: seq<Sample>) {
    forall a, b :: a in samples && b in samples && a.id != b.id && a.owner == b.owner
      ==> IntervalsApart(a.start, a.end, b.start, b.end)
  }

  ghost predicate RollupsApart(rollups: seq<Rollup>) {
    forall i, j :: 0 <= i < j < |rollups| && rollups[i].owner == rollups[j].owner
      ==> IntervalsApart(rollups[i].start, rollups[i].end, rollups[j].start, rollups[j].end)
  }

  ghost predicate AllClear(samples: seq<Sample>, rollups: seq<Rollup>, size: i64)
    requires size > 0
  {
    forall s, r :: s in samples && r in rollups && s.owner == r.owner ==> SampleClearOf(s, r, size)
  }

  ghost predicate SamplesSound(samples: seq<Sample>) {
    UniqueSampleIds(samples) && (forall s :: s in samples ==> SampleSound(s)) && SamplesApart(samples)
  }

  ghost predicate RollupsSound(rollups: seq<Rollup>, size: i64)
    requires size > 0
  {
    (forall r :: r in rollups ==> RollupSound(r, size)) && RollupsApart(rollups)
  }

  /** The store's invariant for a fixed rollup bucket size. */
  ghost predicate StoreSound(t: Tables, size: i64) {
    && size > 0
    && SamplesSound(t.samples) && RollupsSound(t.rollups, size) && AllClear(t.samples, t.rollups, size)
  }
}
