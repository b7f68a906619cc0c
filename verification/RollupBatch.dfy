/** One bounded batch of the rollup job. */
module RollupBatch {
  import opened Int64
  import opened Outcomes
  import opened Slices
  import opened BTree
  import opened Contributions
  import opened TrafficTables
  import SortKeys

  /** A bucket under construction: its tally, first segment start and last segment end. */
  datatype Bucket = Bucket(tally: Tally, start: i64, end: i64)

  datatype Remainder = Remainder(id: nat, start: i64, end: i64, down: int, up: int)

  datatype Progress = Progress(
    buckets: Tree<Bucket>, budget: nat, consumed: seq<nat>, remainders: seq<Remainder>)

  // ----- choosing the batch

  function StartingBefore(samples: seq<Sample>, cutoff: i64): seq<Sample> {
    if samples == [] then []
    else (if samples[0].start < cutoff then [samples[0]] else []) + StartingBefore(samples[1..], cutoff)
  }

  function StartKey(s: Sample): SortKeys.SortKey {
    SortKeys.SortKey(s.start, s.id, "")
  }

  /** Samples that start before the cutoff, ordered by start and then by id. */
  function BeforeCutoff(samples: seq<Sample>, cutoff: i64): seq<Sample> {
    SortKeys.SortByKey(StartingBefore(samples, cutoff), StartKey)
  }

  function ChooseBatch(samples: seq<Sample>, cutoff: i64, limit: nat): seq<Sample> {
    var all := BeforeCutoff(samples, cutoff);
    if |all| <= limit then all else all[..limit]
  }

  // ----- consuming samples

  predicate RawValid(s: Sample) {
    s.end > s.start && s.duration == SatSub(s.end, s.start) && s.down >= 0 && s.up >= 0
  }

  function AlignDown(t: int, size: int): int
    requires size > 0
  {
    t / size * size
  }

  lemma AlignDownBounds(t: int, size: int)
    requires size > 0
    ensures AlignDown(t, size) <= t < AlignDown(t, size) + size
    ensures AlignDown(AlignDown(t, size), size) == AlignDown(t, size)
  {
    DivCancels(t / size, size);
  }

  /** The sample is cut by a bucket boundary or by the cutoff. */
  predicate IsSplit(s: Sample, size: i64, plannedEnd: i64)
    requires size > 0
  {
    s.start / size != (plannedEnd - 1) / size || plannedEnd != s.end
  }

  function AddToBucket(b: Bucket, down: int, up: int, ms: i64, exact: bool, end: i64): Bucket {
    var t := b.tally;
    var t' :=
      if exact then t.(exactDown := t.exactDown + down, exactUp := t.exactUp + up, exactMs := SatAdd(t.exactMs, ms))
      else t.(estDown := t.estDown + down, estUp := t.estUp + up, estMs := SatAdd(t.estMs, ms));
    Bucket(t'.(count := SatAdd(t.count, 1)), b.start, end)
  }

  function SlotOf(o: Owner, start: i64): Slot { Slot(o.router, o.iface, start) }

  /** Moves the segment of a sample that starts at `at` into its bucket; returns the segment end. */
  function ConsumeSegment(s: Sample, size: i64, plannedEnd: i64, at: i64, buckets: Tree<Bucket>)
    : (r: Result<(Tree<Bucket>, i64)>)
    requires size > 0 && at < plannedEnd
    ensures r.Ok? ==> at < r.value.1 <= plannedEnd
  {
    if !FitsI64(AlignDown(at, size)) then Err(Arithmetic)
    else
      AlignDownBounds(at, size);
      var bucketStart: i64 := AlignDown(at, size);
      var segmentEnd := Min(plannedEnd, SatAdd(bucketStart, size));
      var down :- ProportionalSlice(s.down, s.duration, SatSub(at, s.start), SatSub(segmentEnd, s.start));
      var up :- ProportionalSlice(s.up, s.duration, SatSub(at, s.start), SatSub(segmentEnd, s.start));
      var slot := SlotOf(s.owner, bucketStart);
      var found := Get(buckets, slot);
      var prior := if found.Some? then found.value else Bucket(EMPTY_TALLY, at, at);
      if at < prior.end then Err(Verification)
      else
        var exact := s.exact && !IsSplit(s, size, plannedEnd);
        var filled := AddToBucket(prior, down, up, SatSub(segmentEnd, at), exact, segmentEnd);
        Ok((Put(buckets, slot, filled), segmentEnd))
  }

  /** Moves segments of a sample into buckets until `plannedEnd` or until the budget is spent. */
  function Consume(s: Sample, size: i64, plannedEnd: i64, at: i64, budget: nat, buckets: Tree<Bucket>)
    : (r: Result<(Tree<Bucket>, i64, nat)>)
    requires size > 0
    ensures r.Ok? ==> at <= r.value.1 && (at <= plannedEnd ==> r.value.1 <= plannedEnd)
    ensures r.Ok? && r.value.1 < plannedEnd ==> r.value.2 == 0
    ensures r.Ok? && at < plannedEnd && budget > 0 ==> at < r.value.1 && r.value.2 < budget
    ensures r.Ok? ==> r.value.2 <= budget
    decreases plannedEnd - at
  {
    if at >= plannedEnd || budget == 0 then Ok((buckets, at, budget))
    else
      var (filled, segmentEnd) :- ConsumeSegment(s, size, plannedEnd, at, buckets);
      Consume(s, size, plannedEnd, segmentEnd, budget - 1, filled)
  }

  function PlanSample(p: Progress, s: Sample, size: i64, cutoff: i64): Result<Progress>
    requires size > 0
  {
    var plannedEnd := Min(s.end, cutoff);
    if !RawValid(s) then Err(Verification)
    else if plannedEnd <= s.start then Ok(p)
    else
      var (buckets, consumedEnd, budget) :- Consume(s, size, plannedEnd, s.start, p.budget, p.buckets);
      if consumedEnd == s.end then Ok(Progress(buckets, budget, p.consumed + [s.id], p.remainders))
      else
        var down :- ProportionalSlice(s.down, s.duration, 0, SatSub(consumedEnd, s.start));
        var up :- ProportionalSlice(s.up, s.duration, 0, SatSub(consumedEnd, s.start));
        Ok(Progress(buckets, budget, p.consumed,
                    p.remainders + [Remainder(s.id, consumedEnd, s.end, s.down - down, s.up - up)]))
  }

  function PlanBatch(p: Progress, batch: seq<Sample>, size: i64, cutoff: i64): Result<Progress>
    requires size > 0
    decreases |batch|
  {
    if batch == [] || p.budget == 0 then Ok(p)
    else
      var next :- PlanSample(p, batch[0], size, cutoff);
      PlanBatch(next, batch[1..], size, cutoff)
  }

  // ----- storing buckets

  predicate SameBucketRow(a: Rollup, b: Rollup) {
    a.owner == b.owner && a.size == b.size && a.start == b.start && a.source == b.source
  }

  /** The guard of the conflicting update: coverage, order, and integer limits. */
  predicate Mergeable(a: Rollup, b: Rollup, batchStart: i64) {
    && a.exactMs + a.estMs + b.exactMs + b.estMs <= b.size
    && batchStart >= a.end
    && a.exactDown <= I64_MAX - b.exactDown && a.exactUp <= I64_MAX - b.exactUp
    && a.estDown <= I64_MAX - b.estDown && a.estUp <= I64_MAX - b.estUp
    && a.count <= I64_MAX - b.count
  }

  function MergeRows(a: Rollup, b: Rollup, batchStart: i64): Rollup
    requires Mergeable(a, b, batchStart)
  {
    a.(exactDown := a.exactDown + b.exactDown, exactUp := a.exactUp + b.exactUp,
       estDown := a.estDown + b.estDown, estUp := a.estUp + b.estUp,
       exactMs := a.exactMs + b.exactMs, estMs := a.estMs + b.estMs,
       count := a.count + b.count, end := Max(a.end, b.end))
  }

  function Upsert(rollups: seq<Rollup>, row: Rollup, batchStart: i64): Result<seq<Rollup>> {
    if rollups == [] then Ok([row])
    else if SameBucketRow(rollups[0], row) then
      if Mergeable(rollups[0], row, batchStart) then Ok([MergeRows(rollups[0], row, batchStart)] + rollups[1..])
      else Err(Verification)
    else
      var rest :- Upsert(rollups[1..], row, batchStart);
      Ok([rollups[0]] + rest)
  }

  /** The row a bucket is stored as, after the checks on its totals. */
  function BucketRow(id: nat, e: Entry<Bucket>, size: i64): Result<Rollup> {
    var t := e.value.tally;
    if !FitsI64(t.exactDown) || !FitsI64(t.exactUp) || !FitsI64(t.estDown) || !FitsI64(t.estUp) then Err(Verification)
    else if SatAdd(t.exactMs, t.estMs) <= 0 || SatAdd(t.exactMs, t.estMs) > size then Err(Verification)
    else if t.exactDown < 0 || t.exactUp < 0 || t.estDown < 0 || t.estUp < 0 || t.exactMs < 0 || t.estMs < 0
         || t.count <= 0 || e.value.end <= e.slot.start then Err(Storage)
    else
      Ok(Rollup(id, Owner(e.slot.router, e.slot.iface), e.slot.start, e.value.end, size,
                t.exactDown, t.exactUp, t.estDown, t.estUp, t.exactMs, t.estMs, t.count, RAW_ROLLUP))
  }

  /** Upserts the buckets in key order; the i-th new row would get id `nextId + i`. */
  function StoreBuckets(rollups: seq<Rollup>, nextId: nat, buckets: Tree<Bucket>, size: i64): Result<seq<Rollup>>
    decreases |buckets|
  {
    if buckets == [] then Ok(rollups)
    else
      var row :- BucketRow(nextId, buckets[0], size);
      var stored :- Upsert(rollups, row, buckets[0].value.start);
      StoreBuckets(stored, nextId + 1, buckets[1..], size)
  }

  // ----- settling samples

  function Shrink(s: Sample, r: Remainder, down: u63, up: u63): Sample
    requires r.start < r.end
  {
    var ms := SatSub(r.end, r.start);
    s.(start := r.start, duration := ms, down := down, up := up,
       downBps := (down * 8000) as real / ms as real, upBps := (up * 8000) as real / ms as real,
       exact := false)
  }

  function UpdateRow(samples: seq<Sample>, r: Remainder): Result<seq<Sample>> {
    if !FitsI64(r.down) || !FitsI64(r.up) || samples == [] then Err(Verification)
    else if samples[0].id == r.id then
      if r.down < 0 || r.up < 0 || r.end <= r.start then Err(Storage)
      else Ok([Shrink(samples[0], r, r.down, r.up)] + samples[1..])
    else
      var rest :- UpdateRow(samples[1..], r);
      Ok([samples[0]] + rest)
  }

  function DeleteRow(samples: seq<Sample>, id: nat): Result<seq<Sample>> {
    if samples == [] then Err(Verification)
    else if samples[0].id == id then Ok(samples[1..])
    else
      var rest :- DeleteRow(samples[1..], id);
      Ok([samples[0]] + rest)
  }

  function ApplyRemainders(samples: seq<Sample>, remainders: seq<Remainder>): Result<seq<Sample>> {
    if remainders == [] then Ok(samples)
    else
      var n := |remainders| - 1;
      var earlier :- ApplyRemainders(samples, remainders[..n]);
      UpdateRow(earlier, remainders[n])
  }

  function DeleteConsumed(samples: seq<Sample>, ids: seq<nat>): Result<seq<Sample>> {
    if ids == [] then Ok(samples)
    else
      var n := |ids| - 1;
      var earlier :- DeleteConsumed(samples, ids[..n]);
      DeleteRow(earlier, ids[n])
  }

  // ----- the transaction

  /** New tables and number of rows fully removed, or the error that rolls everything back. */
  function RollupTables(t: Tables, cutoff: i64, size: i64, batchSize: nat): Result<(Tables, nat)> {
    if size <= 0 || batchSize * 2 > U64_MAX || batchSize > I64_MAX || batchSize == 0 then Err(InvalidCommand)
    else
      var batch := ChooseBatch(t.samples, cutoff, batchSize);
      var p :- PlanBatch(Progress([], batchSize * 2, [], []), batch, size, cutoff);
      var rollups :- StoreBuckets(t.rollups, t.nextRollup, p.buckets, size);
      var shrunk :- ApplyRemainders(t.samples, p.remainders);
      var samples :- DeleteConsumed(shrunk, p.consumed);
      Ok((t.(samples := samples, rollups := rollups, nextRollup := t.nextRollup + |p.buckets|), |p.consumed|))
  }
}
