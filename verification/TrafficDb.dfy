/** The traffic database object: each method is one transaction that commits or changes nothing. */
module TrafficDb {
  import opened Int64
  import opened Outcomes
  import opened Slices
  import opened BTree
  import opened Contributions
  import opened RowStreams
  import opened TrafficQuery
  import opened TrafficTables
  import opened RollupBatch
  import opened StoreQueries
  import opened Retention
  import opened Commits

  const ROLLUP_SAMPLE_BATCH_SIZE: nat := 10_000
  const RETENTION_DELETE_BATCH_SIZE: nat := 10_000
  const MAX_TRAFFIC_SOURCE_ROWS: nat := 1_000_000

  /** What the caller of a transaction sees. */
  function Answer<A, B>(r: Result<(A, B)>): Result<B> {
    if r.Ok? then Ok(r.value.1) else Err(r.error)
  }

  /** The state a transaction leaves. */
  function After<A, B>(r: Result<(A, B)>, before: A): A {
    if r.Ok? then r.value.0 else before
  }

  /** One turn of the segment loop: what is left to consume is the same consumption. */
  method MoveSegment(s: Sample, size: i64, plannedEnd: i64, at: i64, budget: nat, buckets: Tree<Bucket>)
    returns (segment: Result<(Tree<Bucket>, i64)>)
    requires size > 0 && at < plannedEnd && budget > 0
    ensures segment.Ok? ==> at < segment.value.1 <= plannedEnd
    ensures Consume(s, size, plannedEnd, at, budget, buckets)
         == if segment.Err? then Err(segment.error)
            else Consume(s, size, plannedEnd, segment.value.1, budget - 1, segment.value.0)
  {
    segment := ConsumeSegment(s, size, plannedEnd, at, buckets);
  }

  /** The segment loop of one sample. */
  method ConsumeSample(s: Sample, size: i64, plannedEnd: i64, budget: nat, start: Tree<Bucket>)
    returns (r: Result<(Tree<Bucket>, i64, nat)>)
    requires size > 0 && s.start < plannedEnd
    ensures r == Consume(s, size, plannedEnd, s.start, budget, start)
  {
    var segmentStart, remaining, buckets := s.start, budget, start;
    ghost var whole := Consume(s, size, plannedEnd, s.start, budget, start);
    while segmentStart < plannedEnd && remaining > 0
      invariant s.start <= segmentStart <= plannedEnd
      invariant whole == Consume(s, size, plannedEnd, segmentStart, remaining, buckets)
      decreases remaining
    {
      var segment := MoveSegment(s, size, plannedEnd, segmentStart, remaining, buckets);
      if segment.Err? {
        return Err(segment.error);
      }
      buckets, segmentStart := segment.value.0, segment.value.1;
      remaining := remaining - 1;
    }
    return Ok((buckets, segmentStart, remaining));
  }

  /** What consuming one sample leaves of it: nothing, or a remainder row. */
  method PlanOneSample(p: Progress, s: Sample, size: i64, cutoff: i64) returns (r: Result<Progress>)
    requires size > 0
    ensures r == PlanSample(p, s, size, cutoff)
  {
    if !RawValid(s) {
      return Err(Verification);
    }
    var plannedEnd: i64 := Min(s.end, cutoff);
    if plannedEnd <= s.start {
      return Ok(p);
    }
    var consumption := ConsumeSample(s, size, plannedEnd, p.budget, p.buckets);
    if consumption.Err? {
      return Err(consumption.error);
    }
    var (buckets, consumedEnd, remaining) := consumption.value;
    if consumedEnd == s.end {
      return Ok(Progress(buckets, remaining, p.consumed + [s.id], p.remainders));
    }
    var down := ProportionalSlice(s.down, s.duration, 0, SatSub(consumedEnd, s.start));
    if down.Err? {
      return Err(down.error);
    }
    var up := ProportionalSlice(s.up, s.duration, 0, SatSub(consumedEnd, s.start));
    if up.Err? {
      return Err(up.error);
    }
    return Ok(Progress(buckets, remaining, p.consumed,
                       p.remainders + [Remainder(s.id, consumedEnd, s.end, s.down - down.value, s.up - up.value)]));
  }

  lemma BatchStep(p: Progress, batch: seq<Sample>, i: nat, size: i64, cutoff: i64, next: Result<Progress>)
    requires size > 0 && i < |batch| && p.budget > 0 && next == PlanSample(p, batch[i], size, cutoff)
    ensures PlanBatch(p, batch[i..], size, cutoff)
         == if next.Err? then Err(next.error) else PlanBatch(next.value, batch[i + 1..], size, cutoff)
  {
    assert batch[i..][0] == batch[i] && batch[i..][1..] == batch[i + 1..];
  }

  class TrafficDb {
    var routers: set<int>
    var interfaces: map<int, int>
    var samples: seq<Sample>
    var rollups: seq<Rollup>
    var gaps: seq<Gap>
    var checkpoints: map<Owner, Checkpoint>
    var nextSample: nat
    var nextRollup: nat
    var nextGap: nat

    /** The tables as one value. */
    function State(): Tables
      reads this
    {
      Tables(routers, interfaces, samples, rollups, gaps, checkpoints, nextSample, nextRollup, nextGap)
    }

    constructor ()
      ensures State() == Tables({}, map[], [], [], [], map[], 0, 0, 0)
    {
      routers, interfaces, samples, rollups, gaps, checkpoints := {}, map[], [], [], [], map[];
      nextSample, nextRollup, nextGap := 0, 0, 0;
    }

    method CommitSampleAndCheckpoint(s: SampleInput, c: CheckpointInput) returns (r: Result<bool>)
      modifies this
      ensures r == Answer(CommitSample(old(State()), s, c))
      ensures State() == After(CommitSample(old(State()), s, c), old(State()))
    {
      if !SampleInputValid(s) || !CheckpointInputValid(c) || s.owner != c.owner || s.end != c.observedAt {
        return Err(InvalidCommand);
      }
      if !(s.owner.iface in interfaces && interfaces[s.owner.iface] == s.owner.router) {
        return Err(InvalidCommand);
      }
      var existing := FindSample(samples, s.owner, s.end, s.source);
      if existing.Some? {
        if !SampleMatches(existing.value, s) || c.owner !in checkpoints
          || CheckpointConflicts(checkpoints[c.owner], c) {
          return Err(Verification);
        }
        return Ok(false);
      }
      if c.owner in checkpoints && checkpoints[c.owner].observedAt >= c.observedAt {
        return Err(Verification);
      }
      samples := samples + [NewSample(nextSample, s)];
      nextSample := nextSample + 1;
      checkpoints := checkpoints[c.owner := StoredCheckpoint(c)];
      return Ok(true);
    }

    method CommitGapAndCheckpoint(g: GapInput, c: CheckpointInput) returns (r: Result<bool>)
      modifies this
      ensures r == Answer(CommitGap(old(State()), g, c))
      ensures State() == After(CommitGap(old(State()), g, c), old(State()))
    {
      if !GapInputValid(g) || !CheckpointInputValid(c)
         || g.iface != Some(c.owner.iface) || g.router != c.owner.router || g.end != c.observedAt {
        return Err(InvalidCommand);
      }
      if !KnownInterface(State(), c.owner) {
        return Err(InvalidCommand);
      }
      var existing := FindGap(gaps, g);
      if existing.Some? {
        if DetailsOf(existing.value.details) != DetailsOf(g.details) || c.owner !in checkpoints
           || CheckpointConflicts(checkpoints[c.owner], c) {
          return Err(Verification);
        }
        return Ok(false);
      }
      if c.owner in checkpoints && checkpoints[c.owner].observedAt >= c.observedAt {
        return Err(Verification);
      }
      gaps := gaps + [Gap(nextGap, g.router, g.iface, g.start, g.end, g.reason, g.details)];
      nextGap := nextGap + 1;
      checkpoints := checkpoints[c.owner := StoredCheckpoint(c)];
      return Ok(true);
    }

    method InitializeCheckpointIfAbsent(c: CheckpointInput) returns (r: Result<bool>)
      modifies this
      ensures r == Answer(InitializeCheckpoint(old(State()), c))
      ensures State() == After(InitializeCheckpoint(old(State()), c), old(State()))
    {
      if !CheckpointInputValid(c) || !KnownInterface(State(), c.owner) {
        return Err(InvalidCommand);
      }
      if c.owner in checkpoints {
        return Ok(false);
      }
      checkpoints := checkpoints[c.owner := StoredCheckpoint(c)];
      return Ok(true);
    }

    /** Plans the batch, upserts its buckets, shrinks and deletes its samples, then commits. */
    method RollupExactSamplesBatch(cutoff: i64, size: i64, batchSize: nat) returns (r: Result<nat>)
      modifies this
      ensures r == Answer(RollupTables(old(State()), cutoff, size, batchSize))
      ensures State() == After(RollupTables(old(State()), cutoff, size, batchSize), old(State()))
    {
      if size <= 0 || batchSize * 2 > U64_MAX || batchSize > I64_MAX || batchSize == 0 {
        return Err(InvalidCommand);
      }
      var plan := PlanSamples(ChooseBatch(samples, cutoff, batchSize), batchSize * 2, size, cutoff);
      if plan.Err? {
        return Err(plan.error);
      }
      var p := plan.value;
      var stored := UpsertBuckets(p.buckets, size);
      if stored.Err? {
        return Err(stored.error);
      }
      var settled := SettleSamples(p);
      if settled.Err? {
        return Err(settled.error);
      }
      samples, rollups, nextRollup := settled.value, stored.value, nextRollup + |p.buckets|;
      return Ok(|p.consumed|);
    }

    method PlanSamples(batch: seq<Sample>, budget: nat, size: i64, cutoff: i64) returns (r: Result<Progress>)
      requires size > 0
      ensures r == PlanBatch(Progress([], budget, [], []), batch, size, cutoff)
    {
      var p := Progress([], budget, [], []);
      var i := 0;
      ghost var whole := PlanBatch(p, batch, size, cutoff);
      assert batch[0..] == batch;
      while i < |batch| && p.budget > 0
        invariant 0 <= i <= |batch|
        invariant whole == PlanBatch(p, batch[i..], size, cutoff)
      {
        var next := PlanOneSample(p, batch[i], size, cutoff);
        BatchStep(p, batch, i, size, cutoff, next);
        if next.Err? {
          return Err(next.error);
        }
        p := next.value;
        i := i + 1;
      }
      return Ok(p);
    }

    method UpsertBuckets(buckets: Tree<Bucket>, size: i64) returns (r: Result<seq<Rollup>>)
      ensures r == StoreBuckets(rollups, nextRollup, buckets, size)
    {
      var table := rollups;
      for i := 0 to |buckets|
        invariant StoreBuckets(rollups, nextRollup, buckets, size)
          == StoreBuckets(table, nextRollup + i, buckets[i..], size)
      {
        assert buckets[i..][0] == buckets[i] && buckets[i..][1..] == buckets[i + 1..];
        var row := BucketRow(nextRollup + i, buckets[i], size);
        if row.Err? {
          return Err(row.error);
        }
        var upserted := Upsert(table, row.value, buckets[i].value.start);
        if upserted.Err? {
          return Err(upserted.error);
        }
        table := upserted.value;
      }
      return Ok(table);
    }

    method SettleSamples(p: Progress) returns (r: Result<seq<Sample>>)
      ensures r == if ApplyRemainders(samples, p.remainders).Err? then Err(ApplyRemainders(samples, p.remainders).error)
                   else DeleteConsumed(ApplyRemainders(samples, p.remainders).value, p.consumed)
    {
      var table := samples;
      for i := 0 to |p.remainders|
        invariant ApplyRemainders(samples, p.remainders[..i]) == Ok(table)
      {
        assert p.remainders[..i + 1][..i] == p.remainders[..i];
        var updated := UpdateRow(table, p.remainders[i]);
        if updated.Err? {
          ApplyFails(samples, p.remainders, i + 1);
          return Err(updated.error);
        }
        table := updated.value;
      }
      assert p.remainders[..|p.remainders|] == p.remainders;
      ghost var shrunk := table;
      for i := 0 to |p.consumed|
        invariant DeleteConsumed(shrunk, p.consumed[..i]) == Ok(table)
      {
        assert p.consumed[..i + 1][..i] == p.consumed[..i];
        var left := DeleteRow(table, p.consumed[i]);
        if left.Err? {
          DeleteFails(shrunk, p.consumed, i + 1);
          return Err(left.error);
        }
        table := left.value;
      }
      assert p.consumed[..|p.consumed|] == p.consumed;
      return Ok(table);
    }

    method RollupExactSamples(cutoff: i64, size: i64) returns (r: Result<nat>)
      modifies this
      ensures r == Answer(RollupTables(old(State()), cutoff, size, ROLLUP_SAMPLE_BATCH_SIZE))
      ensures State() == After(RollupTables(old(State()), cutoff, size, ROLLUP_SAMPLE_BATCH_SIZE), old(State()))
    {
      r := RollupExactSamplesBatch(cutoff, size, ROLLUP_SAMPLE_BATCH_SIZE);
    }

    method PruneExactHistoryBatch(before: i64, batchSize: nat) returns (r: Result<int>)
      modifies this
      ensures r == Answer(PruneTables(old(State()), before, batchSize))
      ensures State() == After(PruneTables(old(State()), before, batchSize), old(State()))
    {
      if batchSize > I64_MAX || batchSize == 0 {
        return Err(InvalidCommand);
      }
      var d := ChooseDoomed(State(), before, batchSize);
      var oldSamples, oldRollups, oldGaps := |samples|, |rollups|, |gaps|;
      samples := KeepSamples(samples, d.samples);
      rollups := KeepRollups(rollups, d.rollups);
      gaps := KeepGaps(gaps, d.gaps);
      return Ok(oldSamples - |samples| + oldRollups - |rollups| + oldGaps - |gaps|);
    }

    method PruneExactHistory(before: i64) returns (r: Result<int>)
      modifies this
      ensures r == Answer(PruneTables(old(State()), before, RETENTION_DELETE_BATCH_SIZE))
      ensures State() == After(PruneTables(old(State()), before, RETENTION_DELETE_BATCH_SIZE), old(State()))
    {
      r := PruneExactHistoryBatch(before, RETENTION_DELETE_BATCH_SIZE);
    }

    /** Plans the sources, folds the two streams, and builds the report. */
    method QueryTraffic(q: Query, budget: nat) returns (r: Result<Report>)
      ensures r == QueryStore(State(), q, budget)
    {
      if !QueryValid(q, budget) || !KnownInterface(State(), OwnerIn(q)) {
        return Err(InvalidCommand);
      }
      var ss := Select(SampleRows(samples, OwnerIn(q)), q.from, q.to);
      var rs := Select(RollupRows(rollups, OwnerIn(q)), q.from, q.to);
      var resolution := PlanSources(ss, rs, budget);
      if resolution.Err? {
        return Err(resolution.error);
      }
      var size := Max(MinimumBucketSize(q), resolution.value);
      var folded := FoldStreams(SortByEnd(ss), SortByEnd(rs), Window(q.router, q.iface, q.from, q.to, size), budget);
      if folded.Err? {
        return Err(folded.error);
      }
      var st := folded.value;
      if |st.buckets| > q.maxPoints {
        return Err(Verification);
      }
      var points := CollectPoints(st.buckets, size, q.to);
      var covered := SatAdd(st.totals.exactMs, st.totals.estMs);
      var range := SatSub(q.to, q.from);
      if covered > range {
        return Err(Verification);
      }
      return Ok(Report(size, points, st.totals, range, covered, CountGaps(gaps, q)));
    }

    method QueryTrafficV4(q: Query) returns (r: Result<Report>)
      ensures r == QueryStore(State(), q, MAX_TRAFFIC_SOURCE_ROWS)
    {
      r := QueryTraffic(q, MAX_TRAFFIC_SOURCE_ROWS);
    }
  }

  /** Once an update of a prefix fails, the whole sequence fails with the same error. */
  lemma {:induction false} ApplyFails(samples: seq<Sample>, rs: seq<Remainder>, n: nat)
    requires n <= |rs| && ApplyRemainders(samples, rs[..n]).Err?
    ensures ApplyRemainders(samples, rs) == ApplyRemainders(samples, rs[..n])
    decreases |rs| - n
  {
    if n < |rs| {
      assert rs[..n + 1][..n] == rs[..n];
      ApplyFails(samples, rs, n + 1);
    } else {
      assert rs[..n] == rs;
    }
  }

  lemma {:induction false} DeleteFails(samples: seq<Sample>, ids: seq<nat>, n: nat)
    requires n <= |ids| && DeleteConsumed(samples, ids[..n]).Err?
    ensures DeleteConsumed(samples, ids) == DeleteConsumed(samples, ids[..n])
    decreases |ids| - n
  {
    if n < |ids| {
      assert ids[..n + 1][..n] == ids[..n];
      DeleteFails(samples, ids, n + 1);
    } else {
      assert ids[..n] == ids;
    }
  }
}
