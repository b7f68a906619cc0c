/** How many pieces of samples a rollup batch moves, and how its rows count them. */
module RollupCounts {
  import opened Int64
  import opened Outcomes
  import opened Slices
  import opened BTree
  import opened Contributions
  import opened TrafficTables
  import opened RollupBatch
  import opened RollupConservation
  import opened RollupTheorems
  import opened RollupSafety
  import opened RollupGuarantees
  import opened RollupRows
  import opened RollupExactness
  import opened RollupReach

  /** Number of aligned buckets that `[a, b)` touches. */
  function Pieces(a: int, b: int, size: int): nat
    requires size > 0
  {
    if a < b then
      DivMonotone(a, b - 1, size);
      (b - 1) / size - a / size + 1
    else 0
  }

  lemma PiecesSplit(a: int, b: int, size: int)
    requires size > 0 && a < b
    ensures var end := Min(b, AlignDown(a, size) + size);
      a < end && Pieces(a, end, size) == 1 && Pieces(a, b, size) == 1 + Pieces(end, b, size)
  {
    AlignDownBounds(a, size);
    var end := Min(b, AlignDown(a, size) + size);
    SameQuotient(a, end - 1, size);
    if end < b {
      NextBoundary(a, size);
      DivShift(AlignDown(a, size), 1, size);
      DivCancels(a / size, size);
      assert end == AlignDown(a, size) + 1 * size;
      assert end / size == a / size + 1;
    }
  }

  lemma SameQuotient(a: int, b: int, size: int)
    requires size > 0 && AlignDown(a, size) <= b < AlignDown(a, size) + size
    ensures b / size == a / size
  {
    DivShift(b - AlignDown(a, size), a / size, size);
    QuotientSmall(b - AlignDown(a, size), size);
    assert b - AlignDown(a, size) + a / size * size == b;
  }

  // ----- buckets

  function CountIn(t: Tree<Bucket>): int {
    if t == [] then 0 else t[0].value.tally.count + CountIn(t[1..])
  }

  /** No bucket counts more pieces than it holds milliseconds. */
  ghost predicate CountsFit(t: Tree<Bucket>) {
    forall e :: e in t ==> 0 <= e.value.tally.count <= e.value.tally.exactMs + e.value.tally.estMs
  }

  lemma {:induction false} CountAfterPut(t: Tree<Bucket>, k: Slot, v: Bucket)
    ensures CountIn(Put(t, k, v)) == CountIn(t) + v.tally.count
      - (if Get(t, k).Some? then Get(t, k).value.tally.count else 0)
  {
    if t != [] && !Less(k, t[0].slot) && t[0].slot != k {
      CountAfterPut(t[1..], k, v);
      assert ([t[0]] + Put(t[1..], k, v))[1..] == Put(t[1..], k, v);
    } else if t != [] && t[0].slot == k {
      assert ([Entry(k, v)] + t[1..])[1..] == t[1..];
    } else {
      assert ([Entry(k, v)] + t)[1..] == t;
    }
  }

  lemma SegmentCounts(s: Sample, size: i64, plannedEnd: i64, at: i64, buckets: Tree<Bucket>)
    requires size > 0 && RawValid(s) && s.start <= at < plannedEnd <= s.end && BatchSound(buckets, size)
    requires CountsFit(buckets) && ConsumeSegment(s, size, plannedEnd, at, buckets).Ok?
    ensures var (filled, end) := ConsumeSegment(s, size, plannedEnd, at, buckets).value;
      && end == Min(plannedEnd, AlignDown(at, size) + size) && BatchSound(filled, size)
      && CountsFit(filled) && CountIn(filled) == CountIn(buckets) + 1
  {
    var slot, b := SegmentShape(s, size, plannedEnd, at, buckets, Time);
    AlignDownBounds(at, size);
    GetFinds(buckets, slot);
    CountAfterPut(buckets, slot, b);
    BatchSoundAfterPut(buckets, slot, b, size);
    assert BucketSound(Entry(slot, b), size);
  }

  lemma {:induction false} ConsumeCounts(s: Sample, size: i64, plannedEnd: i64, at: i64, budget: nat,
      buckets: Tree<Bucket>)
    requires size > 0 && RawValid(s) && s.start <= at <= plannedEnd <= s.end && BatchSound(buckets, size)
    requires CountsFit(buckets) && Consume(s, size, plannedEnd, at, budget, buckets).Ok?
    ensures var (buckets', stop, budget') := Consume(s, size, plannedEnd, at, budget, buckets).value;
      && BatchSound(buckets', size) && CountsFit(buckets') && at <= stop <= plannedEnd
      && CountIn(buckets') == CountIn(buckets) + Pieces(at, stop, size)
      && budget' == budget - Pieces(at, stop, size)
      && (stop == plannedEnd || budget' == 0)
    decreases plannedEnd - at
  {
    if at < plannedEnd && budget > 0 {
      SegmentCounts(s, size, plannedEnd, at, buckets);
      var (filled, end) := ConsumeSegment(s, size, plannedEnd, at, buckets).value;
      ConsumeCounts(s, size, plannedEnd, end, budget - 1, filled);
      var stop := Consume(s, size, plannedEnd, end, budget - 1, filled).value.1;
      PiecesUpTo(at, end, stop, plannedEnd, size);
    }
  }

  lemma PiecesUpTo(at: int, end: int, stop: int, plannedEnd: int, size: int)
    requires size > 0 && at < plannedEnd && end == Min(plannedEnd, AlignDown(at, size) + size)
    requires end <= stop <= plannedEnd
    ensures Pieces(at, stop, size) == 1 + Pieces(end, stop, size)
  {
    AlignDownBounds(at, size);
    PiecesSplit(at, stop, size);
  }

  // ----- plans

  /** Where the consumed part of each settled sample ends. */
  type Stops = map<nat, int>

  function PiecesAmong(samples: seq<Sample>, stops: Stops, size: int): int
    requires size > 0
  {
    if samples == [] then 0
    else
      (if samples[0].id in stops then Pieces(samples[0].start, stops[samples[0].id], size) else 0)
      + PiecesAmong(samples[1..], stops, size)
  }

  lemma {:induction false} PiecesElsewhere(samples: seq<Sample>, stops: Stops, size: int, id: nat, stop: int)
    requires size > 0 && forall s :: s in samples ==> s.id != id
    ensures PiecesAmong(samples, stops[id := stop], size) == PiecesAmong(samples, stops, size)
  {
    if samples != [] {
      assert samples[0] in samples;
      PiecesElsewhere(samples[1..], stops, size, id, stop);
    }
  }

  lemma {:induction false} PiecesWithOne(samples: seq<Sample>, stops: Stops, size: int, s: Sample, stop: int)
    requires size > 0 && UniqueSampleIds(samples) && s in samples && s.id !in stops
    ensures PiecesAmong(samples, stops[s.id := stop], size)
         == PiecesAmong(samples, stops, size) + Pieces(s.start, stop, size)
  {
    assert samples == [samples[0]] + samples[1..];
    if samples[0] == s {
      PiecesElsewhere(samples[1..], stops, size, s.id, stop);
    } else {
      PiecesWithOne(samples[1..], stops, size, s, stop);
      assert samples[0].id != s.id;
    }
  }

  /** The stops are those of the plan, and its counts and budget are what it moved. */
  ghost predicate Counts(start: Progress, p: Progress, samples: seq<Sample>, stops: Stops, size: i64)
    requires size > 0
  {
    && BatchSound(p.buckets, size) && CountsFit(p.buckets)
    && stops.Keys == SettledIds(p)
    && (forall r :: r in p.remainders ==> stops[r.id] == r.start)
    && (forall id :: id in p.consumed ==> Lookup(samples, id).Some? && stops[id] == Lookup(samples, id).value.end)
    && CountIn(p.buckets) == PiecesAmong(samples, stops, size)
    && start.budget - p.budget == PiecesAmong(samples, stops, size)
  }

  /** While some budget is left, every settled sample was consumed up to its end or the cutoff. */
  ghost predicate Thorough(p: Progress, cutoff: int) {
    p.budget > 0 ==> RestsAtCutoff(p, cutoff)
  }

  lemma SampleCounts(start: Progress, p: Progress, s: Sample, size: i64, cutoff: i64, samples: seq<Sample>,
      stops: Stops) returns (stops': Stops)
    requires size > 0 && p.budget > 0 && s.start < cutoff && PlanSample(p, s, size, cutoff).Ok?
    requires UniqueSampleIds(samples) && s in samples && Lookup(samples, s.id) == Some(s) && s.id !in stops
    requires Counts(start, p, samples, stops, size) && Thorough(p, cutoff)
    ensures Counts(start, PlanSample(p, s, size, cutoff).value, samples, stops', size)
    ensures Thorough(PlanSample(p, s, size, cutoff).value, cutoff)
    ensures SettledIds(PlanSample(p, s, size, cutoff).value) == SettledIds(p) + {s.id}
  {
    var p' := PlanSample(p, s, size, cutoff).value;
    var at := PlanSampleShape(p, s, size, cutoff);
    ConsumeCounts(s, size, Min(s.end, cutoff), s.start, p.budget, p.buckets);
    SettledIdsGrow(p, p', s, at);
    PiecesWithOne(samples, stops, size, s, at);
    stops' := stops[s.id := at];
    StopsKept(p, p', s, at, samples, stops, stops');
  }

  lemma StopsKept(p: Progress, p': Progress, s: Sample, at: i64, samples: seq<Sample>, stops: Stops, stops': Stops)
    requires s.duration > 0 && Lookup(samples, s.id) == Some(s) && s.id !in stops && stops' == stops[s.id := at]
    requires stops.Keys == SettledIds(p) && (forall r :: r in p.remainders ==> stops[r.id] == r.start)
    requires forall id :: id in p.consumed ==> Lookup(samples, id).Some? && stops[id] == Lookup(samples, id).value.end
    requires p'.consumed == if at == s.end then p.consumed + [s.id] else p.consumed
    requires p'.remainders == if at == s.end then p.remainders else p.remainders + [RestOf(s, at)]
    ensures stops'.Keys == SettledIds(p') && forall r :: r in p'.remainders ==> stops'[r.id] == r.start
    ensures forall id :: id in p'.consumed ==>
      Lookup(samples, id).Some? && stops'[id] == Lookup(samples, id).value.end
  {
    SettledIdsGrow(p, p', s, at);
    forall r | r in p.remainders ensures r.id in stops && r.id != s.id {
      assert r.id in SettledIds(p);
    }
    forall id | id in p.consumed ensures id in stops && id != s.id {
      assert id in SettledIds(p);
    }
  }

  lemma {:induction false} BatchCounts(start: Progress, p: Progress, batch: seq<Sample>, size: i64, cutoff: i64,
      samples: seq<Sample>, stops: Stops) returns (stops': Stops)
    requires size > 0 && PlanBatch(p, batch, size, cutoff).Ok? && UniqueSampleIds(samples) && UniqueSampleIds(batch)
    requires forall s :: s in batch ==>
      s.start < cutoff && s in samples && Lookup(samples, s.id) == Some(s) && s.id !in stops
    requires Counts(start, p, samples, stops, size) && Thorough(p, cutoff)
    ensures var done := PlanBatch(p, batch, size, cutoff).value;
      && Counts(start, done, samples, stops', size) && Thorough(done, cutoff)
      && (done.budget > 0 ==> SettledIds(done) == SettledIds(p) + IdsOf(batch))
    decreases |batch|
  {
    stops' := stops;
    if batch != [] && p.budget > 0 {
      assert batch[0] in batch;
      var next := PlanSample(p, batch[0], size, cutoff).value;
      var reached := SampleCounts(start, p, batch[0], size, cutoff, samples, stops);
      forall s | s in batch[1..] ensures s in batch && s.id !in reached {
        assert s.id != batch[0].id;
      }
      stops' := BatchCounts(start, next, batch[1..], size, cutoff, samples, reached);
      IdsOfHead(batch);
    }
  }

  // ----- the rollup table

  function SumCounts(rollups: seq<Rollup>): int {
    if rollups == [] then 0 else rollups[0].count + SumCounts(rollups[1..])
  }

  lemma {:induction false} UpsertCounts(rollups: seq<Rollup>, row: Rollup, batchStart: i64)
    requires Upsert(rollups, row, batchStart).Ok?
    ensures SumCounts(Upsert(rollups, row, batchStart).value) == SumCounts(rollups) + row.count
  {
    if rollups == [] {
    } else if SameBucketRow(rollups[0], row) {
      var merged := MergeRows(rollups[0], row, batchStart);
      assert ([merged] + rollups[1..])[1..] == rollups[1..];
    } else {
      UpsertCounts(rollups[1..], row, batchStart);
      var rest := Upsert(rollups[1..], row, batchStart).value;
      assert ([rollups[0]] + rest)[1..] == rest;
    }
  }

  lemma {:induction false} StoreCounts(rollups: seq<Rollup>, nextId: nat, buckets: Tree<Bucket>, size: i64)
    requires StoreBuckets(rollups, nextId, buckets, size).Ok?
    ensures SumCounts(StoreBuckets(rollups, nextId, buckets, size).value) == SumCounts(rollups) + CountIn(buckets)
    decreases |buckets|
  {
    if buckets != [] {
      var row := BucketRow(nextId, buckets[0], size).value;
      UpsertCounts(rollups, row, buckets[0].value.start);
      StoreCounts(Upsert(rollups, row, buckets[0].value.start).value, nextId + 1, buckets[1..], size);
    }
  }

  // ----- the batch

  /** Up to where a settled sample was consumed: what is left of it starts there. */
  function StopIn(s: Sample, after: seq<Sample>): int {
    if Lookup(after, s.id).Some? then Lookup(after, s.id).value.start else s.end
  }

  /** Pieces of the settled samples that were moved. */
  function PiecesMoved(before: seq<Sample>, after: seq<Sample>, size: int): int
    requires size > 0
  {
    if before == [] then 0
    else
      (if before[0] in after then 0 else Pieces(before[0].start, StopIn(before[0], after), size))
      + PiecesMoved(before[1..], after, size)
  }

  lemma {:induction false} PiecesByRows(before: seq<Sample>, after: seq<Sample>, stops: Stops, size: int)
    requires size > 0
    requires forall s :: s in before ==> (s in after <==> s.id !in stops)
    requires forall s :: s in before && s.id in stops ==> stops[s.id] == StopIn(s, after)
    ensures PiecesMoved(before, after, size) == PiecesAmong(before, stops, size)
  {
    if before != [] {
      assert before[0] in before;
      PiecesByRows(before[1..], after, stops, size);
    }
  }

  lemma StopsAreSeen(t: Tables, cutoff: i64, size: i64, batchSize: nat, stops: Stops, s: Sample)
    requires UniqueSampleIds(t.samples) && RollupTables(t, cutoff, size, batchSize).Ok? && size > 0
    requires s in t.samples && s.id in stops
    requires Counts(StartOf(batchSize), PlanOf(t, cutoff, size, batchSize), t.samples, stops, size)
    ensures stops[s.id] == StopIn(s, RollupTables(t, cutoff, size, batchSize).value.0.samples)
  {
    var p, after := PlanOf(t, cutoff, size, batchSize), RollupTables(t, cutoff, size, batchSize).value.0.samples;
    PlanLeavesRests(t, cutoff, size, batchSize);
    SettledRows(t.samples, p, size, cutoff);
    LookupFinds(t.samples, s);
    LookupNone(after, s.id);
    SettledIdsMeaning(p, s.id);
    if s.id in p.consumed {
      ConsumedIsGone(t, cutoff, size, batchSize, s);
    } else {
      var r :| r in p.remainders && r.id == s.id;
      RestIsLeft(t, cutoff, size, batchSize, r);
    }
  }

  lemma {:induction false} DeletedIsGone(samples: seq<Sample>, ids: seq<nat>, id: nat)
    requires UniqueSampleIds(samples) && DeleteConsumed(samples, ids).Ok? && id in ids
    ensures Lookup(DeleteConsumed(samples, ids).value, id).None?
    ensures UniqueSampleIds(DeleteConsumed(samples, ids).value)
    decreases |ids|
  {
    var n := |ids| - 1;
    DeletesKeepUnique(samples, ids[..n]);
    var earlier := DeleteConsumed(samples, ids[..n]).value;
    DeletedRow(earlier, ids[n]);
    if id != ids[n] {
      assert ids == ids[..n] + [ids[n]];
      DeletedIsGone(samples, ids[..n], id);
      LookupNone(earlier, id);
      LookupNone(DeleteRow(earlier, ids[n]).value, id);
    }
  }

  lemma {:induction false} DeletesKeepUnique(samples: seq<Sample>, ids: seq<nat>)
    requires UniqueSampleIds(samples) && DeleteConsumed(samples, ids).Ok?
    ensures UniqueSampleIds(DeleteConsumed(samples, ids).value)
    decreases |ids|
  {
    if ids != [] {
      var n := |ids| - 1;
      DeletesKeepUnique(samples, ids[..n]);
      DeletedRow(DeleteConsumed(samples, ids[..n]).value, ids[n]);
    }
  }

  lemma {:induction false} DeletedRow(samples: seq<Sample>, id: nat)
    requires UniqueSampleIds(samples) && DeleteRow(samples, id).Ok?
    ensures var left := DeleteRow(samples, id).value;
      UniqueSampleIds(left) && Lookup(left, id).None? && forall x :: x in left ==> x in samples
  {
    assert samples == [samples[0]] + samples[1..];
    if samples[0].id == id {
      LookupNone(samples[1..], id);
      assert forall x :: x in samples[1..] ==> x.id != id;
    } else {
      DeletedRow(samples[1..], id);
      var left := DeleteRow(samples[1..], id).value;
      assert forall i :: 0 <= i < |left| ==> left[i] in samples[1..];
    }
  }

  lemma ConsumedIsGone(t: Tables, cutoff: i64, size: i64, batchSize: nat, s: Sample)
    requires UniqueSampleIds(t.samples) && RollupTables(t, cutoff, size, batchSize).Ok?
    requires s.id in PlanOf(t, cutoff, size, batchSize).consumed
    ensures Lookup(RollupTables(t, cutoff, size, batchSize).value.0.samples, s.id).None?
  {
    var p := PlanOf(t, cutoff, size, batchSize);
    PlanLeavesRests(t, cutoff, size, batchSize);
    forall r | r in p.remainders ensures RemainderStorable(t.samples, r) {
      RestIsStorable(t.samples, r, size, cutoff);
    }
    assert p.remainders[..|p.remainders|] == p.remainders;
    RemaindersShape(t.samples, p, |p.remainders|);
    DeletedIsGone(ApplyRemainders(t.samples, p.remainders).value, p.consumed, s.id);
  }

  lemma {:induction false} UpdateLeaves(samples: seq<Sample>, r: Remainder)
    requires UpdateRow(samples, r).Ok?
    ensures var updated := UpdateRow(samples, r).value;
      Lookup(updated, r.id).Some? && Lookup(updated, r.id).value.start == r.start
  {
    if samples[0].id != r.id {
      UpdateLeaves(samples[1..], r);
      var rest := UpdateRow(samples[1..], r).value;
      assert ([samples[0]] + rest)[1..] == rest;
    }
  }

  lemma {:induction false} RemainderLeaves(samples: seq<Sample>, p: Progress, n: nat, i: nat)
    requires SettlesOnce(samples, p) && i < n <= |p.remainders| && ApplyRemainders(samples, p.remainders[..n]).Ok?
    ensures var shrunk := ApplyRemainders(samples, p.remainders[..n]).value;
      && Lookup(shrunk, p.remainders[i].id).Some?
      && Lookup(shrunk, p.remainders[i].id).value.start == p.remainders[i].start
  {
    assert p.remainders[..n][..n - 1] == p.remainders[..n - 1];
    var earlier := ApplyRemainders(samples, p.remainders[..n - 1]).value;
    var r := p.remainders[n - 1];
    if i == n - 1 {
      UpdateLeaves(earlier, r);
    } else {
      RemainderLeaves(samples, p, n - 1, i);
      RemaindersConserve(samples, p, n - 1, Time, OwnerFilter(Owner(0, 0)));
      UpdateConserves(earlier, r, Time, OwnerFilter(Owner(0, 0)));
    }
  }

  lemma RestIsLeft(t: Tables, cutoff: i64, size: i64, batchSize: nat, r: Remainder)
    requires UniqueSampleIds(t.samples) && RollupTables(t, cutoff, size, batchSize).Ok?
    requires r in PlanOf(t, cutoff, size, batchSize).remainders
    ensures var after := RollupTables(t, cutoff, size, batchSize).value.0.samples;
      Lookup(after, r.id).Some? && Lookup(after, r.id).value.start == r.start
  {
    var p := PlanOf(t, cutoff, size, batchSize);
    PlanLeavesRests(t, cutoff, size, batchSize);
    var i :| 0 <= i < |p.remainders| && p.remainders[i] == r;
    assert p.remainders[..|p.remainders|] == p.remainders;
    RemainderLeaves(t.samples, p, |p.remainders|, i);
    assert r.id !in p.consumed;
    DeletesKeepOthers(ApplyRemainders(t.samples, p.remainders).value, p.consumed, r.id);
  }

  /**
   * The rollup rows count one for every bucket a settled sample was moved into, and a batch moves at
   * most twice its size. It either moves exactly that many, or settles as many due samples as its
   * size allows and consumes each to its end or to the cutoff.
   */
  lemma RollupCountsPieces(t: Tables, cutoff: i64, size: i64, batchSize: nat)
    requires UniqueSampleIds(t.samples) && RollupTables(t, cutoff, size, batchSize).Ok?
    ensures size > 0
    ensures var t' := RollupTables(t, cutoff, size, batchSize).value.0;
      var moved := PiecesMoved(t.samples, t'.samples, size);
      && SumCounts(t'.rollups) == SumCounts(t.rollups) + moved
      && moved <= 2 * batchSize
      && (moved == 2 * batchSize
          || (&& |Gone(t.samples, t'.samples)| == Min(batchSize, |Due(t.samples, cutoff)|)
              && forall x :: x in t'.samples && x !in t.samples ==> x.start == cutoff))
  {
    var p, after := PlanOf(t, cutoff, size, batchSize), RollupTables(t, cutoff, size, batchSize).value.0.samples;
    var stops := PlanCounted(t, cutoff, size, batchSize);
    PlanLeavesRests(t, cutoff, size, batchSize);
    SettledRows(t.samples, p, size, cutoff);
    forall s | s in t.samples ensures s in after <==> s.id !in stops
      ensures s.id in stops ==> stops[s.id] == StopIn(s, after)
    {
      SettledIdsMeaning(p, s.id);
      if s.id in stops {
        StopsAreSeen(t, cutoff, size, batchSize, stops, s);
      }
    }
    PiecesByRows(t.samples, after, stops, size);
    StoreCounts(t.rollups, t.nextRollup, p.buckets, size);
    if p.budget > 0 {
      WholeBatchSettled(t, cutoff, size, batchSize);
    }
  }

  lemma PlanCounted(t: Tables, cutoff: i64, size: i64, batchSize: nat) returns (stops: Stops)
    requires UniqueSampleIds(t.samples) && RollupTables(t, cutoff, size, batchSize).Ok?
    ensures size > 0
    ensures var p := PlanOf(t, cutoff, size, batchSize);
      && Counts(StartOf(batchSize), p, t.samples, stops, size) && Thorough(p, cutoff)
      && (p.budget > 0 ==> SettledIds(p) == IdsOf(ChooseBatch(t.samples, cutoff, batchSize)))
  {
    var start, batch := StartOf(batchSize), ChooseBatch(t.samples, cutoff, batchSize);
    BatchIsOrdered(t.samples, cutoff, batchSize);
    NoPieces(t.samples, size);
    assert SettledIds(start) == {};
    stops := BatchCounts(start, start, batch, size, cutoff, t.samples, map[]);
  }

  lemma {:induction false} NoPieces(samples: seq<Sample>, size: int)
    requires size > 0
    ensures PiecesAmong(samples, map[], size) == 0
  {
    if samples != [] {
      NoPieces(samples[1..], size);
    }
  }
}
