/** How much retention deletes, and that repeating it deletes everything expired. */
module RetentionProgress {
  import opened Int64
  import opened Outcomes
  import opened TrafficTables
  import opened Counting
  import opened Retention
  import opened StoreInvariant
  import SortKeys

  // ----- rows that end by the boundary

  function ExpiredSamples(samples: seq<Sample>, before: int): set<Sample> { set s | s in samples && s.end <= before }

  function ExpiredRollups(rollups: seq<Rollup>, before: int): set<Rollup> { set r | r in rollups && r.end <= before }

  function ExpiredGaps(gaps: seq<Gap>, before: int): set<Gap> { set g | g in gaps && g.end <= before }

  /** Number of rows of the three tables that end by the boundary. */
  function ExpiredRows(t: Tables, before: int): nat {
    |ExpiredSamples(t.samples, before)| + |ExpiredRollups(t.rollups, before)| + |ExpiredGaps(t.gaps, before)|
  }

  // ----- the chosen ids

  ghost predicate UniqueExpiryIds(rows: seq<Expiry>) {
    forall i, j :: 0 <= i < j < |rows| ==> rows[i].id != rows[j].id
  }

  lemma {:induction false} EndingByUnique(rows: seq<Expiry>, before: i64)
    requires UniqueExpiryIds(rows)
    ensures UniqueExpiryIds(EndingBy(rows, before))
  {
    if rows != [] {
      EndingByUnique(rows[1..], before);
      var rest := EndingBy(rows[1..], before);
      forall i | 0 <= i < |rest| ensures rest[i].id != rows[0].id {
        EndingByMeaning(rows[1..], before, rest[i]);
      }
    }
  }

  lemma {:induction false} InsertUnique(x: Expiry, rows: seq<Expiry>)
    requires UniqueExpiryIds(rows) && forall y :: y in rows ==> y.id != x.id
    ensures UniqueExpiryIds(SortKeys.Insert(x, rows, ExpiryKey))
    ensures forall y :: y in SortKeys.Insert(x, rows, ExpiryKey) <==> y == x || y in rows
  {
    if rows != [] && !SortKeys.Leq(ExpiryKey(x), ExpiryKey(rows[0])) {
      assert rows == [rows[0]] + rows[1..];
      InsertUnique(x, rows[1..]);
      var rest := SortKeys.Insert(x, rows[1..], ExpiryKey);
      assert forall i :: 0 <= i < |rest| ==> rest[i] in rest;
    }
  }

  lemma {:induction false} SortUnique(rows: seq<Expiry>)
    requires UniqueExpiryIds(rows)
    ensures UniqueExpiryIds(SortKeys.SortByKey(rows, ExpiryKey))
    ensures forall y :: y in SortKeys.SortByKey(rows, ExpiryKey) <==> y in rows
  {
    if rows != [] {
      assert rows == [rows[0]] + rows[1..];
      SortUnique(rows[1..]);
      InsertUnique(rows[0], SortKeys.SortByKey(rows[1..], ExpiryKey));
    }
  }

  function IdsOf(rows: seq<Expiry>): seq<nat> {
    seq(|rows|, i requires 0 <= i < |rows| => rows[i].id)
  }

  lemma IdsCount(rows: seq<Expiry>)
    requires UniqueExpiryIds(rows)
    ensures |set x | x in rows :: x.id| == |rows|
  {
    var ids := set x | x in rows :: x.id;
    forall id ensures id in IdsOf(rows) <==> id in ids {
      if id in ids {
        var x :| x in rows && x.id == id;
        var i :| 0 <= i < |rows| && rows[i] == x;
        assert IdsOf(rows)[i] == id;
      }
    }
    SameElements(IdsOf(rows), ids);
  }

  /** A batch chooses as many expired rows as its size allows. */
  lemma ChosenCount(rows: seq<Expiry>, before: i64, limit: nat)
    requires UniqueExpiryIds(rows)
    ensures |ChosenIds(rows, before, limit)| == Min(limit, |EndingBy(rows, before)|)
  {
    EndingByUnique(rows, before);
    SortUnique(EndingBy(rows, before));
    var all := Expired(rows, before);
    SortKeys.SortKeepsItems(EndingBy(rows, before), ExpiryKey);
    assert |all| == |multiset(all)| == |EndingBy(rows, before)|;
    var chosen := if |all| <= limit then all else all[..limit];
    IdsCount(chosen);
  }

  /** An id that is chosen is the id of some row. */
  lemma ChosenAreRows(rows: seq<Expiry>, before: i64, limit: nat)
    ensures forall id :: id in ChosenIds(rows, before, limit) ==> exists i :: 0 <= i < |rows| && rows[i].id == id
  {
    ExpiredMeaning(rows, before);
    forall id | id in ChosenIds(rows, before, limit) ensures exists i :: 0 <= i < |rows| && rows[i].id == id {
      var x :| x in Expired(rows, before) && x.id == id;
      var i :| 0 <= i < |rows| && rows[i] == x;
    }
  }

  // ----- the deleted rows of each table

  function SampleIds(samples: seq<Sample>): set<nat> { set s | s in samples :: s.id }

  function RollupIds(rollups: seq<Rollup>): set<nat> { set r | r in rollups :: r.id }

  function GapIds(gaps: seq<Gap>): set<nat> { set g | g in gaps :: g.id }

  lemma {:induction false} KeptSampleCount(samples: seq<Sample>, gone: set<nat>)
    requires UniqueSampleIds(samples) && gone <= SampleIds(samples)
    ensures |KeepSamples(samples, gone)| == |samples| - |gone|
  {
    if samples != [] {
      assert samples == [samples[0]] + samples[1..];
      var rest := gone - {samples[0].id};
      assert samples[0].id !in SampleIds(samples[1..]);
      KeptSampleCount(samples[1..], rest);
      KeepIgnoresOthers(samples[1..], gone, samples[0].id);
    }
  }

  lemma {:induction false} KeepIgnoresOthers(samples: seq<Sample>, gone: set<nat>, id: nat)
    requires id !in SampleIds(samples)
    ensures KeepSamples(samples, gone) == KeepSamples(samples, gone - {id})
  {
    if samples != [] {
      assert samples == [samples[0]] + samples[1..];
      assert samples[0].id in SampleIds(samples);
      KeepIgnoresOthers(samples[1..], gone, id);
    }
  }

  lemma {:induction false} KeptRollupCount(rollups: seq<Rollup>, gone: set<nat>)
    requires UniqueRollupIds(rollups) && gone <= RollupIds(rollups)
    ensures |KeepRollups(rollups, gone)| == |rollups| - |gone|
  {
    if rollups != [] {
      assert rollups == [rollups[0]] + rollups[1..];
      assert rollups[0].id !in RollupIds(rollups[1..]);
      KeptRollupCount(rollups[1..], gone - {rollups[0].id});
      KeepRollupsIgnoresOthers(rollups[1..], gone, rollups[0].id);
    }
  }

  lemma {:induction false} KeepRollupsIgnoresOthers(rollups: seq<Rollup>, gone: set<nat>, id: nat)
    requires id !in RollupIds(rollups)
    ensures KeepRollups(rollups, gone) == KeepRollups(rollups, gone - {id})
  {
    if rollups != [] {
      assert rollups == [rollups[0]] + rollups[1..];
      assert rollups[0].id in RollupIds(rollups);
      KeepRollupsIgnoresOthers(rollups[1..], gone, id);
    }
  }

  lemma {:induction false} KeptGapCount(gaps: seq<Gap>, gone: set<nat>)
    requires UniqueGapIds(gaps) && gone <= GapIds(gaps)
    ensures |KeepGaps(gaps, gone)| == |gaps| - |gone|
  {
    if gaps != [] {
      assert gaps == [gaps[0]] + gaps[1..];
      assert gaps[0].id !in GapIds(gaps[1..]);
      KeptGapCount(gaps[1..], gone - {gaps[0].id});
      KeepGapsIgnoresOthers(gaps[1..], gone, gaps[0].id);
    }
  }

  lemma {:induction false} KeepGapsIgnoresOthers(gaps: seq<Gap>, gone: set<nat>, id: nat)
    requires id !in GapIds(gaps)
    ensures KeepGaps(gaps, gone) == KeepGaps(gaps, gone - {id})
  {
    if gaps != [] {
      assert gaps == [gaps[0]] + gaps[1..];
      assert gaps[0].id in GapIds(gaps);
      KeepGapsIgnoresOthers(gaps[1..], gone, id);
    }
  }

  // ----- expired rows of the tables and of the selection

  lemma HeadCounts<T>(x: T, here: bool, rest: set<T>, all: set<T>)
    requires x !in rest && all == if here then {x} + rest else rest
    ensures |all| == |rest| + if here then 1 else 0
  {
  }

  lemma {:induction false} SamplesEnding(samples: seq<Sample>, before: i64)
    requires UniqueSampleIds(samples)
    ensures |EndingBy(SampleExpiries(samples), before)| == |ExpiredSamples(samples, before)|
  {
    if samples != [] {
      SamplesEnding(samples[1..], before);
      assert samples == [samples[0]] + samples[1..];
      HeadCounts(samples[0], samples[0].end <= before,
                 ExpiredSamples(samples[1..], before), ExpiredSamples(samples, before));
    }
  }

  lemma {:induction false} RollupsEnding(rollups: seq<Rollup>, before: i64)
    requires UniqueRollupIds(rollups)
    ensures |EndingBy(RollupExpiries(rollups), before)| == |ExpiredRollups(rollups, before)|
  {
    if rollups != [] {
      RollupsEnding(rollups[1..], before);
      assert rollups == [rollups[0]] + rollups[1..];
      HeadCounts(rollups[0], rollups[0].end <= before,
                 ExpiredRollups(rollups[1..], before), ExpiredRollups(rollups, before));
    }
  }

  lemma {:induction false} GapsEnding(gaps: seq<Gap>, before: i64)
    requires UniqueGapIds(gaps)
    ensures |EndingBy(GapExpiries(gaps), before)| == |ExpiredGaps(gaps, before)|
  {
    if gaps != [] {
      GapsEnding(gaps[1..], before);
      assert gaps == [gaps[0]] + gaps[1..];
      HeadCounts(gaps[0], gaps[0].end <= before, ExpiredGaps(gaps[1..], before), ExpiredGaps(gaps, before));
    }
  }

  // ----- one batch

  lemma SamplesDeleted(t: Tables, before: i64, limit: nat)
    requires UniqueIds(t)
    ensures |KeepSamples(t.samples, ChooseDoomed(t, before, limit).samples)|
         == |t.samples| - Min(limit, |ExpiredSamples(t.samples, before)|)
  {
    ExpiriesOf(t);
    var rows, gone := SampleExpiries(t.samples), ChooseDoomed(t, before, limit).samples;
    ChosenCount(rows, before, limit);
    ChosenAreRows(rows, before, limit);
    SamplesEnding(t.samples, before);
    forall id | id in gone ensures id in SampleIds(t.samples) {
      var i :| 0 <= i < |rows| && rows[i].id == id;
      assert t.samples[i] in t.samples;
    }
    KeptSampleCount(t.samples, gone);
  }

  lemma RollupsDeleted(t: Tables, before: i64, limit: nat)
    requires UniqueIds(t)
    ensures |KeepRollups(t.rollups, ChooseDoomed(t, before, limit).rollups)|
         == |t.rollups| - Min(limit, |ExpiredRollups(t.rollups, before)|)
  {
    ExpiriesOf(t);
    var rows, gone := RollupExpiries(t.rollups), ChooseDoomed(t, before, limit).rollups;
    ChosenCount(rows, before, limit);
    ChosenAreRows(rows, before, limit);
    RollupsEnding(t.rollups, before);
    forall id | id in gone ensures id in RollupIds(t.rollups) {
      var i :| 0 <= i < |rows| && rows[i].id == id;
      assert t.rollups[i] in t.rollups;
    }
    KeptRollupCount(t.rollups, gone);
  }

  lemma GapsDeleted(t: Tables, before: i64, limit: nat)
    requires UniqueIds(t)
    ensures |KeepGaps(t.gaps, ChooseDoomed(t, before, limit).gaps)|
         == |t.gaps| - Min(limit, |ExpiredGaps(t.gaps, before)|)
  {
    ExpiriesOf(t);
    var rows, gone := GapExpiries(t.gaps), ChooseDoomed(t, before, limit).gaps;
    ChosenCount(rows, before, limit);
    ChosenAreRows(rows, before, limit);
    GapsEnding(t.gaps, before);
    forall id | id in gone ensures id in GapIds(t.gaps) {
      var i :| 0 <= i < |rows| && rows[i].id == id;
      assert t.gaps[i] in t.gaps;
    }
    KeptGapCount(t.gaps, gone);
  }

  /**
   * A batch succeeds exactly when its size is one; then each table loses as many of its expired
   * rows as the batch allows, and the reported number is the sum of the three.
   */
  lemma PruneDeletesExactly(t: Tables, before: i64, batchSize: nat)
    requires UniqueIds(t)
    ensures PruneTables(t, before, batchSize).Ok? <==> 0 < batchSize <= I64_MAX
    ensures PruneTables(t, before, batchSize).Ok? ==>
      var (t', deleted) := PruneTables(t, before, batchSize).value;
      && |t.samples| - |t'.samples| == Min(batchSize, |ExpiredSamples(t.samples, before)|)
      && |t.rollups| - |t'.rollups| == Min(batchSize, |ExpiredRollups(t.rollups, before)|)
      && |t.gaps| - |t'.gaps| == Min(batchSize, |ExpiredGaps(t.gaps, before)|)
      && deleted == Min(batchSize, |ExpiredSamples(t.samples, before)|)
                    + Min(batchSize, |ExpiredRollups(t.rollups, before)|)
                    + Min(batchSize, |ExpiredGaps(t.gaps, before)|)
  {
    SamplesDeleted(t, before, batchSize);
    RollupsDeleted(t, before, batchSize);
    GapsDeleted(t, before, batchSize);
  }

  // ----- repeated batches

  /** What a deletion of expired rows leaves of them. */
  lemma LeftCount<T>(all: seq<T>, kept: seq<T>, expired: set<T>, left: set<T>)
    requires Distinct(all) && Distinct(kept) && (forall x :: x in kept ==> x in all)
    requires forall x :: x in expired ==> x in all
    requires forall x :: x in all && x !in kept ==> x in expired
    requires forall x :: x in left <==> x in expired && x in kept
    ensures |left| == |expired| - (|all| - |kept|)
  {
    DistinctCount(all);
    DistinctCount(kept);
    var everything, rest := set x | x in all, set x | x in kept;
    var deleted := everything - rest;
    assert rest == everything - deleted;
    assert left == expired - deleted && deleted <= expired;
  }

  lemma {:induction false} KeptSampleExactly(samples: seq<Sample>, gone: set<nat>)
    ensures forall x :: x in KeepSamples(samples, gone) <==> x in samples && x.id !in gone
  {
    if samples != [] {
      KeptSampleExactly(samples[1..], gone);
      assert samples == [samples[0]] + samples[1..];
    }
  }

  lemma {:induction false} KeptRollupExactly(rollups: seq<Rollup>, gone: set<nat>)
    ensures forall x :: x in KeepRollups(rollups, gone) <==> x in rollups && x.id !in gone
  {
    if rollups != [] {
      KeptRollupExactly(rollups[1..], gone);
      assert rollups == [rollups[0]] + rollups[1..];
    }
  }

  lemma {:induction false} KeptGapExactly(gaps: seq<Gap>, gone: set<nat>)
    ensures forall x :: x in KeepGaps(gaps, gone) <==> x in gaps && x.id !in gone
  {
    if gaps != [] {
      KeptGapExactly(gaps[1..], gone);
      assert gaps == [gaps[0]] + gaps[1..];
    }
  }

  lemma SamplesLeft(t: Tables, before: i64, limit: nat)
    requires UniqueIds(t)
    ensures |ExpiredSamples(KeepSamples(t.samples, ChooseDoomed(t, before, limit).samples), before)|
         == |ExpiredSamples(t.samples, before)| - Min(limit, |ExpiredSamples(t.samples, before)|)
  {
    var gone := ChooseDoomed(t, before, limit).samples;
    var kept := KeepSamples(t.samples, gone);
    DoomedAreExpired(t, before, limit);
    SamplesDeleted(t, before, limit);
    KeptSamples(t.samples, gone);
    KeptSampleExactly(t.samples, gone);
    LeftCount(t.samples, kept, ExpiredSamples(t.samples, before), ExpiredSamples(kept, before));
  }

  lemma RollupsLeft(t: Tables, before: i64, limit: nat)
    requires UniqueIds(t)
    ensures |ExpiredRollups(KeepRollups(t.rollups, ChooseDoomed(t, before, limit).rollups), before)|
         == |ExpiredRollups(t.rollups, before)| - Min(limit, |ExpiredRollups(t.rollups, before)|)
  {
    var gone := ChooseDoomed(t, before, limit).rollups;
    var kept := KeepRollups(t.rollups, gone);
    DoomedAreExpired(t, before, limit);
    RollupsDeleted(t, before, limit);
    KeptRollupIds(t.rollups, gone);
    KeptRollupExactly(t.rollups, gone);
    LeftCount(t.rollups, kept, ExpiredRollups(t.rollups, before), ExpiredRollups(kept, before));
  }

  lemma GapsLeft(t: Tables, before: i64, limit: nat)
    requires UniqueIds(t)
    ensures |ExpiredGaps(KeepGaps(t.gaps, ChooseDoomed(t, before, limit).gaps), before)|
         == |ExpiredGaps(t.gaps, before)| - Min(limit, |ExpiredGaps(t.gaps, before)|)
  {
    var gone := ChooseDoomed(t, before, limit).gaps;
    var kept := KeepGaps(t.gaps, gone);
    DoomedAreExpired(t, before, limit);
    GapsDeleted(t, before, limit);
    KeptGaps(t.gaps, gone);
    KeptGapExactly(t.gaps, gone);
    LeftCount(t.gaps, kept, ExpiredGaps(t.gaps, before), ExpiredGaps(kept, before));
  }

  /** Every row that ends later is still there. */
  ghost predicate LaterRowsStay(t: Tables, t': Tables, before: int) {
    && (forall s :: s in t.samples && s.end > before ==> s in t'.samples)
    && (forall r :: r in t.rollups && r.end > before ==> r in t'.rollups)
    && forall g :: g in t.gaps && g.end > before ==> g in t'.gaps
  }

  /** A batch takes every expired row it has room for and nothing else. */
  lemma PruneLeaves(t: Tables, before: i64, batchSize: nat)
    requires UniqueIds(t) && PruneTables(t, before, batchSize).Ok?
    ensures var t' := PruneTables(t, before, batchSize).value.0;
      && UniqueIds(t')
      && |ExpiredSamples(t'.samples, before)| == Max(0, |ExpiredSamples(t.samples, before)| - batchSize)
      && |ExpiredRollups(t'.rollups, before)| == Max(0, |ExpiredRollups(t.rollups, before)| - batchSize)
      && |ExpiredGaps(t'.gaps, before)| == Max(0, |ExpiredGaps(t.gaps, before)| - batchSize)
      && LaterRowsStay(t, t', before)
  {
    var d := ChooseDoomed(t, before, batchSize);
    SamplesLeft(t, before, batchSize);
    RollupsLeft(t, before, batchSize);
    GapsLeft(t, before, batchSize);
    DoomedAreExpired(t, before, batchSize);
    KeptSamples(t.samples, d.samples);
    KeptRollupIds(t.rollups, d.rollups);
    KeptGaps(t.gaps, d.gaps);
    KeptSampleExactly(t.samples, d.samples);
    KeptRollupExactly(t.rollups, d.rollups);
    KeptGapExactly(t.gaps, d.gaps);
  }

  /** The tables after a number of batches with one boundary. */
  function PruneTimes(t: Tables, before: i64, batchSize: nat, times: nat): Tables
    requires 0 < batchSize <= I64_MAX
    decreases times
  {
    if times == 0 then t
    else PruneTimes(PruneTables(t, before, batchSize).value.0, before, batchSize, times - 1)
  }

  /** No table has more than `n` rows that end by the boundary. */
  ghost predicate AtMostExpired(t: Tables, before: int, n: int) {
    && |ExpiredSamples(t.samples, before)| <= n && |ExpiredRollups(t.rollups, before)| <= n
    && |ExpiredGaps(t.gaps, before)| <= n
  }

  lemma OneBatchLess(times: nat, batchSize: nat)
    requires times > 0
    ensures Max(0, times * batchSize - batchSize) == (times - 1) * batchSize
  {
    assert times * batchSize == (times - 1) * batchSize + batchSize && (times - 1) * batchSize >= 0;
  }

  lemma PruneOnce(t: Tables, before: i64, batchSize: nat, n: int)
    requires UniqueIds(t) && 0 < batchSize <= I64_MAX && AtMostExpired(t, before, n)
    ensures PruneTables(t, before, batchSize).Ok?
    ensures var next := PruneTables(t, before, batchSize).value.0;
      UniqueIds(next) && LaterRowsStay(t, next, before) && AtMostExpired(next, before, Max(0, n - batchSize))
  {
    PruneLeaves(t, before, batchSize);
  }

  lemma LaterRowsStayOn(a: Tables, b: Tables, c: Tables, before: int)
    requires LaterRowsStay(a, b, before) && LaterRowsStay(b, c, before)
    ensures LaterRowsStay(a, c, before)
  {
  }

  /**
   * Repeated batches delete everything that ends by the boundary: as many as the largest table
   * needs are enough, and later rows stay.
   */
  lemma {:induction false} RepeatedPruneFinishes(t: Tables, before: i64, batchSize: nat, times: nat)
    requires UniqueIds(t) && 0 < batchSize <= I64_MAX
    requires AtMostExpired(t, before, times * batchSize)
    ensures var t' := PruneTimes(t, before, batchSize, times);
      ExpiredRows(t', before) == 0 && LaterRowsStay(t, t', before)
    decreases times
  {
    if times > 0 {
      PruneOnce(t, before, batchSize, times * batchSize);
      OneBatchLess(times, batchSize);
      var next := PruneTables(t, before, batchSize).value.0;
      RepeatedPruneFinishes(next, before, batchSize, times - 1);
      LaterRowsStayOn(t, next, PruneTimes(next, before, batchSize, times - 1), before);
    }
  }
}
