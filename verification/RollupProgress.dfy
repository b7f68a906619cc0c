/** Repeated rollup batches with one cutoff reach a state without samples before it. */
module RollupProgress {
  import opened Int64
  import opened Outcomes
  import opened BTree
  import opened Contributions
  import opened TrafficTables
  import opened RollupBatch
  import opened RollupConservation
  import opened RollupTheorems
  import opened StoreInvariant
  import opened RollupGuarantees
  import opened RollupRefinement

  function StartsBefore(cutoff: int): Filter {
    (o: Owner, start: int, end: int) => start < cutoff
  }

  /** Total length of the samples that start before the cutoff. */
  function Backlog(t: Tables, cutoff: int): int {
    SumSamples(Time, StartsBefore(cutoff), t.samples)
  }

  lemma {:induction false} BacklogMeaning(samples: seq<Sample>, cutoff: int)
    requires forall s :: s in samples ==> s.start < s.end
    ensures SumSamples(Time, StartsBefore(cutoff), samples) >= 0
    ensures SumSamples(Time, StartsBefore(cutoff), samples) == 0 <==> forall s :: s in samples ==> s.start >= cutoff
  {
    if samples != [] {
      assert samples[0] in samples;
      BacklogMeaning(samples[1..], cutoff);
      assert samples == [samples[0]] + samples[1..];
    }
  }

  lemma RemainderTakes(samples: seq<Sample>, s: Sample, r: Remainder, cutoff: int)
    requires Lookup(samples, r.id) == Some(s) && s.start < r.start && r.end == s.end && s.start < cutoff
      && s.start < s.end
    ensures TakenByRemainder(Time, StartsBefore(cutoff), samples, r) > 0
  {
  }

  /** Planning a sample takes a positive part of the backlog. */
  lemma StepTakes(p: Progress, s: Sample, size: i64, cutoff: i64, samples: seq<Sample>)
    requires size > 0 && p.budget > 0 && s.start < cutoff && Lookup(samples, s.id) == Some(s)
    requires PlanSample(p, s, size, cutoff).Ok?
    ensures Taken(Time, StartsBefore(cutoff), samples, PlanSample(p, s, size, cutoff).value)
          > Taken(Time, StartsBefore(cutoff), samples, p)
  {
    var at := PlanSampleShape(p, s, size, cutoff);
    SettledTakes(p, PlanSample(p, s, size, cutoff).value, s, at, cutoff, samples);
  }

  lemma SettledTakes(p: Progress, p': Progress, s: Sample, at: i64, cutoff: i64, samples: seq<Sample>)
    requires s.start < at <= s.end && s.start < cutoff && s.duration > 0 && Lookup(samples, s.id) == Some(s)
    requires p'.consumed == if at == s.end then p.consumed + [s.id] else p.consumed
    requires p'.remainders == if at == s.end then p.remainders else p.remainders + [RestOf(s, at)]
    ensures Taken(Time, StartsBefore(cutoff), samples, p') > Taken(Time, StartsBefore(cutoff), samples, p)
  {
    if at == s.end {
      TakenWithDelete(Time, StartsBefore(cutoff), samples, p, p', s);
    } else {
      TakenWithRemainder(Time, StartsBefore(cutoff), samples, p, p', RestOf(s, at));
      RemainderTakes(samples, s, RestOf(s, at), cutoff);
    }
  }

  lemma {:induction false} BatchTakes(p: Progress, batch: seq<Sample>, size: i64, cutoff: i64, samples: seq<Sample>)
    requires size > 0 && PlanBatch(p, batch, size, cutoff).Ok?
    requires forall s :: s in batch ==> s.start < cutoff && Lookup(samples, s.id) == Some(s)
    ensures var taken := Taken(Time, StartsBefore(cutoff), samples, PlanBatch(p, batch, size, cutoff).value);
      var before := Taken(Time, StartsBefore(cutoff), samples, p);
      taken >= before && (batch != [] && p.budget > 0 ==> taken > before)
    decreases |batch|
  {
    if batch != [] && p.budget > 0 {
      assert batch[0] in batch;
      StepTakes(p, batch[0], size, cutoff, samples);
      BatchTakes(PlanSample(p, batch[0], size, cutoff).value, batch[1..], size, cutoff, samples);
    }
  }

  lemma {:induction false} NothingBefore(samples: seq<Sample>, cutoff: i64)
    requires UniqueSampleIds(samples) && BeforeCutoff(samples, cutoff) == []
    ensures forall s :: s in samples ==> s.start >= cutoff
  {
    BeforeCutoffKeeps(samples, cutoff);
    forall s | s in samples ensures s.start >= cutoff {
      assert s in BeforeCutoff(samples, cutoff) <==> s.start < cutoff;
    }
  }

  /**
   * Every successful batch that sees a sample before the cutoff shrinks the backlog, also when
   * it reports zero removed rows.
   */
  lemma RollupShrinksBacklog(t: Tables, cutoff: i64, size: i64, batchSize: nat)
    requires UniqueSampleIds(t.samples) && RollupTables(t, cutoff, size, batchSize).Ok?
    requires exists s :: s in t.samples && s.start < cutoff
    ensures Backlog(RollupTables(t, cutoff, size, batchSize).value.0, cutoff) < Backlog(t, cutoff)
  {
    var batch := ChooseBatch(t.samples, cutoff, batchSize);
    BatchIsOrdered(t.samples, cutoff, batchSize);
    BatchTakes(Progress([], batchSize * 2, [], []), batch, size, cutoff, t.samples);
    PlanIsSound(t, cutoff, size, batchSize);
    SettlingConserves(t.samples, PlanOf(t, cutoff, size, batchSize), Time, StartsBefore(cutoff));
    if batch == [] {
      NothingBefore(t.samples, cutoff);
      assert false;
    }
  }

  // ----- the unconsumed time before the cutoff

  /** How much of the interval lies before the cutoff. */
  function TimeBefore(start: int, end: int, cutoff: int): int {
    if start < cutoff then Min(end, cutoff) - start else 0
  }

  /** Total unconsumed time before the cutoff. */
  function Unconsumed(samples: seq<Sample>, cutoff: int): int {
    if samples == [] then 0 else TimeBefore(samples[0].start, samples[0].end, cutoff) + Unconsumed(samples[1..], cutoff)
  }

  lemma {:induction false} UnconsumedMeaning(samples: seq<Sample>, cutoff: int)
    requires forall s :: s in samples ==> s.start < s.end
    ensures Unconsumed(samples, cutoff) >= 0
    ensures Unconsumed(samples, cutoff) == 0 <==> forall s :: s in samples ==> s.start >= cutoff
  {
    if samples != [] {
      assert samples[0] in samples;
      UnconsumedMeaning(samples[1..], cutoff);
      assert samples == [samples[0]] + samples[1..];
    }
  }

  /** The sample still has time before the cutoff, and the remainder starts later in it. */
  predicate TakesFrom(s: Sample, r: Remainder, cutoff: int) {
    s.start < cutoff && s.start < r.start < r.end == s.end
  }

  lemma {:induction false} UpdateTakes(samples: seq<Sample>, r: Remainder, cutoff: int)
    requires UpdateRow(samples, r).Ok? && Lookup(samples, r.id).Some?
      && TakesFrom(Lookup(samples, r.id).value, r, cutoff)
    ensures Unconsumed(UpdateRow(samples, r).value, cutoff) < Unconsumed(samples, cutoff)
  {
    if samples[0].id == r.id {
      var s' := Shrink(samples[0], r, r.down, r.up);
      assert ([s'] + samples[1..])[1..] == samples[1..];
    } else {
      UpdateTakes(samples[1..], r, cutoff);
      var rest := UpdateRow(samples[1..], r).value;
      assert ([samples[0]] + rest)[1..] == rest;
    }
  }

  lemma {:induction false} DeleteTakes(samples: seq<Sample>, id: nat, cutoff: int)
    requires DeleteRow(samples, id).Ok? && Lookup(samples, id).Some?
    requires Lookup(samples, id).value.start < cutoff && Lookup(samples, id).value.start < Lookup(samples, id).value.end
    ensures Unconsumed(DeleteRow(samples, id).value, cutoff) < Unconsumed(samples, cutoff)
  {
    if samples[0].id != id {
      DeleteTakes(samples[1..], id, cutoff);
      var rest := DeleteRow(samples[1..], id).value;
      assert ([samples[0]] + rest)[1..] == rest;
    }
  }

  /** Every sample the plan settles had unconsumed time before the cutoff, and loses some. */
  ghost predicate AllTake(samples: seq<Sample>, p: Progress, cutoff: int) {
    && (forall r :: r in p.remainders ==>
      Lookup(samples, r.id).Some? && TakesFrom(Lookup(samples, r.id).value, r, cutoff))
    && forall id :: id in p.consumed ==>
         && Lookup(samples, id).Some?
         && Lookup(samples, id).value.start < cutoff && Lookup(samples, id).value.start < Lookup(samples, id).value.end
  }

  function Settled(p: Progress): nat { |p.remainders| + |p.consumed| }

  lemma StepSettlesOne(p: Progress, p': Progress, s: Sample, at: i64, cutoff: int, samples: seq<Sample>)
    requires AllTake(samples, p, cutoff) && Lookup(samples, s.id) == Some(s) && s.start < cutoff && s.duration > 0
    requires s.start < at <= s.end
    requires p'.consumed == if at == s.end then p.consumed + [s.id] else p.consumed
    requires p'.remainders == if at == s.end then p.remainders else p.remainders + [RestOf(s, at)]
    ensures AllTake(samples, p', cutoff) && Settled(p') == Settled(p) + 1
  {
  }

  lemma {:induction false} BatchSettlesSome(p: Progress, batch: seq<Sample>, size: i64, cutoff: i64,
      samples: seq<Sample>)
    requires size > 0 && PlanBatch(p, batch, size, cutoff).Ok? && AllTake(samples, p, cutoff)
    requires forall s :: s in batch ==> s.start < cutoff && Lookup(samples, s.id) == Some(s)
    ensures var done := PlanBatch(p, batch, size, cutoff).value;
      && AllTake(samples, done, cutoff)
      && Settled(done) >= Settled(p) + if batch != [] && p.budget > 0 then 1 else 0
    decreases |batch|
  {
    if batch != [] && p.budget > 0 {
      assert batch[0] in batch;
      var at := PlanSampleShape(p, batch[0], size, cutoff);
      var next := PlanSample(p, batch[0], size, cutoff).value;
      StepSettlesOne(p, next, batch[0], at, cutoff, samples);
      BatchSettlesSome(next, batch[1..], size, cutoff, samples);
    }
  }

  lemma {:induction false} RemaindersTake(samples: seq<Sample>, p: Progress, n: nat, cutoff: int)
    requires SettlesOnce(samples, p) && AllTake(samples, p, cutoff) && n <= |p.remainders|
    requires ApplyRemainders(samples, p.remainders[..n]).Ok?
    ensures Unconsumed(ApplyRemainders(samples, p.remainders[..n]).value, cutoff) <= Unconsumed(samples, cutoff) - n
  {
    if n > 0 {
      assert p.remainders[..n][..n - 1] == p.remainders[..n - 1];
      RemaindersTake(samples, p, n - 1, cutoff);
      RemaindersConserve(samples, p, n - 1, Time, StartsBefore(cutoff));
      var earlier := ApplyRemainders(samples, p.remainders[..n - 1]).value;
      var r := p.remainders[n - 1];
      assert Lookup(earlier, r.id) == Lookup(samples, r.id);
      UpdateTakes(earlier, r, cutoff);
    }
  }

  lemma {:induction false} DeletesTake(samples: seq<Sample>, shrunk: seq<Sample>, p: Progress, n: nat, cutoff: int)
    requires SettlesOnce(samples, p) && AllTake(samples, p, cutoff) && n <= |p.consumed|
    requires forall id :: id in p.consumed ==> Lookup(shrunk, id) == Lookup(samples, id)
    requires DeleteConsumed(shrunk, p.consumed[..n]).Ok?
    ensures Unconsumed(DeleteConsumed(shrunk, p.consumed[..n]).value, cutoff) <= Unconsumed(shrunk, cutoff) - n
  {
    if n > 0 {
      assert p.consumed[..n][..n - 1] == p.consumed[..n - 1];
      DeletesTake(samples, shrunk, p, n - 1, cutoff);
      DeletesConserve(samples, shrunk, p, n - 1, Time, StartsBefore(cutoff));
      var earlier := DeleteConsumed(shrunk, p.consumed[..n - 1]).value;
      assert p.consumed[n - 1] in p.consumed
        && Lookup(earlier, p.consumed[n - 1]) == Lookup(samples, p.consumed[n - 1]);
      DeleteTakes(earlier, p.consumed[n - 1], cutoff);
    }
  }

  lemma SettlingTakes(samples: seq<Sample>, p: Progress, cutoff: int)
    requires SettlesOnce(samples, p) && AllTake(samples, p, cutoff)
    requires ApplyRemainders(samples, p.remainders).Ok?
    requires DeleteConsumed(ApplyRemainders(samples, p.remainders).value, p.consumed).Ok?
    ensures Unconsumed(DeleteConsumed(ApplyRemainders(samples, p.remainders).value, p.consumed).value, cutoff)
         <= Unconsumed(samples, cutoff) - Settled(p)
  {
    assert p.remainders[..|p.remainders|] == p.remainders && p.consumed[..|p.consumed|] == p.consumed;
    RemaindersTake(samples, p, |p.remainders|, cutoff);
    RemaindersConserve(samples, p, |p.remainders|, Time, StartsBefore(cutoff));
    var shrunk := ApplyRemainders(samples, p.remainders).value;
    forall id | id in p.consumed ensures Lookup(shrunk, id) == Lookup(samples, id) {
    }
    DeletesTake(samples, shrunk, p, |p.consumed|, cutoff);
  }

  /**
   * Every successful batch that sees a sample before the cutoff strictly shrinks the unconsumed
   * time before it, by at least a millisecond for each sample it settles.
   */
  lemma RollupShrinksUnconsumed(t: Tables, cutoff: i64, size: i64, batchSize: nat)
    requires UniqueSampleIds(t.samples) && RollupTables(t, cutoff, size, batchSize).Ok?
    requires exists s :: s in t.samples && s.start < cutoff
    ensures var left := RollupTables(t, cutoff, size, batchSize).value.0.samples;
      Unconsumed(left, cutoff) <= Unconsumed(t.samples, cutoff) - Settled(PlanOf(t, cutoff, size, batchSize))
      && Unconsumed(left, cutoff) < Unconsumed(t.samples, cutoff)
  {
    var batch := ChooseBatch(t.samples, cutoff, batchSize);
    BatchIsOrdered(t.samples, cutoff, batchSize);
    BatchSettlesSome(Progress([], batchSize * 2, [], []), batch, size, cutoff, t.samples);
    PlanIsSound(t, cutoff, size, batchSize);
    SettlingTakes(t.samples, PlanOf(t, cutoff, size, batchSize), cutoff);
    if batch == [] {
      NothingBefore(t.samples, cutoff);
      assert false;
    }
  }

  /** Successive states, each the result of a successful batch on the one before. */
  ghost predicate BatchRun(states: seq<Tables>, cutoff: i64, size: i64, batchSize: nat) {
    |states| <= 1 ||
    (&& RollupTables(states[0], cutoff, size, batchSize).Ok?
     && states[1] == RollupTables(states[0], cutoff, size, batchSize).value.0
     && BatchRun(states[1..], cutoff, size, batchSize))
  }

  /** No sample starts before the cutoff any more, or the next batch hits an integer limit. */
  ghost predicate Exhausted(t: Tables, cutoff: i64, size: i64, batchSize: nat)
    requires StoreSound(t, size) && BatchParametersValid(size, batchSize)
  {
    (forall s :: s in t.samples ==> s.start >= cutoff) || IntegerLimit(t, cutoff, size, batchSize)
  }

  lemma BatchProgresses(t: Tables, cutoff: i64, size: i64, batchSize: nat)
    requires StoreSound(t, size) && BatchParametersValid(size, batchSize)
    requires !Exhausted(t, cutoff, size, batchSize)
    ensures RollupTables(t, cutoff, size, batchSize).Ok?
    ensures var next := RollupTables(t, cutoff, size, batchSize).value.0;
      StoreSound(next, size) && Backlog(next, cutoff) < Backlog(t, cutoff)
  {
    RollupStaysSound(t, cutoff, size, batchSize);
    RollupShrinksBacklog(t, cutoff, size, batchSize);
  }

  lemma BacklogIsNatural(t: Tables, cutoff: i64, size: i64)
    requires size > 0 && StoreSound(t, size)
    ensures Backlog(t, cutoff) >= 0
  {
    forall s | s in t.samples ensures s.start < s.end { assert SampleSound(s); }
    BacklogMeaning(t.samples, cutoff);
  }

  lemma BatchRunPrepends(t: Tables, rest: seq<Tables>, cutoff: i64, size: i64, batchSize: nat)
    requires rest != [] && BatchRun(rest, cutoff, size, batchSize)
    requires RollupTables(t, cutoff, size, batchSize).Ok? && rest[0] == RollupTables(t, cutoff, size, batchSize).value.0
    ensures BatchRun([t] + rest, cutoff, size, batchSize)
  {
    assert ([t] + rest)[1..] == rest;
  }

  /**
   * Repeating a batch on a sound store ends: either no sample starts before the cutoff any
   * more, or the next batch hits an integer limit.
   */
  lemma {:induction false} RepeatedBatchesFinish(t: Tables, cutoff: i64, size: i64, batchSize: nat)
    returns (states: seq<Tables>)
    requires StoreSound(t, size) && BatchParametersValid(size, batchSize)
    ensures |states| > 0 && states[0] == t && BatchRun(states, cutoff, size, batchSize)
    ensures var last := states[|states| - 1]; StoreSound(last, size) && Exhausted(last, cutoff, size, batchSize)
    decreases Backlog(t, cutoff)
  {
    BacklogIsNatural(t, cutoff, size);
    if Exhausted(t, cutoff, size, batchSize) {
      states := [t];
    } else {
      BatchProgresses(t, cutoff, size, batchSize);
      var next := RollupTables(t, cutoff, size, batchSize).value.0;
      BacklogIsNatural(next, cutoff, size);
      var rest := RepeatedBatchesFinish(next, cutoff, size, batchSize);
      BatchRunPrepends(t, rest, cutoff, size, batchSize);
      states := [t] + rest;
    }
  }
}
