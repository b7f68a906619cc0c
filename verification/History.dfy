/** Whole runs of the traffic history: ledger, exactly-once, and queryability. */
module History {
  import opened Int64
  import opened Outcomes
  import opened BTree
  import opened Contributions
  import opened TrafficQuery
  import opened QueryTheorems
  import opened TrafficTables
  import opened RollupBatch
  import opened RollupConservation
  import opened RollupTheorems
  import opened StoreInvariant
  import opened RollupReach
  import opened RollupGuarantees
  import opened StoreQueries
  import opened Retention
  import opened Commits

  datatype Step =
    | AddSample(sample: SampleInput, checkpoint: CheckpointInput)
    | AddGap(gap: GapInput, gapCheckpoint: CheckpointInput)
    | AddCheckpoint(first: CheckpointInput)
    | RollUp(cutoff: i64, size: i64, rollupBatch: nat)
    | Prune(before: i64, pruneBatch: nat)

  /** The tables, the sample commits that returned true in order, and everything pruned. */
  datatype Run = Run(tables: Tables, accepted: seq<SampleInput>, prunedSamples: seq<Sample>, prunedRollups: seq<Rollup>)

  /** One transaction; an error leaves everything as it was. */
  function Advance(h: Run, step: Step): Run {
    match step
    case AddSample(s, c) =>
      var r := CommitSample(h.tables, s, c);
      if r.Ok? && r.value.1 then h.(tables := r.value.0, accepted := h.accepted + [s]) else h
    case AddGap(g, c) =>
      var r := CommitGap(h.tables, g, c);
      if r.Ok? then h.(tables := r.value.0) else h
    case AddCheckpoint(c) =>
      var r := InitializeCheckpoint(h.tables, c);
      if r.Ok? then h.(tables := r.value.0) else h
    case RollUp(cutoff, size, batch) =>
      var r := RollupTables(h.tables, cutoff, size, batch);
      if r.Ok? then h.(tables := r.value.0) else h
    case Prune(before, batch) =>
      var r := PruneTables(h.tables, before, batch);
      var d := ChooseDoomed(h.tables, before, batch);
      if r.Ok? then
        h.(tables := r.value.0,
           prunedSamples := h.prunedSamples + GoneSamples(h.tables.samples, d.samples),
           prunedRollups := h.prunedRollups + GoneRollups(h.tables.rollups, d.rollups))
      else h
  }

  function Execute(h: Run, steps: seq<Step>): Run
    decreases |steps|
  {
    if steps == [] then h else Execute(Advance(h, steps[0]), steps[1..])
  }

  // ----- ids stay unique

  /** Ids are unique within each table and below the next one it hands out. */
  ghost predicate IdsFresh(t: Tables) {
    && UniqueIds(t)
    && (forall s :: s in t.samples ==> s.id < t.nextSample)
    && (forall r :: r in t.rollups ==> r.id < t.nextRollup)
    && forall g :: g in t.gaps ==> g.id < t.nextGap
  }

  /** An upsert keeps the ids of the rows and may add one row with the id it was given. */
  lemma {:induction false} UpsertKeepsIds(rollups: seq<Rollup>, row: Rollup, batchStart: i64)
    requires Upsert(rollups, row, batchStart).Ok?
    ensures var stored := Upsert(rollups, row, batchStart).value;
      && |rollups| <= |stored| <= |rollups| + 1
      && (forall i :: 0 <= i < |rollups| ==> stored[i].id == rollups[i].id)
      && (|stored| > |rollups| ==> stored[|rollups|].id == row.id)
  {
    if rollups != [] && !SameBucketRow(rollups[0], row) {
      UpsertKeepsIds(rollups[1..], row, batchStart);
    }
  }

  ghost predicate RollupIdsBelow(rollups: seq<Rollup>, bound: nat) {
    UniqueRollupIds(rollups) && forall i :: 0 <= i < |rollups| ==> rollups[i].id < bound
  }

  lemma UpsertStaysBelow(rollups: seq<Rollup>, row: Rollup, batchStart: i64, next: nat)
    requires RollupIdsBelow(rollups, next) && row.id == next && Upsert(rollups, row, batchStart).Ok?
    ensures RollupIdsBelow(Upsert(rollups, row, batchStart).value, next + 1)
  {
    UpsertKeepsIds(rollups, row, batchStart);
  }

  lemma {:induction false} StoreKeepsIds(rollups: seq<Rollup>, next: nat, buckets: Tree<Bucket>, size: i64)
    requires RollupIdsBelow(rollups, next) && StoreBuckets(rollups, next, buckets, size).Ok?
    ensures RollupIdsBelow(StoreBuckets(rollups, next, buckets, size).value, next + |buckets|)
    decreases |buckets|
  {
    if buckets != [] {
      var row := BucketRow(next, buckets[0], size).value;
      UpsertStaysBelow(rollups, row, buckets[0].value.start, next);
      StoreKeepsIds(Upsert(rollups, row, buckets[0].value.start).value, next + 1, buckets[1..], size);
    }
  }

  lemma UpdateKeepsIds(samples: seq<Sample>, r: Remainder, bound: nat)
    requires UniqueSampleIds(samples) && (forall s :: s in samples ==> s.id < bound) && UpdateRow(samples, r).Ok?
    ensures var updated := UpdateRow(samples, r).value;
      UniqueSampleIds(updated) && forall s :: s in updated ==> s.id < bound
  {
    UpdateKeepsEachId(samples, r);
    var updated := UpdateRow(samples, r).value;
    forall s | s in updated ensures s.id < bound {
      var i :| 0 <= i < |updated| && updated[i] == s;
      assert samples[i] in samples;
    }
  }

  lemma {:induction false} DeleteKeepsIds(samples: seq<Sample>, id: nat, bound: nat)
    requires UniqueSampleIds(samples) && (forall s :: s in samples ==> s.id < bound) && DeleteRow(samples, id).Ok?
    ensures var left := DeleteRow(samples, id).value;
      UniqueSampleIds(left) && (forall s :: s in left ==> s in samples && s.id < bound)
  {
    assert samples == [samples[0]] + samples[1..];
    if samples[0].id != id {
      DeleteKeepsIds(samples[1..], id, bound);
      var left := DeleteRow(samples[1..], id).value;
      assert forall i :: 0 <= i < |left| ==> left[i] in samples[1..];
    }
  }

  lemma {:induction false} RemaindersKeepIds(samples: seq<Sample>, rs: seq<Remainder>, bound: nat)
    requires UniqueSampleIds(samples) && (forall s :: s in samples ==> s.id < bound) && ApplyRemainders(samples, rs).Ok?
    ensures var shrunk := ApplyRemainders(samples, rs).value;
      UniqueSampleIds(shrunk) && forall s :: s in shrunk ==> s.id < bound
  {
    if rs != [] {
      var n := |rs| - 1;
      RemaindersKeepIds(samples, rs[..n], bound);
      UpdateKeepsIds(ApplyRemainders(samples, rs[..n]).value, rs[n], bound);
    }
  }

  lemma {:induction false} DeletesKeepIds(samples: seq<Sample>, ids: seq<nat>, bound: nat)
    requires UniqueSampleIds(samples) && (forall s :: s in samples ==> s.id < bound) && DeleteConsumed(samples, ids).Ok?
    ensures var left := DeleteConsumed(samples, ids).value;
      UniqueSampleIds(left) && forall s :: s in left ==> s.id < bound
  {
    if ids != [] {
      var n := |ids| - 1;
      DeletesKeepIds(samples, ids[..n], bound);
      DeleteKeepsIds(DeleteConsumed(samples, ids[..n]).value, ids[n], bound);
    }
  }

  lemma BatchKeepsIds(t: Tables, cutoff: i64, size: i64, batch: nat)
    requires IdsFresh(t) && RollupTables(t, cutoff, size, batch).Ok?
    ensures IdsFresh(RollupTables(t, cutoff, size, batch).value.0)
  {
    var p := PlanOf(t, cutoff, size, batch);
    RemaindersKeepIds(t.samples, p.remainders, t.nextSample);
    DeletesKeepIds(ApplyRemainders(t.samples, p.remainders).value, p.consumed, t.nextSample);
    StoreKeepsIds(t.rollups, t.nextRollup, p.buckets, size);
  }

  lemma PruneKeepsIds(t: Tables, before: i64, batch: nat)
    requires IdsFresh(t) && PruneTables(t, before, batch).Ok?
    ensures IdsFresh(PruneTables(t, before, batch).value.0)
  {
    var d := ChooseDoomed(t, before, batch);
    KeptSamples(t.samples, d.samples);
    KeptRollupIds(t.rollups, d.rollups);
    KeptGaps(t.gaps, d.gaps);
  }

  lemma AdvanceKeepsIds(h: Run, step: Step)
    requires IdsFresh(h.tables)
    ensures IdsFresh(Advance(h, step).tables)
  {
    match step
    case RollUp(cutoff, size, batch) =>
      if RollupTables(h.tables, cutoff, size, batch).Ok? {
        BatchKeepsIds(h.tables, cutoff, size, batch);
      }
    case Prune(before, batch) =>
      if PruneTables(h.tables, before, batch).Ok? {
        PruneKeepsIds(h.tables, before, batch);
      }
    case _ =>
  }

  lemma {:induction false} RunsKeepIds(h: Run, steps: seq<Step>)
    requires IdsFresh(h.tables)
    ensures IdsFresh(Execute(h, steps).tables)
    decreases |steps|
  {
    if steps != [] {
      AdvanceKeepsIds(h, steps[0]);
      RunsKeepIds(Advance(h, steps[0]), steps[1..]);
    }
  }

  /** At any point of any run, pruning is invisible to every query that starts at or after its boundary. */
  lemma PruneStaysInvisible(h: Run, steps: seq<Step>, before: i64, batch: nat, q: Query, budget: nat)
    requires IdsFresh(h.tables) && q.from >= before
    ensures var reached := Execute(h, steps);
      QueryStore(Advance(reached, Prune(before, batch)).tables, q, budget) == QueryStore(reached.tables, q, budget)
  {
    RunsKeepIds(h, steps);
    PruneStepIsInvisible(Execute(h, steps), before, batch, q, budget);
  }

  lemma PruneStepIsInvisible(h: Run, before: i64, batch: nat, q: Query, budget: nat)
    requires UniqueIds(h.tables) && q.from >= before
    ensures QueryStore(Advance(h, Prune(before, batch)).tables, q, budget) == QueryStore(h.tables, q, budget)
  {
    PruneStepTables(h, before, batch);
    if PruneTables(h.tables, before, batch).Ok? {
      PruneIsInvisible(h.tables, before, batch, q, budget);
    }
  }

  lemma PruneStepTables(h: Run, before: i64, batch: nat)
    ensures Advance(h, Prune(before, batch)).tables
      == if PruneTables(h.tables, before, batch).Ok? then PruneTables(h.tables, before, batch).value.0 else h.tables
  {
  }

  // ----- the ledger

  function InputAmount(m: Metric, s: SampleInput): int {
    match m
    case Down => s.down
    case Up => s.up
    case Time => s.end - s.start
    case ExactDown => if s.exact then s.down else 0
    case ExactUp => if s.exact then s.up else 0
    case ExactTime => if s.exact then s.end - s.start else 0
  }

  function SumAccepted(m: Metric, o: Owner, accepted: seq<SampleInput>): int {
    if accepted == [] then 0
    else
      var n := |accepted| - 1;
      SumAccepted(m, o, accepted[..n]) + (if accepted[n].owner == o then InputAmount(m, accepted[n]) else 0)
  }

  /** Everything an interface holds or has had pruned. */
  function Balance(m: Metric, o: Owner, h: Run): int {
    Ledger(m, o, h.tables) + SumSamples(m, OwnerFilter(o), h.prunedSamples)
      + SumRollups(m, OwnerFilter(o), h.prunedRollups)
  }

  lemma {:induction false} SumSamplesConcat(m: Metric, f: Filter, a: seq<Sample>, b: seq<Sample>)
    ensures SumSamples(m, f, a + b) == SumSamples(m, f, a) + SumSamples(m, f, b)
  {
    if a == [] {
      assert a + b == b;
    } else {
      SumSamplesConcat(m, f, a[1..], b);
      assert (a + b)[1..] == a[1..] + b;
    }
  }

  lemma {:induction false} SumRollupsConcat(m: Metric, f: Filter, a: seq<Rollup>, b: seq<Rollup>)
    ensures SumRollups(m, f, a + b) == SumRollups(m, f, a) + SumRollups(m, f, b)
  {
    if a == [] {
      assert a + b == b;
    } else {
      SumRollupsConcat(m, f, a[1..], b);
      assert (a + b)[1..] == a[1..] + b;
    }
  }

  lemma AppendedHolds(m: Metric, o: Owner, samples: seq<Sample>, id: nat, s: SampleInput)
    requires SampleInputValid(s)
    ensures SumSamples(m, OwnerFilter(o), samples + [NewSample(id, s)])
         == SumSamples(m, OwnerFilter(o), samples) + if s.owner == o then InputAmount(m, s) else 0
  {
    var x := NewSample(id, s);
    SumSamplesConcat(m, OwnerFilter(o), samples, [x]);
    assert SumSamples(m, OwnerFilter(o), [x]) == SampleShare(m, OwnerFilter(o), x) + SumSamples(m, OwnerFilter(o), []);
  }

  lemma AcceptedAppended(m: Metric, o: Owner, accepted: seq<SampleInput>, s: SampleInput)
    ensures SumAccepted(m, o, accepted + [s]) == SumAccepted(m, o, accepted) + if s.owner == o then InputAmount(m, s)
      else 0
  {
    assert (accepted + [s])[..|accepted|] == accepted;
  }

  lemma CommitBalances(h: Run, s: SampleInput, c: CheckpointInput, m: Metric, o: Owner)
    ensures var h' := Advance(h, AddSample(s, c));
      Balance(m, o, h') - SumAccepted(m, o, h'.accepted) == Balance(m, o, h) - SumAccepted(m, o, h.accepted)
  {
    var r := CommitSample(h.tables, s, c);
    if r.Ok? && r.value.1 {
      CommitAppends(h.tables, s, c);
      AppendedHolds(m, o, h.tables.samples, h.tables.nextSample, s);
      AcceptedAppended(m, o, h.accepted, s);
    }
  }

  lemma PruneBalances(h: Run, before: i64, batch: nat, m: Metric, o: Owner)
    ensures Balance(m, o, Advance(h, Prune(before, batch))) == Balance(m, o, h)
  {
    if PruneTables(h.tables, before, batch).Ok? {
      var d := ChooseDoomed(h.tables, before, batch);
      PruneKeepsLedger(h.tables, before, batch, m, o);
      SumSamplesConcat(m, OwnerFilter(o), h.prunedSamples, GoneSamples(h.tables.samples, d.samples));
      SumRollupsConcat(m, OwnerFilter(o), h.prunedRollups, GoneRollups(h.tables.rollups, d.rollups));
    }
  }

  /** One transaction changes the balance of an interface exactly by what it accepts. */
  lemma AdvanceBalances(h: Run, step: Step, m: Metric, o: Owner)
    requires IdsFresh(h.tables)
    ensures var h' := Advance(h, step);
      Moves(m, Balance(m, o, h') - SumAccepted(m, o, h'.accepted), Balance(m, o, h) - SumAccepted(m, o, h.accepted))
  {
    match step
    case AddSample(s, c) =>
      CommitBalances(h, s, c, m, o);
    case RollUp(cutoff, size, batch) =>
      if RollupTables(h.tables, cutoff, size, batch).Ok? {
        RollupKeepsLedger(h.tables, cutoff, size, batch, m, o);
      }
    case Prune(before, batch) =>
      PruneBalances(h, before, batch, m, o);
    case _ =>
  }

  /**
   * The ledger of every interface over every run: bytes and time in samples, rollups and
   * pruned rows change exactly by the commits that returned true; exact amounts never exceed
   * what was committed as exact.
   */
  lemma {:induction false} LedgerBalances(h: Run, steps: seq<Step>, m: Metric, o: Owner)
    requires IdsFresh(h.tables)
    ensures var h' := Execute(h, steps);
      Moves(m, Balance(m, o, h') - SumAccepted(m, o, h'.accepted), Balance(m, o, h) - SumAccepted(m, o, h.accepted))
    decreases |steps|
  {
    if steps != [] {
      AdvanceBalances(h, steps[0], m, o);
      AdvanceKeepsIds(h, steps[0]);
      LedgerBalances(Advance(h, steps[0]), steps[1..], m, o);
    }
  }

  // ----- exactly once

  /** Every accepted sample is covered by its interface's checkpoint. */
  ghost predicate AcceptedReached(h: Run) {
    forall s :: s in h.accepted ==> CheckpointReached(h.tables, s.owner, s.end)
  }

  /** Accepted samples of one interface end strictly later one after the other. */
  ghost predicate AcceptedInOrder(h: Run) {
    forall i, j :: 0 <= i < j < |h.accepted| && h.accepted[i].owner == h.accepted[j].owner
      ==> h.accepted[i].end < h.accepted[j].end
  }

  /** No transaction takes a checkpoint away or moves it back. */
  lemma AdvanceKeepsReached(h: Run, step: Step, o: Owner, at: i64)
    requires CheckpointReached(h.tables, o, at)
    ensures CheckpointReached(Advance(h, step).tables, o, at)
  {
    match step
    case AddSample(s, c) =>
    case AddGap(g, c) =>
    case AddCheckpoint(c) =>
    case RollUp(cutoff, size, batch) =>
    case Prune(before, batch) =>
  }

  lemma AdvanceReaches(h: Run, step: Step)
    requires AcceptedReached(h)
    ensures AcceptedReached(Advance(h, step))
  {
    var h' := Advance(h, step);
    forall s | s in h'.accepted ensures CheckpointReached(h'.tables, s.owner, s.end) {
      if s in h.accepted {
        AdvanceKeepsReached(h, step, s.owner, s.end);
      }
    }
  }

  lemma AdvanceOrders(h: Run, step: Step)
    requires AcceptedReached(h) && AcceptedInOrder(h)
    ensures AcceptedInOrder(Advance(h, step))
  {
    var h' := Advance(h, step);
    if h'.accepted != h.accepted {
      forall i | 0 <= i < |h.accepted| && h.accepted[i].owner == step.sample.owner
        ensures h.accepted[i].end < step.sample.end
      {
        assert CheckpointReached(h.tables, h.accepted[i].owner, h.accepted[i].end);
      }
    }
  }

  lemma {:induction false} RunsKeepReached(h: Run, steps: seq<Step>, o: Owner, at: i64)
    requires CheckpointReached(h.tables, o, at)
    ensures CheckpointReached(Execute(h, steps).tables, o, at)
    decreases |steps|
  {
    if steps != [] {
      AdvanceKeepsReached(h, steps[0], o, at);
      RunsKeepReached(Advance(h, steps[0]), steps[1..], o, at);
    }
  }

  lemma AdvanceKeepsAccepted(h: Run, step: Step)
    ensures h.accepted <= Advance(h, step).accepted
  {
  }

  lemma {:induction false} RunsKeepAccepted(h: Run, steps: seq<Step>)
    ensures h.accepted <= Execute(h, steps).accepted
    decreases |steps|
  {
    if steps != [] {
      AdvanceKeepsAccepted(h, steps[0]);
      RunsKeepAccepted(Advance(h, steps[0]), steps[1..]);
    }
  }

  /** Checkpoint times only grow, and each interface accepts ends in strictly increasing order. */
  lemma {:induction false} RunsOrder(h: Run, steps: seq<Step>)
    requires AcceptedReached(h) && AcceptedInOrder(h)
    ensures AcceptedReached(Execute(h, steps)) && AcceptedInOrder(Execute(h, steps))
    ensures forall o, at :: CheckpointReached(h.tables, o, at) ==> CheckpointReached(Execute(h, steps).tables, o, at)
    ensures h.accepted <= Execute(h, steps).accepted
    decreases |steps|
  {
    forall o, at | CheckpointReached(h.tables, o, at) ensures CheckpointReached(Execute(h, steps).tables, o, at) {
      RunsKeepReached(h, steps, o, at);
    }
    RunsKeepAccepted(h, steps);
    if steps != [] {
      AdvanceReaches(h, steps[0]);
      AdvanceOrders(h, steps[0]);
      RunsOrder(Advance(h, steps[0]), steps[1..]);
    }
  }

  /**
   * Exactly once: after any run, a sample that was accepted, or any observation of its
   * interface that is no later, adds nothing when it is committed again, whether its row is
   * intact, shrunk to a remainder, rolled up or pruned.
   */
  lemma ReplayAddsNothing(h: Run, steps: seq<Step>, s: SampleInput, replay: SampleInput, c: CheckpointInput)
    requires AcceptedReached(h) && AcceptedInOrder(h)
    requires s in Execute(h, steps).accepted && replay.owner == s.owner && replay.end <= s.end
    ensures Advance(Execute(h, steps), AddSample(replay, c)) == Execute(h, steps)
  {
    RunsOrder(h, steps);
    OldObservationAddsNothing(Execute(h, steps).tables, replay, c);
  }

  // ----- queryable runs

  /** Samples and raw rollups of the interface end by `at`. */
  ghost predicate RowsEndBy(t: Tables, o: Owner, at: int) {
    && (forall s :: s in t.samples && s.owner == o ==> s.end <= at)
    && forall r :: r in t.rollups && r.owner == o && RawRow(r) ==> r.end <= at
  }

  /** Where an interface has a checkpoint, its samples and raw rollups end by it. */
  ghost predicate BehindCheckpoints(t: Tables) {
    forall o :: o in t.checkpoints ==> RowsEndBy(t, o, t.checkpoints[o].observedAt)
  }

  /**
   * The sample starts where the interface's checkpoint stands or later (an interface without one
   * has no row that ends later), and avoids the buckets of rollups from other sources.
   */
  ghost predicate Continues(t: Tables, s: SampleInput, size: i64)
    requires size > 0
  {
    && s.end - s.start <= I64_MAX
    && (if s.owner in t.checkpoints then s.start >= t.checkpoints[s.owner].observedAt
      else RowsEndBy(t, s.owner, s.start))
    && forall r :: r in t.rollups && r.owner == s.owner && !RawRow(r) ==>
         IntervalsApart(AlignDown(s.start, size), AlignUp(s.end, size), r.start, r.end)
  }

  /** A first checkpoint is not behind the rows its interface already has. */
  ghost predicate FirstCheckpointFits(t: Tables, c: CheckpointInput) {
    c.owner !in t.checkpoints ==> RowsEndBy(t, c.owner, c.observedAt)
  }

  /** Asked only of steps that change something; retries and replays are free. */
  ghost predicate StepContinues(h: Run, step: Step, size: i64)
    requires size > 0
  {
    && (step.AddSample? && Advance(h, step).accepted != h.accepted ==> Continues(h.tables, step.sample, size))
    && (step.AddGap? && Advance(h, step) != h ==> FirstCheckpointFits(h.tables, step.gapCheckpoint))
    && (step.AddCheckpoint? && Advance(h, step) != h ==> FirstCheckpointFits(h.tables, step.first))
    && (step.RollUp? ==> step.size == size)
  }

  /** Every accepted sample of the run continues its interface, and rollups keep one bucket size. */
  ghost predicate RunContinues(h: Run, steps: seq<Step>, size: i64)
    requires size > 0
    decreases |steps|
  {
    steps == [] || (StepContinues(h, steps[0], size) && RunContinues(Advance(h, steps[0]), steps[1..], size))
  }

  ghost predicate RunSound(h: Run, size: i64) {
    StoreSound(h.tables, size) && IdsFresh(h.tables) && BehindCheckpoints(h.tables)
  }

  lemma AppendedIsSound(t: Tables, x: Sample, size: i64)
    requires StoreSound(t, size) && IdsFresh(t) && x.id == t.nextSample && SampleSound(x)
    requires forall y :: y in t.samples && y.owner == x.owner ==> y.end <= x.start
    requires forall r :: r in t.rollups && r.owner == x.owner ==> SampleClearOf(x, r, size)
    ensures StoreSound(t.(samples := t.samples + [x]), size)
  {
    var samples := t.samples + [x];
    assert forall y :: y in samples <==> y == x || y in t.samples;
    assert SamplesApart(samples);
  }

  lemma ContinuesPastRows(t: Tables, s: SampleInput, size: i64)
    requires size > 0 && BehindCheckpoints(t) && Continues(t, s, size)
    ensures RowsEndBy(t, s.owner, s.start)
  {
  }

  lemma AddedSampleStaysSound(t: Tables, s: SampleInput, c: CheckpointInput, size: i64)
    requires StoreSound(t, size) && IdsFresh(t) && BehindCheckpoints(t) && Continues(t, s, size)
    requires CommitSample(t, s, c).Ok? && CommitSample(t, s, c).value.1
    ensures StoreSound(CommitSample(t, s, c).value.0, size)
    ensures BehindCheckpoints(CommitSample(t, s, c).value.0)
  {
    ContinuesPastRows(t, s, size);
    CommitAppends(t, s, c);
    var x := NewSample(t.nextSample, s);
    forall r | r in t.rollups && r.owner == x.owner ensures SampleClearOf(x, r, size) {
    }
    AppendedIsSound(t, x, size);
    AppendedIsBehind(t, CommitSample(t, s, c).value.0, x, c);
  }

  lemma AppendedIsBehind(t: Tables, t': Tables, x: Sample, c: CheckpointInput)
    requires BehindCheckpoints(t) && RowsEndBy(t, x.owner, x.end) && c.owner == x.owner && c.observedAt == x.end
    requires t'.samples == t.samples + [x] && t'.rollups == t.rollups
    requires t'.checkpoints == t.checkpoints[c.owner := StoredCheckpoint(c)]
    ensures BehindCheckpoints(t')
  {
    forall o | o in t'.checkpoints ensures RowsEndBy(t', o, t'.checkpoints[o].observedAt) {
      if o != c.owner {
        assert RowsEndBy(t, o, t.checkpoints[o].observedAt);
      }
    }
  }

  /** Moving a checkpoint forward, or setting a first one that fits, keeps the rows behind it. */
  lemma CheckpointStaysBehind(t: Tables, t': Tables, c: CheckpointInput)
    requires BehindCheckpoints(t) && FirstCheckpointFits(t, c)
    requires t'.samples == t.samples && t'.rollups == t.rollups
    requires t'.checkpoints == t.checkpoints || t'.checkpoints == t.checkpoints[c.owner := StoredCheckpoint(c)]
    requires t'.checkpoints != t.checkpoints && c.owner in t.checkpoints ==>
      t.checkpoints[c.owner].observedAt <= c.observedAt
    ensures BehindCheckpoints(t')
  {
    forall o | o in t'.checkpoints ensures RowsEndBy(t', o, t'.checkpoints[o].observedAt) {
      if o in t.checkpoints {
        assert RowsEndBy(t, o, t.checkpoints[o].observedAt);
      }
    }
  }

  /** Rows that come from old rows of the interface and end no later stay behind its checkpoint. */
  lemma DerivedStaysBehind(t: Tables, t': Tables)
    requires BehindCheckpoints(t) && t'.checkpoints == t.checkpoints && RowsDerived(t, t')
    ensures BehindCheckpoints(t')
  {
    forall o | o in t'.checkpoints ensures RowsEndBy(t', o, t'.checkpoints[o].observedAt) {
      assert RowsEndBy(t, o, t.checkpoints[o].observedAt);
    }
  }

  lemma CheckpointStepStaysBehind(h: Run, step: Step, size: i64)
    requires size > 0 && BehindCheckpoints(h.tables) && StepContinues(h, step, size)
      && (step.AddGap? || step.AddCheckpoint?)
    ensures BehindCheckpoints(Advance(h, step).tables)
  {
    if Advance(h, step) != h {
      CheckpointStaysBehind(h.tables, Advance(h, step).tables, if step.AddGap? then step.gapCheckpoint else step.first);
    }
  }

  lemma BatchStaysBehind(t: Tables, cutoff: i64, size: i64, batch: nat)
    requires StoreSound(t, size) && BehindCheckpoints(t) && RollupTables(t, cutoff, size, batch).Ok?
    ensures BehindCheckpoints(RollupTables(t, cutoff, size, batch).value.0)
  {
    RollupOrigins(t, cutoff, size, batch);
    DerivedStaysBehind(t, RollupTables(t, cutoff, size, batch).value.0);
  }

  lemma PruneStaysBehind(t: Tables, before: i64, batch: nat)
    requires BehindCheckpoints(t) && PruneTables(t, before, batch).Ok?
    ensures BehindCheckpoints(PruneTables(t, before, batch).value.0)
  {
    KeptSamples(t.samples, ChooseDoomed(t, before, batch).samples);
    KeptRollups(t.rollups, ChooseDoomed(t, before, batch).rollups);
    DerivedStaysBehind(t, PruneTables(t, before, batch).value.0);
  }

  lemma AdvanceStaysSound(h: Run, step: Step, size: i64)
    requires size > 0 && RunSound(h, size) && StepContinues(h, step, size)
    ensures RunSound(Advance(h, step), size)
  {
    AdvanceKeepsIds(h, step);
    match step
    case AddSample(s, c) =>
      if CommitSample(h.tables, s, c).Ok? && CommitSample(h.tables, s, c).value.1 {
        assert Advance(h, step).accepted[|h.accepted|] == s;
        AddedSampleStaysSound(h.tables, s, c, size);
      }
    case RollUp(cutoff, sz, batch) =>
      if RollupTables(h.tables, cutoff, size, batch).Ok? {
        RollupStaysSound(h.tables, cutoff, size, batch);
        BatchStaysBehind(h.tables, cutoff, size, batch);
      }
    case Prune(before, batch) =>
      if PruneTables(h.tables, before, batch).Ok? {
        PruneStaysSound(h.tables, before, batch, size);
        PruneStaysBehind(h.tables, before, batch);
      }
    case _ =>
      CheckpointStepStaysBehind(h, step, size);
  }

  lemma {:induction false} RunsStaySound(h: Run, steps: seq<Step>, size: i64)
    requires size > 0 && RunSound(h, size) && RunContinues(h, steps, size)
    ensures RunSound(Execute(h, steps), size)
    decreases |steps|
  {
    if steps != [] {
      AdvanceStaysSound(h, steps[0], size);
      RunsStaySound(Advance(h, steps[0]), steps[1..], size);
    }
  }

  /**
   * After every run in which accepted samples continue their interface, any interleaving with
   * retries, replays of old samples, gaps, rollups with arbitrary cutoffs and batches, and
   * retention leaves a store that answers every valid query within the row budget.
   */
  lemma RunsStayQueryable(h: Run, steps: seq<Step>, size: i64, q: Query, budget: nat)
    requires size > 0 && RunSound(h, size) && RunContinues(h, steps, size)
    requires KnownInterface(Execute(h, steps).tables, OwnerIn(q))
    requires QueryValid(q, budget) && Unsaturated(q) && budget < I64_MAX
    ensures var t := Execute(h, steps).tables;
      if RowCount(t, q) <= budget then QueryStore(t, q, budget).Ok? else QueryStore(t, q, budget) == Err(TooLarge)
  {
    RunsStaySound(h, steps, size);
    SoundStoreAnswers(Execute(h, steps).tables, size, q, budget);
  }

  // ----- retries and replays need no premise

  /** A sample that is repeated, or any observation no later than the checkpoint, is always a permitted step. */
  lemma ReplaysAreFree(h: Run, s: SampleInput, c: CheckpointInput, size: i64)
    requires size > 0 && CheckpointReached(h.tables, s.owner, s.end)
    ensures StepContinues(h, AddSample(s, c), size) && Advance(h, AddSample(s, c)) == h
  {
    OldObservationAddsNothing(h.tables, s, c);
  }

  /** Repeating any sample right after its commit keeps a permitted run permitted. */
  lemma RetriesAreFree(h: Run, s: SampleInput, c: CheckpointInput, rest: seq<Step>, size: i64)
    requires size > 0 && CommitSample(h.tables, s, c).Ok? && CommitSample(h.tables, s, c).value.1
    requires RunContinues(h, [AddSample(s, c)] + rest, size)
    ensures RunContinues(h, [AddSample(s, c), AddSample(s, c)] + rest, size)
  {
    var once, twice := [AddSample(s, c)] + rest, [AddSample(s, c), AddSample(s, c)] + rest;
    var h' := Advance(h, AddSample(s, c));
    assert once[1..] == rest && twice[1..] == once && twice[1..][1..] == rest;
    ReplaysAreFree(h', s, c, size);
  }
}
