/** Over whole runs: keys stay unique, and samples that continue their interface are all recorded. */
module HistoryAcceptance {
  import opened Int64
  import opened Outcomes
  import opened TrafficTables
  import opened RollupBatch
  import opened RollupTheorems
  import opened StoreInvariant
  import opened RollupSafety
  import opened RollupGuarantees
  import opened RollupRows
  import opened Retention
  import opened Commits
  import opened CommitAcceptance
  import opened History

  // ----- keys stay unique

  /** What is left of a sample has its id, interface, end and source. */
  lemma LeftKeepsKey(samples: seq<Sample>, p: Progress, x: Sample) returns (s: Sample)
    requires LeftFrom(samples, p, x)
    ensures s in samples && s.id == x.id && s.owner == x.owner && s.end == x.end && s.source == x.source
  {
    if x in samples {
      s := x;
    } else {
      var r :| r in p.remainders && RemainderStorable(samples, r) && x == Shrunk(samples, r);
      s := Lookup(samples, r.id).value;
      LookupNone(samples, r.id);
    }
  }

  lemma SameIdSameSample(samples: seq<Sample>, a: Sample, b: Sample)
    requires UniqueSampleIds(samples) && a in samples && b in samples && a.id == b.id
    ensures a == b
  {
    LookupFinds(samples, a);
    LookupFinds(samples, b);
  }

  lemma BatchKeepsKeys(t: Tables, cutoff: i64, size: i64, batch: nat)
    requires UniqueSampleIds(t.samples) && SampleKeysUnique(t.samples) && RollupTables(t, cutoff, size, batch).Ok?
    ensures SampleKeysUnique(RollupTables(t, cutoff, size, batch).value.0.samples)
  {
    var p, left := PlanOf(t, cutoff, size, batch), RollupTables(t, cutoff, size, batch).value.0.samples;
    PlanLeavesRests(t, cutoff, size, batch);
    SettledRows(t.samples, p, size, cutoff);
    forall a, b | a in left && b in left && a.owner == b.owner && a.end == b.end && a.source == b.source
      ensures a == b
    {
      var x := LeftKeepsKey(t.samples, p, a);
      var y := LeftKeepsKey(t.samples, p, b);
      SameIdSameSample(left, a, b);
    }
  }

  lemma CommitKeepsKeys(t: Tables, s: SampleInput, c: CheckpointInput)
    requires SampleKeysUnique(t.samples) && CommitSample(t, s, c).Ok? && CommitSample(t, s, c).value.1
    ensures SampleKeysUnique(CommitSample(t, s, c).value.0.samples)
  {
    CommitAcceptsExactly(t, s, c);
    var x := NewSample(t.nextSample, s);
    assert forall y :: y in t.samples + [x] <==> y in t.samples || y == x;
  }

  lemma GapKeepsKeys(t: Tables, g: GapInput, c: CheckpointInput)
    requires GapKeysUnique(t.gaps) && CommitGap(t, g, c).Ok?
    ensures GapKeysUnique(CommitGap(t, g, c).value.0.gaps)
  {
    if CommitGap(t, g, c).value.1 {
      GapAcceptsExactly(t, g, c);
      var x := Gap(t.nextGap, g.router, g.iface, g.start, g.end, g.reason, g.details);
      assert forall y :: y in t.gaps + [x] <==> y in t.gaps || y == x;
    }
  }

  ghost predicate KeysUnique(t: Tables) {
    SampleKeysUnique(t.samples) && GapKeysUnique(t.gaps)
  }

  lemma AdvanceKeepsKeys(h: Run, step: Step)
    requires IdsFresh(h.tables) && KeysUnique(h.tables)
    ensures KeysUnique(Advance(h, step).tables)
  {
    match step
    case AddSample(s, c) =>
      if CommitSample(h.tables, s, c).Ok? && CommitSample(h.tables, s, c).value.1 {
        CommitKeepsKeys(h.tables, s, c);
        CommitAppends(h.tables, s, c);
      }
    case AddGap(g, c) =>
      if CommitGap(h.tables, g, c).Ok? {
        GapKeepsKeys(h.tables, g, c);
      }
    case RollUp(cutoff, size, batch) =>
      if RollupTables(h.tables, cutoff, size, batch).Ok? {
        BatchKeepsKeys(h.tables, cutoff, size, batch);
      }
    case Prune(before, batch) =>
      var d := ChooseDoomed(h.tables, before, batch);
      KeptSamples(h.tables.samples, d.samples);
      KeptGaps(h.tables.gaps, d.gaps);
    case AddCheckpoint(c) =>
  }

  /** The premise under which retries are answered exactly holds at every state a run reaches. */
  lemma {:induction false} RunsKeepKeys(h: Run, steps: seq<Step>)
    requires IdsFresh(h.tables) && KeysUnique(h.tables)
    ensures KeysUnique(Execute(h, steps).tables)
    decreases |steps|
  {
    if steps != [] {
      AdvanceKeepsKeys(h, steps[0]);
      AdvanceKeepsIds(h, steps[0]);
      RunsKeepKeys(Advance(h, steps[0]), steps[1..]);
    }
  }

  // ----- continuing samples are recorded

  /** A well-formed sample of a registered interface that starts where its rows and checkpoint end. */
  ghost predicate Feeds(t: Tables, s: SampleInput, c: CheckpointInput, size: i64)
    requires size > 0
  {
    SampleWellFormed(s, c) && Registered(t, s.owner) && Continues(t, s, size)
  }

  lemma FedSampleIsAccepted(h: Run, s: SampleInput, c: CheckpointInput, size: i64)
    requires size > 0 && BehindCheckpoints(h.tables) && Feeds(h.tables, s, c, size)
    ensures Advance(h, AddSample(s, c)).accepted == h.accepted + [s]
  {
    ContinuesPastRows(h.tables, s, size);
    assert forall x :: x in h.tables.samples ==> !HasKey(x, s);
    CommitAcceptsExactly(h.tables, s, c);
  }

  /** Every sample of the run continues its interface; gaps, rollups and pruning come in between. */
  ghost predicate RunFeeds(h: Run, steps: seq<Step>, size: i64)
    requires size > 0
    decreases |steps|
  {
    steps == [] ||
    (&& StepContinues(h, steps[0], size)
     && (steps[0].AddSample? ==> Feeds(h.tables, steps[0].sample, steps[0].checkpoint, size))
     && RunFeeds(Advance(h, steps[0]), steps[1..], size))
  }

  function SamplesOf(steps: seq<Step>): seq<SampleInput>
    decreases |steps|
  {
    if steps == [] then []
    else (if steps[0].AddSample? then [steps[0].sample] else []) + SamplesOf(steps[1..])
  }

  /** Nothing is dropped: a run that feeds each interface onwards records every sample, in order. */
  lemma {:induction false} FedRunsRecordAll(h: Run, steps: seq<Step>, size: i64)
    requires size > 0 && RunSound(h, size) && RunFeeds(h, steps, size)
    ensures Execute(h, steps).accepted == h.accepted + SamplesOf(steps)
    decreases |steps|
  {
    if steps != [] {
      AdvanceStaysSound(h, steps[0], size);
      FedRunsRecordAll(Advance(h, steps[0]), steps[1..], size);
      StepRecords(h, steps[0], size);
      AppendRecorded(h.accepted, steps);
    }
  }

  lemma StepRecords(h: Run, step: Step, size: i64)
    requires size > 0 && BehindCheckpoints(h.tables)
    requires step.AddSample? ==> Feeds(h.tables, step.sample, step.checkpoint, size)
    ensures Advance(h, step).accepted == h.accepted + if step.AddSample? then [step.sample] else []
  {
    if step.AddSample? {
      FedSampleIsAccepted(h, step.sample, step.checkpoint, size);
    }
  }

  lemma AppendRecorded(before: seq<SampleInput>, steps: seq<Step>)
    requires steps != []
    ensures before + (if steps[0].AddSample? then [steps[0].sample] else []) + SamplesOf(steps[1..])
         == before + SamplesOf(steps)
  {
  }

  // ----- a condition on the samples alone

  /** The samples of each interface follow one another. */
  ghost predicate InSequence(inputs: seq<(SampleInput, CheckpointInput)>) {
    forall i, j :: 0 <= i < j < |inputs| && inputs[i].0.owner == inputs[j].0.owner ==>
      inputs[i].0.end <= inputs[j].0.start
  }

  /** The rows and the checkpoint of the sample's interface end where it starts. */
  ghost predicate StartsAfter(t: Tables, s: SampleInput) {
    && RowsEndBy(t, s.owner, s.start)
    && (s.owner in t.checkpoints ==> t.checkpoints[s.owner].observedAt <= s.start)
  }

  function AsSteps(inputs: seq<(SampleInput, CheckpointInput)>): seq<Step> {
    seq(|inputs|, i requires 0 <= i < |inputs| => AddSample(inputs[i].0, inputs[i].1))
  }

  function SamplesIn(inputs: seq<(SampleInput, CheckpointInput)>): seq<SampleInput> {
    seq(|inputs|, i requires 0 <= i < |inputs| => inputs[i].0)
  }

  lemma FirstIsAccepted(h: Run, s: SampleInput, c: CheckpointInput)
    requires SampleWellFormed(s, c) && Registered(h.tables, s.owner) && StartsAfter(h.tables, s)
    ensures var h' := Advance(h, AddSample(s, c));
      && h'.accepted == h.accepted + [s] && h'.tables.interfaces == h.tables.interfaces
      && forall x: SampleInput :: StartsAfter(h.tables, x) && (x.owner == s.owner ==> s.end <= x.start) ==>
           StartsAfter(h'.tables, x)
  {
    assert forall x :: x in h.tables.samples ==> !HasKey(x, s);
    CommitAcceptsExactly(h.tables, s, c);
  }

  lemma HeadOfSteps(h: Run, inputs: seq<(SampleInput, CheckpointInput)>)
    requires inputs != []
    ensures Execute(h, AsSteps(inputs))
      == Execute(Advance(h, AddSample(inputs[0].0, inputs[0].1)), AsSteps(inputs[1..]))
    ensures SamplesIn(inputs) == [inputs[0].0] + SamplesIn(inputs[1..])
  {
    assert AsSteps(inputs)[1..] == AsSteps(inputs[1..]);
  }

  /**
   * A poller's observations, well formed and one after the other on each registered interface, are
   * all recorded, whatever rows and checkpoints were there before them.
   */
  lemma {:induction false} PollingIsRecorded(h: Run, inputs: seq<(SampleInput, CheckpointInput)>)
    requires InSequence(inputs)
    requires forall i :: 0 <= i < |inputs| ==>
      && SampleWellFormed(inputs[i].0, inputs[i].1) && Registered(h.tables, inputs[i].0.owner)
      && StartsAfter(h.tables, inputs[i].0)
    ensures Execute(h, AsSteps(inputs)).accepted == h.accepted + SamplesIn(inputs)
    decreases |inputs|
  {
    if inputs != [] {
      var s, c := inputs[0].0, inputs[0].1;
      FirstIsAccepted(h, s, c);
      var h' := Advance(h, AddSample(s, c));
      forall i | 0 <= i < |inputs[1..]| ensures StartsAfter(h'.tables, inputs[1..][i].0) {
        assert inputs[1..][i] == inputs[i + 1];
      }
      PollingIsRecorded(h', inputs[1..]);
      HeadOfSteps(h, inputs);
    }
  }
}
