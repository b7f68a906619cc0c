/** Committing samples and gaps together with the counter checkpoint. */
module Commits {
  import opened Int64
  import opened Outcomes
  import opened Contributions
  import opened TrafficTables
  import TextForms

  datatype SampleInput = SampleInput(
    owner: Owner, start: i64, end: i64, duration: i64, down: i64, up: i64,
    downBps: real, upBps: real, exact: bool, source: string)

  datatype CheckpointInput = CheckpointInput(
    owner: Owner, rx: string, tx: string, observedAt: i64, rebootMarker: Option<string>)

  datatype GapInput = GapInput(
    router: int, iface: Option<int>, start: i64, end: i64, reason: string, details: Option<string>)

  // ----- validation

  predicate Blank(s: string) { TextForms.Trim(s) == "" }

  predicate DecimalCounter(s: string) {
    s != "" && forall i :: 0 <= i < |s| ==> '0' <= s[i] <= '9'
  }

  predicate SampleInputValid(s: SampleInput) {
    && s.end > s.start && s.duration == SatSub(s.end, s.start)
    && s.down >= 0 && s.up >= 0 && s.downBps >= 0.0 && s.upBps >= 0.0 && !Blank(s.source)
  }

  predicate CheckpointInputValid(c: CheckpointInput) { DecimalCounter(c.rx) && DecimalCounter(c.tx) }

  predicate GapInputValid(g: GapInput) { g.end > g.start && !Blank(g.reason) }

  function StoredCheckpoint(c: CheckpointInput): Checkpoint {
    Checkpoint(c.rx, c.tx, c.observedAt, c.rebootMarker)
  }

  /** The stored checkpoint is not the one this observation was committed with. */
  predicate CheckpointConflicts(current: Checkpoint, c: CheckpointInput) {
    current.observedAt < c.observedAt || (current.observedAt == c.observedAt && current != StoredCheckpoint(c))
  }

  /** A checkpoint for the owner exists and is not older than the observation. */
  predicate CheckpointReached(t: Tables, o: Owner, at: i64) {
    o in t.checkpoints && t.checkpoints[o].observedAt >= at
  }

  // ----- samples

  function FindSample(samples: seq<Sample>, o: Owner, end: i64, source: string): Option<Sample> {
    if samples == [] then None
    else if samples[0].owner == o && samples[0].end == end && samples[0].source == source then Some(samples[0])
    else FindSample(samples[1..], o, end, source)
  }

  predicate SampleMatches(x: Sample, s: SampleInput) {
    x.start == s.start && x.duration == s.duration && x.down == s.down && x.up == s.up
    && x.downBps == s.downBps && x.upBps == s.upBps && x.exact == s.exact
  }

  function NewSample(id: nat, s: SampleInput): Sample
    requires SampleInputValid(s)
  {
    Sample(id, s.owner, s.start, s.end, s.duration, s.down, s.up, s.downBps, s.upBps, s.exact, s.source)
  }

  /** New tables and whether the sample was added; a retry of a stored sample adds nothing. */
  function CommitSample(t: Tables, s: SampleInput, c: CheckpointInput): Result<(Tables, bool)> {
    if !SampleInputValid(s) || !CheckpointInputValid(c) then Err(InvalidCommand)
    else if s.owner != c.owner || s.end != c.observedAt then Err(InvalidCommand)
    else if !OwnsInterface(t, s.owner) then Err(InvalidCommand)
    else
      var existing := FindSample(t.samples, s.owner, s.end, s.source);
      if existing.Some? then
        if !SampleMatches(existing.value, s) then Err(Verification)
        else if c.owner !in t.checkpoints then Err(Verification)
        else if CheckpointConflicts(t.checkpoints[c.owner], c) then Err(Verification)
        else Ok((t, false))
      else if CheckpointReached(t, c.owner, c.observedAt) then Err(Verification)
      else
        Ok((t.(samples := t.samples + [NewSample(t.nextSample, s)], nextSample := t.nextSample + 1,
               checkpoints := t.checkpoints[c.owner := StoredCheckpoint(c)]), true))
  }

  /** What a commit that returned true did to the rows. */
  lemma CommitAppends(t: Tables, s: SampleInput, c: CheckpointInput)
    requires CommitSample(t, s, c).Ok? && CommitSample(t, s, c).value.1
    ensures SampleInputValid(s)
    ensures var t' := CommitSample(t, s, c).value.0;
      t'.samples == t.samples + [NewSample(t.nextSample, s)] && t'.rollups == t.rollups && t'.gaps == t.gaps
  {
  }

  // ----- gaps

  function FindGap(gaps: seq<Gap>, g: GapInput): Option<Gap> {
    if gaps == [] then None
    else if gaps[0].router == g.router && gaps[0].iface == g.iface && gaps[0].start == g.start
            && gaps[0].end == g.end && gaps[0].reason == g.reason then Some(gaps[0])
    else FindGap(gaps[1..], g)
  }

  function DetailsOf(d: Option<string>): string { if d.Some? then d.value else "" }

  function CommitGap(t: Tables, g: GapInput, c: CheckpointInput): Result<(Tables, bool)> {
    if !GapInputValid(g) || !CheckpointInputValid(c) then Err(InvalidCommand)
    else if g.iface != Some(c.owner.iface) || g.router != c.owner.router || g.end != c.observedAt then
      Err(InvalidCommand)
    else if !KnownInterface(t, c.owner) then Err(InvalidCommand)
    else
      var existing := FindGap(t.gaps, g);
      if existing.Some? then
        if DetailsOf(existing.value.details) != DetailsOf(g.details) then Err(Verification)
        else if c.owner !in t.checkpoints then Err(Verification)
        else if CheckpointConflicts(t.checkpoints[c.owner], c) then Err(Verification)
        else Ok((t, false))
      else if CheckpointReached(t, c.owner, c.observedAt) then Err(Verification)
      else
        Ok((t.(gaps := t.gaps + [Gap(t.nextGap, g.router, g.iface, g.start, g.end, g.reason, g.details)],
          nextGap := t.nextGap + 1,
               checkpoints := t.checkpoints[c.owner := StoredCheckpoint(c)]), true))
  }

  /** The first checkpoint of an interface; an existing one is left alone. */
  function InitializeCheckpoint(t: Tables, c: CheckpointInput): Result<(Tables, bool)> {
    if !CheckpointInputValid(c) || !KnownInterface(t, c.owner) then Err(InvalidCommand)
    else if c.owner in t.checkpoints then Ok((t, false))
    else Ok((t.(checkpoints := t.checkpoints[c.owner := StoredCheckpoint(c)]), true))
  }

  // ----- retries

  lemma {:induction false} FindAppended(samples: seq<Sample>, x: Sample)
    requires FindSample(samples, x.owner, x.end, x.source).None?
    ensures FindSample(samples + [x], x.owner, x.end, x.source) == Some(x)
  {
    if samples != [] {
      FindAppended(samples[1..], x);
      assert (samples + [x])[1..] == samples[1..] + [x];
    }
  }

  /** Committing the same observation again right away adds nothing and reports so. */
  lemma RetryIsIdempotent(t: Tables, s: SampleInput, c: CheckpointInput)
    requires CommitSample(t, s, c).Ok? && CommitSample(t, s, c).value.1
    ensures CommitSample(CommitSample(t, s, c).value.0, s, c) == Ok((CommitSample(t, s, c).value.0, false))
  {
    FindAppended(t.samples, NewSample(t.nextSample, s));
  }

  /** An observation no later than the checkpoint never adds a sample, whatever became of its row. */
  lemma OldObservationAddsNothing(t: Tables, s: SampleInput, c: CheckpointInput)
    requires CheckpointReached(t, s.owner, s.end)
    ensures CommitSample(t, s, c).Ok? ==> CommitSample(t, s, c).value == (t, false)
  {
  }

  lemma {:induction false} FindGapAppended(gaps: seq<Gap>, g: GapInput, x: Gap)
    requires FindGap(gaps, g).None?
    requires x.router == g.router && x.iface == g.iface && x.start == g.start && x.end == g.end && x.reason == g.reason
    ensures FindGap(gaps + [x], g) == Some(x)
  {
    if gaps != [] {
      FindGapAppended(gaps[1..], g, x);
      assert (gaps + [x])[1..] == gaps[1..] + [x];
    }
  }

  /** Committing the same gap again right away adds nothing and reports so. */
  lemma GapRetryIsIdempotent(t: Tables, g: GapInput, c: CheckpointInput)
    requires CommitGap(t, g, c).Ok? && CommitGap(t, g, c).value.1
    ensures CommitGap(CommitGap(t, g, c).value.0, g, c) == Ok((CommitGap(t, g, c).value.0, false))
  {
    FindGapAppended(t.gaps, g, Gap(t.nextGap, g.router, g.iface, g.start, g.end, g.reason, g.details));
  }
}
