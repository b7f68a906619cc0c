/** Which commits are accepted, which are answered as retries, and which are refused. */
module CommitAcceptance {
  import opened Int64
  import opened Outcomes
  import opened Contributions
  import opened TrafficTables
  import opened Commits
  import opened TextForms

  predicate Digits(s: string) { s != "" && forall i :: 0 <= i < |s| ==> s[i] in "0123456789" }

  lemma DigitsMeaning(s: string)
    ensures DecimalCounter(s) <==> Digits(s)
  {
    assert forall c: char :: c in "0123456789" <==> '0' <= c <= '9';
  }

  /** The counters of a checkpoint are decimal digits. */
  predicate CountersReadable(c: CheckpointInput) { Digits(c.rx) && Digits(c.tx) }

  predicate Registered(t: Tables, o: Owner) { o.iface in t.interfaces && t.interfaces[o.iface] == o.router }

  /** The interface's checkpoint, if any, is earlier. */
  predicate CheckpointBefore(t: Tables, o: Owner, at: int) {
    o in t.checkpoints ==> t.checkpoints[o].observedAt < at
  }

  /** The checkpoint is the given one or a later one. */
  predicate CheckpointAgrees(t: Tables, c: CheckpointInput) {
    && c.owner in t.checkpoints
    && (t.checkpoints[c.owner].observedAt > c.observedAt
        || t.checkpoints[c.owner] == Checkpoint(c.rx, c.tx, c.observedAt, c.rebootMarker))
  }

  // ----- samples

  /** The observation is one a poller can make: ordered, measured, labelled, and with its checkpoint. */
  predicate SampleWellFormed(s: SampleInput, c: CheckpointInput) {
    && s.start < s.end && s.duration == Min(s.end - s.start, I64_MAX)
    && 0 <= s.down && 0 <= s.up && 0.0 <= s.downBps && 0.0 <= s.upBps && HasText(s.source)
    && CountersReadable(c) && c.owner == s.owner && c.observedAt == s.end
  }

  predicate HasKey(x: Sample, s: SampleInput) {
    x.owner == s.owner && x.end == s.end && x.source == s.source
  }

  /** A stored sample is determined by interface, end and source. */
  ghost predicate SampleKeysUnique(samples: seq<Sample>) {
    forall a, b :: a in samples && b in samples && a.owner == b.owner && a.end == b.end && a.source == b.source ==>
      a == b
  }

  lemma {:induction false} FindSampleFinds(samples: seq<Sample>, o: Owner, end: i64, source: string)
    ensures var found := FindSample(samples, o, end, source);
      if found.Some? then found.value in samples && found.value.owner == o && found.value.end == end
        && found.value.source == source
      else forall x :: x in samples ==> !(x.owner == o && x.end == end && x.source == source)
  {
    if samples != [] {
      FindSampleFinds(samples[1..], o, end, source);
      assert samples == [samples[0]] + samples[1..];
    }
  }

  lemma WellFormedMeaning(s: SampleInput, c: CheckpointInput)
    ensures SampleInputValid(s) && CheckpointInputValid(c) && s.owner == c.owner && s.end == c.observedAt
       <==> SampleWellFormed(s, c)
  {
    TrimMeaning(s.source);
    DigitsMeaning(c.rx);
    DigitsMeaning(c.tx);
  }

  /**
   * A sample is stored exactly when it is well formed, its interface is registered with its router,
   * no stored sample has its interface, end and source, and the interface's checkpoint is earlier.
   * Then the row and the checkpoint carry what was committed.
   */
  lemma CommitAcceptsExactly(t: Tables, s: SampleInput, c: CheckpointInput)
    ensures CommitSample(t, s, c).Ok? && CommitSample(t, s, c).value.1 <==>
      && SampleWellFormed(s, c) && Registered(t, s.owner)
      && (forall x :: x in t.samples ==> !HasKey(x, s))
      && CheckpointBefore(t, s.owner, s.end)
    ensures CommitSample(t, s, c).Ok? && CommitSample(t, s, c).value.1 ==>
      s.down >= 0 && s.up >= 0 && CommitSample(t, s, c).value.0 == t.(
        samples := t.samples + [Sample(t.nextSample, s.owner, s.start, s.end, s.duration, s.down, s.up, s.downBps,
                                       s.upBps, s.exact, s.source)],
        nextSample := t.nextSample + 1,
        checkpoints := t.checkpoints[s.owner := Checkpoint(c.rx, c.tx, c.observedAt, c.rebootMarker)])
  {
    WellFormedMeaning(s, c);
    FindSampleFinds(t.samples, s.owner, s.end, s.source);
  }

  /** The stored sample is the observation, field by field. */
  predicate StoresSame(x: Sample, s: SampleInput) {
    && HasKey(x, s) && x.start == s.start && x.duration == s.duration && x.down == s.down && x.up == s.up
    && x.downBps == s.downBps && x.upBps == s.upBps && x.exact == s.exact
  }

  /**
   * A commit reports false, and changes nothing, exactly when the very same sample is stored and
   * the checkpoint agrees; a sample of that key with any other field, like every other case, is an
   * error, and an ill-formed or unregistered one is an invalid command.
   */
  lemma RetryAnsweredExactly(t: Tables, s: SampleInput, c: CheckpointInput)
    requires SampleKeysUnique(t.samples)
    ensures CommitSample(t, s, c) == Ok((t, false)) <==>
      && SampleWellFormed(s, c) && Registered(t, s.owner)
      && (exists x :: x in t.samples && StoresSame(x, s)) && CheckpointAgrees(t, c)
    ensures CommitSample(t, s, c).Ok? && !CommitSample(t, s, c).value.1 ==> CommitSample(t, s, c).value.0 == t
    ensures (exists x :: x in t.samples && HasKey(x, s) && !StoresSame(x, s)) ==> CommitSample(t, s, c).Err?
    ensures CommitSample(t, s, c) == Err(InvalidCommand) <==> !(SampleWellFormed(s, c) && Registered(t, s.owner))
  {
    WellFormedMeaning(s, c);
    FindSampleFinds(t.samples, s.owner, s.end, s.source);
    var found := FindSample(t.samples, s.owner, s.end, s.source);
    assert found.Some? ==> forall x :: x in t.samples && HasKey(x, s) ==> x == found.value;
  }

  // ----- gaps

  predicate GapWellFormed(g: GapInput, c: CheckpointInput) {
    && g.start < g.end && HasText(g.reason) && CountersReadable(c)
    && c.owner.router == g.router && g.iface == Some(c.owner.iface) && c.observedAt == g.end
  }

  predicate GapHasKey(x: Gap, g: GapInput) {
    x.router == g.router && x.iface == g.iface && x.start == g.start && x.end == g.end && x.reason == g.reason
  }

  lemma {:induction false} FindGapFinds(gaps: seq<Gap>, g: GapInput)
    ensures var found := FindGap(gaps, g);
      if found.Some? then found.value in gaps && GapHasKey(found.value, g)
      else forall x :: x in gaps ==> !GapHasKey(x, g)
  {
    if gaps != [] {
      FindGapFinds(gaps[1..], g);
      assert gaps == [gaps[0]] + gaps[1..];
    }
  }

  lemma GapWellFormedMeaning(g: GapInput, c: CheckpointInput)
    ensures GapWellFormed(g, c) <==>
      && GapInputValid(g) && CheckpointInputValid(c) && g.iface == Some(c.owner.iface)
      && g.router == c.owner.router && g.end == c.observedAt
  {
    TrimMeaning(g.reason);
    DigitsMeaning(c.rx);
    DigitsMeaning(c.tx);
  }

  /** The same for gaps, whose router must exist as well. */
  lemma GapAcceptsExactly(t: Tables, g: GapInput, c: CheckpointInput)
    ensures CommitGap(t, g, c).Ok? && CommitGap(t, g, c).value.1 <==>
      && GapWellFormed(g, c) && Registered(t, c.owner) && c.owner.router in t.routers
      && (forall x :: x in t.gaps ==> !GapHasKey(x, g))
      && CheckpointBefore(t, c.owner, g.end)
    ensures CommitGap(t, g, c).Ok? && CommitGap(t, g, c).value.1 ==>
      CommitGap(t, g, c).value.0 == t.(
        gaps := t.gaps + [Gap(t.nextGap, g.router, g.iface, g.start, g.end, g.reason, g.details)],
        nextGap := t.nextGap + 1,
        checkpoints := t.checkpoints[c.owner := Checkpoint(c.rx, c.tx, c.observedAt, c.rebootMarker)])
  {
    GapWellFormedMeaning(g, c);
    FindGapFinds(t.gaps, g);
  }

  ghost predicate GapKeysUnique(gaps: seq<Gap>) {
    forall a, b :: a in gaps && b in gaps ==>
      a.router == b.router && a.iface == b.iface && a.start == b.start && a.end == b.end && a.reason == b.reason ==>
      a == b
  }

  /** Missing details read as empty ones. */
  predicate SameDetails(a: Option<string>, b: Option<string>) {
    a == b || (a in [None, Some("")] && b in [None, Some("")])
  }

  lemma GapRetryAnsweredExactly(t: Tables, g: GapInput, c: CheckpointInput)
    requires GapKeysUnique(t.gaps)
    ensures CommitGap(t, g, c) == Ok((t, false)) <==>
      && GapWellFormed(g, c) && Registered(t, c.owner) && c.owner.router in t.routers
      && (exists x :: x in t.gaps && GapHasKey(x, g) && SameDetails(x.details, g.details)) && CheckpointAgrees(t, c)
    ensures CommitGap(t, g, c) == Err(InvalidCommand) <==>
      !(GapWellFormed(g, c) && Registered(t, c.owner) && c.owner.router in t.routers)
  {
    GapWellFormedMeaning(g, c);
    FindGapFinds(t.gaps, g);
    var found := FindGap(t.gaps, g);
    assert found.Some? ==> forall x :: x in t.gaps && GapHasKey(x, g) ==> x == found.value;
  }

  /** A first checkpoint is stored exactly when its counters are digits and a registered interface has none. */
  lemma FirstCheckpointExactly(t: Tables, c: CheckpointInput)
    ensures InitializeCheckpoint(t, c).Ok? <==>
      CountersReadable(c) && Registered(t, c.owner) && c.owner.router in t.routers
    ensures InitializeCheckpoint(t, c).Ok? && c.owner in t.checkpoints ==>
      InitializeCheckpoint(t, c).value == (t, false)
    ensures InitializeCheckpoint(t, c).Ok? && c.owner !in t.checkpoints ==>
      InitializeCheckpoint(t, c).value
        == (t.(checkpoints := t.checkpoints[c.owner := Checkpoint(c.rx, c.tx, c.observedAt, c.rebootMarker)]), true)
  {
    DigitsMeaning(c.rx);
    DigitsMeaning(c.tx);
  }
}
