/** What queries report of a commit. */
module CommitReports {
  import opened Int64
  import opened Outcomes
  import opened Contributions
  import opened TrafficQuery
  import opened QueryTheorems
  import opened TrafficTables
  import opened StoreQueries
  import opened Commits

  lemma {:induction false} SampleRowsAppended(samples: seq<Sample>, x: Sample, o: Owner)
    ensures SampleRows(samples + [x], o) == SampleRows(samples, o) + if x.owner == o then [SampleRow(x)] else []
  {
    if samples != [] {
      SampleRowsAppended(samples[1..], x, o);
      assert (samples + [x])[1..] == samples[1..] + [x];
    }
  }

  lemma {:induction false} SharesAppended(m: Metric, rows: seq<Contribution>, c: Contribution, a: i64, b: i64)
    ensures SumShares(m, rows + [c], a, b) == SumShares(m, rows, a, b) + Share(m, c, a, b)
  {
    if rows != [] {
      SharesAppended(m, rows[1..], c, a, b);
      assert (rows + [c])[1..] == rows[1..] + [c];
    }
  }

  lemma {:induction false} GapsAppended(gaps: seq<Gap>, g: Gap, q: Query)
    ensures CountGaps(gaps + [g], q) == CountGaps(gaps, q) + if GapSelected(g, q) then 1 else 0
  {
    if gaps != [] {
      GapsAppended(gaps[1..], g, q);
      assert (gaps + [g])[1..] == gaps[1..] + [g];
    }
  }

  lemma TotalsAreShares(t: Tables, q: Query, budget: nat, m: Metric)
    requires q.to - q.from < I64_MAX && budget < I64_MAX && QueryStore(t, q, budget).Ok?
    ensures Amount(m, QueryStore(t, q, budget).value.totals)
         == SumShares(m, SampleRows(t.samples, OwnerIn(q)), q.from, q.to)
           + SumShares(m, RollupRows(t.rollups, OwnerIn(q)), q.from, q.to)
  {
    var o := OwnerIn(q);
    ReportAccountsForRows(q, budget, SampleRows(t.samples, o), RollupRows(t.rollups, o), CountGaps(t.gaps, q), m);
  }

  lemma SampleSharesAppended(m: Metric, samples: seq<Sample>, x: Sample, o: Owner, a: i64, b: i64)
    ensures SumShares(m, SampleRows(samples + [x], o), a, b)
         == SumShares(m, SampleRows(samples, o), a, b) + if x.owner == o then Share(m, SampleRow(x), a, b) else 0
  {
    SampleRowsAppended(samples, x, o);
    SharesAppended(m, SampleRows(samples, o), SampleRow(x), a, b);
    assert SampleRows(samples, o) + [] == SampleRows(samples, o);
  }

  /**
   * A sample that was committed adds exactly its share of the range to the totals of every query
   * on its interface, bytes and time, exact or estimated as it came, and to no other query.
   */
  lemma CommitIsReported(t: Tables, s: SampleInput, c: CheckpointInput, q: Query, budget: nat, m: Metric)
    requires CommitSample(t, s, c).Ok? && CommitSample(t, s, c).value.1
    requires q.to - q.from < I64_MAX && budget < I64_MAX
    requires QueryStore(t, q, budget).Ok? && QueryStore(CommitSample(t, s, c).value.0, q, budget).Ok?
    ensures Amount(m, QueryStore(CommitSample(t, s, c).value.0, q, budget).value.totals)
         == Amount(m, QueryStore(t, q, budget).value.totals)
            + if s.owner == OwnerIn(q) then Share(m, SampleRow(NewSample(t.nextSample, s)), q.from, q.to) else 0
  {
    CommitAppends(t, s, c);
    var t' := CommitSample(t, s, c).value.0;
    TotalsAreShares(t, q, budget, m);
    TotalsAreShares(t', q, budget, m);
    SampleSharesAppended(m, t.samples, NewSample(t.nextSample, s), OwnerIn(q), q.from, q.to);
  }

  lemma GapAppends(t: Tables, g: GapInput, c: CheckpointInput)
    requires CommitGap(t, g, c).Ok? && CommitGap(t, g, c).value.1
    ensures g.router == c.owner.router && g.iface == Some(c.owner.iface)
    ensures var t' := CommitGap(t, g, c).value.0;
      && t'.gaps == t.gaps + [Gap(t.nextGap, g.router, g.iface, g.start, g.end, g.reason, g.details)]
      && t'.samples == t.samples && t'.rollups == t.rollups && t'.routers == t.routers && t'.interfaces == t.interfaces
  {
  }

  /**
   * A committed gap is counted once by every query it overlaps on its router and interface, and
   * changes nothing else.
   */
  lemma GapIsReported(t: Tables, g: GapInput, c: CheckpointInput, q: Query, budget: nat)
    requires CommitGap(t, g, c).Ok? && CommitGap(t, g, c).value.1
    ensures var before, after := QueryStore(t, q, budget), QueryStore(CommitGap(t, g, c).value.0, q, budget);
      var counted := OwnerIn(q) == c.owner && g.end > q.from && g.start < q.to;
      if before.Err? then after == before
      else after == Ok(before.value.(gapCount := before.value.gapCount + if counted then 1 else 0))
  {
    GapAppends(t, g, c);
    var x := Gap(t.nextGap, g.router, g.iface, g.start, g.end, g.reason, g.details);
    OneMoreGap(t, CommitGap(t, g, c).value.0, x, q, budget);
  }

  lemma OneMoreGap(t: Tables, t': Tables, x: Gap, q: Query, budget: nat)
    requires t'.routers == t.routers && t'.interfaces == t.interfaces
      && t'.samples == t.samples && t'.rollups == t.rollups && t'.gaps == t.gaps + [x]
    ensures QueryStore(t', q, budget) ==
      if QueryStore(t, q, budget).Err? then QueryStore(t, q, budget)
      else Ok(QueryStore(t, q, budget).value.(
        gapCount := QueryStore(t, q, budget).value.gapCount + if GapSelected(x, q) then 1 else 0))
  {
    GapsAppended(t.gaps, x, q);
    OnlyGapsDiffer(t, t', q, budget);
  }

  /** Tables that differ in gaps and checkpoints only answer alike, but for the number of gaps. */
  lemma OnlyGapsDiffer(t: Tables, t': Tables, q: Query, budget: nat)
    requires t'.routers == t.routers && t'.interfaces == t.interfaces
      && t'.samples == t.samples && t'.rollups == t.rollups
    ensures QueryStore(t', q, budget) ==
      if QueryStore(t, q, budget).Err? then QueryStore(t, q, budget)
      else Ok(QueryStore(t, q, budget).value.(gapCount := CountGaps(t'.gaps, q)))
    ensures QueryStore(t, q, budget).Ok? ==> QueryStore(t, q, budget).value.gapCount == CountGaps(t.gaps, q)
  {
    GapCountOnlyReported(q, budget, SampleRows(t.samples, OwnerIn(q)), RollupRows(t.rollups, OwnerIn(q)),
                         CountGaps(t.gaps, q), CountGaps(t'.gaps, q));
  }

  lemma GapCountOnlyReported(q: Query, budget: nat, samples: seq<Contribution>, rollups: seq<Contribution>, n: nat,
      k: nat)
    ensures RunQuery(q, budget, samples, rollups, k) ==
      if RunQuery(q, budget, samples, rollups, n).Err? then RunQuery(q, budget, samples, rollups, n)
      else Ok(RunQuery(q, budget, samples, rollups, n).value.(gapCount := k))
  {
  }
}
