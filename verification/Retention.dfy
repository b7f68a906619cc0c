/** The retention job: bounded deletion of the oldest history. */
module Retention {
  import opened Int64
  import opened Outcomes
  import opened Contributions
  import opened RowStreams
  import opened TrafficQuery
  import opened TrafficTables
  import opened RollupTheorems
  import opened StoreInvariant
  import opened StoreQueries
  import SortKeys

  /** Id and end of a row, all that the selection looks at. */
  datatype Expiry = Expiry(id: nat, end: i64)

  function EndingBy(rows: seq<Expiry>, before: i64): seq<Expiry> {
    if rows == [] then []
    else (if rows[0].end <= before then [rows[0]] else []) + EndingBy(rows[1..], before)
  }

  function ExpiryKey(x: Expiry): SortKeys.SortKey {
    SortKeys.SortKey(x.end, x.id, "")
  }

  /** Rows that end by the boundary, ordered by end and then by id. */
  function Expired(rows: seq<Expiry>, before: i64): seq<Expiry> {
    SortKeys.SortByKey(EndingBy(rows, before), ExpiryKey)
  }

  function ChosenIds(rows: seq<Expiry>, before: i64, limit: nat): set<nat> {
    var all := Expired(rows, before);
    var chosen := if |all| <= limit then all else all[..limit];
    set x | x in chosen :: x.id
  }

  function SampleExpiries(samples: seq<Sample>): seq<Expiry> {
    if samples == [] then [] else [Expiry(samples[0].id, samples[0].end)] + SampleExpiries(samples[1..])
  }

  function RollupExpiries(rollups: seq<Rollup>): seq<Expiry> {
    if rollups == [] then [] else [Expiry(rollups[0].id, rollups[0].end)] + RollupExpiries(rollups[1..])
  }

  function GapExpiries(gaps: seq<Gap>): seq<Expiry> {
    if gaps == [] then [] else [Expiry(gaps[0].id, gaps[0].end)] + GapExpiries(gaps[1..])
  }

  function KeepSamples(samples: seq<Sample>, gone: set<nat>): seq<Sample> {
    if samples == [] then []
    else if samples[0].id in gone then KeepSamples(samples[1..], gone)
    else [samples[0]] + KeepSamples(samples[1..], gone)
  }

  function KeepRollups(rollups: seq<Rollup>, gone: set<nat>): seq<Rollup> {
    if rollups == [] then []
    else if rollups[0].id in gone then KeepRollups(rollups[1..], gone)
    else [rollups[0]] + KeepRollups(rollups[1..], gone)
  }

  function KeepGaps(gaps: seq<Gap>, gone: set<nat>): seq<Gap> {
    if gaps == [] then []
    else if gaps[0].id in gone then KeepGaps(gaps[1..], gone)
    else [gaps[0]] + KeepGaps(gaps[1..], gone)
  }

  /** The rows a batch would delete, one id set per table. */
  datatype Doomed = Doomed(samples: set<nat>, rollups: set<nat>, gaps: set<nat>)

  function ChooseDoomed(t: Tables, before: i64, limit: nat): Doomed {
    Doomed(ChosenIds(SampleExpiries(t.samples), before, limit),
           ChosenIds(RollupExpiries(t.rollups), before, limit),
           ChosenIds(GapExpiries(t.gaps), before, limit))
  }

  function Without(t: Tables, d: Doomed): Tables {
    t.(samples := KeepSamples(t.samples, d.samples), rollups := KeepRollups(t.rollups, d.rollups),
      gaps := KeepGaps(t.gaps, d.gaps))
  }

  /** New tables and number of deleted rows. Checkpoints stay. */
  function PruneTables(t: Tables, before: i64, batchSize: nat): Result<(Tables, int)> {
    if batchSize > I64_MAX || batchSize == 0 then Err(InvalidCommand)
    else
      var t' := Without(t, ChooseDoomed(t, before, batchSize));
      Ok((t', |t.samples| - |t'.samples| + |t.rollups| - |t'.rollups| + |t.gaps| - |t'.gaps|))
  }

  // ----- only expired rows go

  lemma {:induction false} EndingByMeaning(rows: seq<Expiry>, before: i64, y: Expiry)
    ensures y in EndingBy(rows, before) <==> y in rows && y.end <= before
  {
    if rows != [] {
      assert rows == [rows[0]] + rows[1..];
      EndingByMeaning(rows[1..], before, y);
    }
  }

  lemma ExpiredMeaning(rows: seq<Expiry>, before: i64)
    ensures forall y :: y in Expired(rows, before) <==> y in rows && y.end <= before
  {
    forall y ensures y in Expired(rows, before) <==> y in rows && y.end <= before {
      EndingByMeaning(rows, before, y);
      SortKeys.SortHas(EndingBy(rows, before), ExpiryKey, y);
    }
  }

  lemma SameIdSameRow(rows: seq<Expiry>, x: Expiry, y: Expiry)
    requires forall i, j :: 0 <= i < j < |rows| ==> rows[i].id != rows[j].id
    requires x in rows && y in rows && x.id == y.id
    ensures x == y
  {
    var i :| 0 <= i < |rows| && rows[i] == x;
    var j :| 0 <= j < |rows| && rows[j] == y;
  }

  lemma FrontIsOldest(all: seq<Expiry>, n: nat, x: Expiry, y: Expiry)
    requires n <= |all| && SortKeys.Sorted(all, ExpiryKey)
    requires x in all[..n] && y in all && y !in all[..n]
    ensures x.end <= y.end
  {
    var i :| 0 <= i < n && all[..n][i] == x;
    assert all == all[..n] + all[n..];
    var j :| 0 <= j < |all[n..]| && all[n..][j] == y;
    assert SortKeys.Leq(ExpiryKey(all[i]), ExpiryKey(all[n + j]));
  }

  /** An expired row that is not chosen ends no earlier than any chosen one. */
  lemma ChosenAreOldest(rows: seq<Expiry>, before: i64, limit: nat, x: Expiry, y: Expiry)
    requires forall i, j :: 0 <= i < j < |rows| ==> rows[i].id != rows[j].id
    requires x in rows && x.id in ChosenIds(rows, before, limit)
    requires y in rows && y.end <= before && y.id !in ChosenIds(rows, before, limit)
    ensures x.end <= y.end
  {
    ExpiredMeaning(rows, before);
    var all := Expired(rows, before);
    SortKeys.SortSorts(EndingBy(rows, before), ExpiryKey);
    var n := if |all| <= limit then |all| else limit;
    var z :| z in all[..n] && z.id == x.id;
    assert z in all;
    SameIdSameRow(rows, z, x);
    FrontIsOldest(all, n, x, y);
  }

  ghost predicate UniqueRollupIds(rollups: seq<Rollup>) {
    forall i, j :: 0 <= i < j < |rollups| ==> rollups[i].id != rollups[j].id
  }

  ghost predicate UniqueGapIds(gaps: seq<Gap>) {
    forall i, j :: 0 <= i < j < |gaps| ==> gaps[i].id != gaps[j].id
  }

  /** Ids are unique within each table. */
  ghost predicate UniqueIds(t: Tables) {
    UniqueSampleIds(t.samples) && UniqueRollupIds(t.rollups) && UniqueGapIds(t.gaps)
  }

  lemma {:induction false} ExpiriesOf(t: Tables)
    ensures |SampleExpiries(t.samples)| == |t.samples| && |RollupExpiries(t.rollups)| == |t.rollups|
      && |GapExpiries(t.gaps)| == |t.gaps|
    ensures forall i :: 0 <= i < |t.samples| ==>
      SampleExpiries(t.samples)[i] == Expiry(t.samples[i].id, t.samples[i].end)
    ensures forall i :: 0 <= i < |t.rollups| ==>
      RollupExpiries(t.rollups)[i] == Expiry(t.rollups[i].id, t.rollups[i].end)
    ensures forall i :: 0 <= i < |t.gaps| ==> GapExpiries(t.gaps)[i] == Expiry(t.gaps[i].id, t.gaps[i].end)
    decreases |t.samples| + |t.rollups| + |t.gaps|
  {
    if t.samples != [] {
      ExpiriesOf(t.(samples := t.samples[1..]));
    } else if t.rollups != [] {
      ExpiriesOf(t.(rollups := t.rollups[1..]));
    } else if t.gaps != [] {
      ExpiriesOf(t.(gaps := t.gaps[1..]));
    }
  }

  /** An id that is chosen belongs to an expired row. */
  lemma ChosenAreExpired(rows: seq<Expiry>, before: i64, limit: nat, i: nat)
    requires i < |rows| && rows[i].id in ChosenIds(rows, before, limit)
    requires forall j, k :: 0 <= j < k < |rows| ==> rows[j].id != rows[k].id
    ensures rows[i].end <= before
  {
    ExpiredMeaning(rows, before);
    var all := Expired(rows, before);
    var x :| x in all && x.id == rows[i].id;
    var j :| 0 <= j < |rows| && rows[j] == x;
  }

  /** Every deleted row ends by the boundary. */
  lemma DoomedAreExpired(t: Tables, before: i64, limit: nat)
    requires UniqueIds(t)
    ensures var d := ChooseDoomed(t, before, limit);
      && (forall s :: s in t.samples && s.id in d.samples ==> s.end <= before)
      && (forall r :: r in t.rollups && r.id in d.rollups ==> r.end <= before)
      && forall g :: g in t.gaps && g.id in d.gaps ==> g.end <= before
  {
    ExpiriesOf(t);
    var d := ChooseDoomed(t, before, limit);
    forall s | s in t.samples && s.id in d.samples ensures s.end <= before {
      var i :| 0 <= i < |t.samples| && t.samples[i] == s;
      ChosenAreExpired(SampleExpiries(t.samples), before, limit, i);
    }
    forall r | r in t.rollups && r.id in d.rollups ensures r.end <= before {
      var i :| 0 <= i < |t.rollups| && t.rollups[i] == r;
      ChosenAreExpired(RollupExpiries(t.rollups), before, limit, i);
    }
    forall g | g in t.gaps && g.id in d.gaps ensures g.end <= before {
      var i :| 0 <= i < |t.gaps| && t.gaps[i] == g;
      ChosenAreExpired(GapExpiries(t.gaps), before, limit, i);
    }
  }

  // ----- queries after the boundary

  lemma {:induction false} SelectKeptSamples(samples: seq<Sample>, gone: set<nat>, o: Owner, from: i64, to: i64)
    requires forall s :: s in samples && s.id in gone ==> s.end <= from
    ensures Select(SampleRows(KeepSamples(samples, gone), o), from, to) == Select(SampleRows(samples, o), from, to)
  {
    if samples != [] {
      assert samples[0] in samples;
      SelectKeptSamples(samples[1..], gone, o, from, to);
      var s := samples[0];
      if s.owner == o {
        assert SampleRows(samples, o)[1..] == SampleRows(samples[1..], o);
      }
      if s.id !in gone {
        assert KeepSamples(samples, gone)[1..] == KeepSamples(samples[1..], gone);
        if s.owner == o {
          assert SampleRows(KeepSamples(samples, gone), o)[1..] == SampleRows(KeepSamples(samples[1..], gone), o);
        }
      }
    }
  }

  lemma {:induction false} SelectKeptRollups(rollups: seq<Rollup>, gone: set<nat>, o: Owner, from: i64, to: i64)
    requires forall r :: r in rollups && r.id in gone ==> r.end <= from
    ensures Select(RollupRows(KeepRollups(rollups, gone), o), from, to) == Select(RollupRows(rollups, o), from, to)
  {
    if rollups != [] {
      assert rollups[0] in rollups;
      SelectKeptRollups(rollups[1..], gone, o, from, to);
      var r := rollups[0];
      if r.owner == o {
        assert RollupRows(rollups, o)[1..] == RollupRows(rollups[1..], o);
      }
      if r.id !in gone {
        assert KeepRollups(rollups, gone)[1..] == KeepRollups(rollups[1..], gone);
        if r.owner == o {
          assert RollupRows(KeepRollups(rollups, gone), o)[1..] == RollupRows(KeepRollups(rollups[1..], gone), o);
        }
      }
    }
  }

  lemma {:induction false} CountKeptGaps(gaps: seq<Gap>, gone: set<nat>, q: Query)
    requires forall g :: g in gaps && g.id in gone ==> g.end <= q.from
    ensures CountGaps(KeepGaps(gaps, gone), q) == CountGaps(gaps, q)
  {
    if gaps != [] {
      assert gaps[0] in gaps;
      CountKeptGaps(gaps[1..], gone, q);
      if gaps[0].id !in gone {
        assert KeepGaps(gaps, gone)[1..] == KeepGaps(gaps[1..], gone);
      }
    }
  }

  /** Retention is invisible to every query that starts at or after its boundary: same answer or same error. */
  lemma PruneIsInvisible(t: Tables, before: i64, batchSize: nat, q: Query, budget: nat)
    requires UniqueIds(t) && PruneTables(t, before, batchSize).Ok? && q.from >= before
    ensures QueryStore(PruneTables(t, before, batchSize).value.0, q, budget) == QueryStore(t, q, budget)
  {
    var d := ChooseDoomed(t, before, batchSize);
    DoomedAreExpired(t, before, batchSize);
    SelectKeptSamples(t.samples, d.samples, OwnerIn(q), q.from, q.to);
    SelectKeptRollups(t.rollups, d.rollups, OwnerIn(q), q.from, q.to);
    CountKeptGaps(t.gaps, d.gaps, q);
  }

  // ----- what is deleted is accounted for

  function GoneSamples(samples: seq<Sample>, gone: set<nat>): seq<Sample> {
    if samples == [] then []
    else if samples[0].id in gone then [samples[0]] + GoneSamples(samples[1..], gone)
    else GoneSamples(samples[1..], gone)
  }

  function GoneRollups(rollups: seq<Rollup>, gone: set<nat>): seq<Rollup> {
    if rollups == [] then []
    else if rollups[0].id in gone then [rollups[0]] + GoneRollups(rollups[1..], gone)
    else GoneRollups(rollups[1..], gone)
  }

  /** Amount held by the rows a batch deletes. */
  function PrunedAmount(m: Metric, o: Owner, t: Tables, d: Doomed): int {
    SumSamples(m, OwnerFilter(o), GoneSamples(t.samples, d.samples))
      + SumRollups(m, OwnerFilter(o), GoneRollups(t.rollups, d.rollups))
  }

  lemma {:induction false} SamplesSplit(m: Metric, f: Filter, samples: seq<Sample>, gone: set<nat>)
    ensures SumSamples(m, f, samples)
      == SumSamples(m, f, KeepSamples(samples, gone)) + SumSamples(m, f, GoneSamples(samples, gone))
  {
    if samples != [] {
      SamplesSplit(m, f, samples[1..], gone);
      if samples[0].id in gone {
        assert GoneSamples(samples, gone)[1..] == GoneSamples(samples[1..], gone);
      } else {
        assert KeepSamples(samples, gone)[1..] == KeepSamples(samples[1..], gone);
      }
    }
  }

  lemma {:induction false} RollupsSplit(m: Metric, f: Filter, rollups: seq<Rollup>, gone: set<nat>)
    ensures SumRollups(m, f, rollups)
      == SumRollups(m, f, KeepRollups(rollups, gone)) + SumRollups(m, f, GoneRollups(rollups, gone))
  {
    if rollups != [] {
      RollupsSplit(m, f, rollups[1..], gone);
      if rollups[0].id in gone {
        assert GoneRollups(rollups, gone)[1..] == GoneRollups(rollups[1..], gone);
      } else {
        assert KeepRollups(rollups, gone)[1..] == KeepRollups(rollups[1..], gone);
      }
    }
  }

  lemma PruneKeepsLedger(t: Tables, before: i64, batchSize: nat, m: Metric, o: Owner)
    requires PruneTables(t, before, batchSize).Ok?
    ensures Ledger(m, o, PruneTables(t, before, batchSize).value.0)
      + PrunedAmount(m, o, t, ChooseDoomed(t, before, batchSize))
         == Ledger(m, o, t)
  {
    var d := ChooseDoomed(t, before, batchSize);
    SamplesSplit(m, OwnerFilter(o), t.samples, d.samples);
    RollupsSplit(m, OwnerFilter(o), t.rollups, d.rollups);
  }

  // ----- the store stays sound

  lemma {:induction false} KeptSamples(samples: seq<Sample>, gone: set<nat>)
    ensures forall s :: s in KeepSamples(samples, gone) ==> s in samples
    ensures UniqueSampleIds(samples) ==> UniqueSampleIds(KeepSamples(samples, gone))
  {
    if samples != [] {
      KeptSamples(samples[1..], gone);
      assert samples == [samples[0]] + samples[1..];
      var kept := KeepSamples(samples[1..], gone);
      if UniqueSampleIds(samples) {
        assert forall i :: 0 <= i < |kept| ==> kept[i] in samples[1..];
      }
    }
  }

  lemma {:induction false} KeptRollups(rollups: seq<Rollup>, gone: set<nat>)
    ensures forall r :: r in KeepRollups(rollups, gone) ==> r in rollups
    ensures RollupsApart(rollups) ==> RollupsApart(KeepRollups(rollups, gone))
  {
    if rollups != [] {
      KeptRollups(rollups[1..], gone);
      assert rollups == [rollups[0]] + rollups[1..];
      var kept := KeepRollups(rollups[1..], gone);
      if RollupsApart(rollups) {
        assert RollupsApart(rollups[1..]);
        forall i | 0 <= i < |kept| && kept[i].owner == rollups[0].owner
          ensures IntervalsApart(rollups[0].start, rollups[0].end, kept[i].start, kept[i].end)
        {
          assert kept[i] in rollups[1..];
          var j :| 0 <= j < |rollups[1..]| && rollups[1..][j] == kept[i];
          assert rollups[j + 1] == kept[i];
        }
      }
    }
  }

  lemma {:induction false} KeptGaps(gaps: seq<Gap>, gone: set<nat>)
    ensures forall g :: g in KeepGaps(gaps, gone) ==> g in gaps
    ensures UniqueGapIds(gaps) ==> UniqueGapIds(KeepGaps(gaps, gone))
  {
    if gaps != [] {
      KeptGaps(gaps[1..], gone);
      assert gaps == [gaps[0]] + gaps[1..];
      var kept := KeepGaps(gaps[1..], gone);
      if UniqueGapIds(gaps) {
        assert forall i :: 0 <= i < |kept| ==> kept[i] in gaps[1..];
      }
    }
  }

  lemma {:induction false} KeptRollupIds(rollups: seq<Rollup>, gone: set<nat>)
    ensures forall r :: r in KeepRollups(rollups, gone) ==> r in rollups
    ensures UniqueRollupIds(rollups) ==> UniqueRollupIds(KeepRollups(rollups, gone))
  {
    if rollups != [] {
      KeptRollupIds(rollups[1..], gone);
      assert rollups == [rollups[0]] + rollups[1..];
      var kept := KeepRollups(rollups[1..], gone);
      if UniqueRollupIds(rollups) {
        assert forall i :: 0 <= i < |kept| ==> kept[i] in rollups[1..];
      }
    }
  }

  lemma PruneStaysSound(t: Tables, before: i64, batchSize: nat, size: i64)
    requires StoreSound(t, size) && PruneTables(t, before, batchSize).Ok?
    ensures StoreSound(PruneTables(t, before, batchSize).value.0, size)
  {
    var d := ChooseDoomed(t, before, batchSize);
    KeptSamples(t.samples, d.samples);
    KeptRollups(t.rollups, d.rollups);
  }
}
