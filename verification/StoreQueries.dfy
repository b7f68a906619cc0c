/** Queries on the store: which ones are answered, and what a rollup batch may change in them. */
module StoreQueries {
  import opened Int64
  import opened Outcomes
  import opened Contributions
  import opened RowStreams
  import opened TrafficQuery
  import opened QueryTheorems
  import opened TrafficTables
  import opened RollupBatch
  import opened RollupConservation
  import opened RollupTheorems
  import opened StoreInvariant
  import opened RollupGuarantees
  import opened RollupRefinement

  predicate GapSelected(g: Gap, q: Query) {
    && g.router == q.router && (g.iface.None? || g.iface.value == q.iface)
    && g.end > q.from && g.start < q.to
  }

  function CountGaps(gaps: seq<Gap>, q: Query): nat {
    if gaps == [] then 0 else (if GapSelected(gaps[0], q) then 1 else 0) + CountGaps(gaps[1..], q)
  }

  /** Where a list holds gaps of the whole router or of this interface of it that overlap the range. */
  function OverlappingGaps(gaps: seq<Gap>, q: Query, first: nat): set<nat> {
    set i: nat | first <= i < |gaps|
      && gaps[i].router == q.router && (gaps[i].iface.None? || gaps[i].iface == Some(q.iface))
      && q.from < gaps[i].end && gaps[i].start < q.to
  }

  /** Every overlapping gap counts once. */
  lemma {:induction false} GapsCounted(gaps: seq<Gap>, q: Query, first: nat)
    requires first <= |gaps|
    ensures CountGaps(gaps[first..], q) == |OverlappingGaps(gaps, q, first)|
    decreases |gaps| - first
  {
    if first < |gaps| {
      GapsCounted(gaps, q, first + 1);
      var later := OverlappingGaps(gaps, q, first + 1);
      assert gaps[first..][1..] == gaps[first + 1..];
      assert OverlappingGaps(gaps, q, first) == if GapSelected(gaps[first], q) then {first} + later else later;
    }
  }

  function OwnerIn(q: Query): Owner { Owner(q.router, q.iface) }

  /** A query against one snapshot of the tables. */
  function QueryStore(t: Tables, q: Query, budget: nat): Result<Report> {
    if !QueryValid(q, budget) || !KnownInterface(t, OwnerIn(q)) then Err(InvalidCommand)
    else
      RunQuery(q, budget, SampleRows(t.samples, OwnerIn(q)), RollupRows(t.rollups, OwnerIn(q)), CountGaps(t.gaps, q))
  }

  // ----- the rows of a sound store are disjoint

  lemma {:induction false} SampleRowsFrom(samples: seq<Sample>, o: Owner, c: Contribution)
    ensures c in SampleRows(samples, o) <==> exists s :: s in samples && s.owner == o && SampleRow(s) == c
  {
    if samples != [] {
      SampleRowsFrom(samples[1..], o, c);
      assert forall s :: s in samples <==> s == samples[0] || s in samples[1..];
    }
  }

  lemma {:induction false} RollupRowsFrom(rollups: seq<Rollup>, o: Owner, c: Contribution)
    ensures c in RollupRows(rollups, o) <==> exists r :: r in rollups && r.owner == o && RollupRow(r) == c
  {
    if rollups != [] {
      RollupRowsFrom(rollups[1..], o, c);
      assert forall r :: r in rollups <==> r == rollups[0] || r in rollups[1..];
    }
  }

  lemma DisjointUnion(a: multiset<Contribution>, b: multiset<Contribution>)
    requires DisjointBag(a) && DisjointBag(b)
    requires forall c, d :: c in a && d in b ==> c.start < c.end && Apart(c, d)
    ensures DisjointBag(a + b)
  {
    forall c | c in a + b ensures (a + b)[c] == 1 {
      assert !(c in a && c in b);
    }
  }

  lemma {:induction false} SampleRowsDisjoint(samples: seq<Sample>, o: Owner)
    requires SamplesSound(samples)
    ensures DisjointBag(multiset(SampleRows(samples, o)))
  {
    if samples != [] {
      var s, rest := samples[0], samples[1..];
      assert s in samples && SampleSound(s);
      assert forall x :: x in rest ==> x in samples && x.id != s.id;
      SampleRowsDisjoint(rest, o);
      if s.owner == o {
        var c := SampleRow(s);
        forall d | d in multiset(SampleRows(rest, o)) ensures Apart(c, d) {
          SampleRowsFrom(rest, o, d);
          var x :| x in rest && x.owner == o && SampleRow(x) == d;
          assert IntervalsApart(s.start, s.end, x.start, x.end);
        }
        DisjointUnion(multiset{c}, multiset(SampleRows(rest, o)));
        assert multiset(SampleRows(samples, o)) == multiset{c} + multiset(SampleRows(rest, o));
      }
    }
  }

  lemma {:induction false} RollupRowsDisjoint(rollups: seq<Rollup>, o: Owner, size: i64)
    requires size > 0 && RollupsSound(rollups, size)
    ensures DisjointBag(multiset(RollupRows(rollups, o)))
  {
    if rollups != [] {
      var r, rest := rollups[0], rollups[1..];
      assert r in rollups && RollupSound(r, size);
      assert forall x :: x in rest ==> x in rollups;
      assert forall i :: 0 <= i < |rest| ==> rest[i] == rollups[i + 1];
      RollupRowsDisjoint(rest, o, size);
      if r.owner == o {
        var c := RollupRow(r);
        forall d | d in multiset(RollupRows(rest, o)) ensures Apart(c, d) {
          RollupRowsFrom(rest, o, d);
          var x :| x in rest && x.owner == o && RollupRow(x) == d;
          var i :| 0 <= i < |rest| && rest[i] == x;
          assert IntervalsApart(rollups[0].start, rollups[0].end, rollups[i + 1].start, rollups[i + 1].end);
        }
        DisjointUnion(multiset{c}, multiset(RollupRows(rest, o)));
        assert multiset(RollupRows(rollups, o)) == multiset{c} + multiset(RollupRows(rest, o));
      }
    }
  }

  lemma SampleRowOk(s: Sample)
    requires SampleSound(s)
    ensures RowValid(SampleRow(s)) && Fits(SampleRow(s))
  {
  }

  lemma SampleClearIsApart(s: Sample, r: Rollup, size: i64)
    requires size > 0 && SampleSound(s) && SampleClearOf(s, r, size)
    ensures Apart(SampleRow(s), RollupRow(r))
  {
    AlignDownBounds(s.start, size);
    AlignDownBounds(s.end - 1, size);
  }

  /** All rows of an interface of a sound store are valid, representable and pairwise disjoint. */
  lemma SoundRowsDisjoint(t: Tables, o: Owner, size: i64)
    requires StoreSound(t, size)
    ensures DisjointBag(multiset(SampleRows(t.samples, o)) + multiset(RollupRows(t.rollups, o)))
    ensures forall c :: c in SampleRows(t.samples, o) || c in RollupRows(t.rollups, o) ==> Fits(c) && RowValid(c)
  {
    var a, b := multiset(SampleRows(t.samples, o)), multiset(RollupRows(t.rollups, o));
    SampleRowsDisjoint(t.samples, o);
    RollupRowsDisjoint(t.rollups, o, size);
    forall c | c in a ensures Fits(c) && RowValid(c) {
      SampleRowsFrom(t.samples, o, c);
      var s :| s in t.samples && s.owner == o && SampleRow(s) == c;
      assert SampleSound(s);
      SampleRowOk(s);
    }
    forall d | d in b ensures Fits(d) && RowValid(d) {
      RollupRowsFrom(t.rollups, o, d);
      var r :| r in t.rollups && r.owner == o && RollupRow(r) == d;
      assert RollupSound(r, size);
    }
    forall c, d | c in a && d in b ensures c.start < c.end && Apart(c, d) {
      SampleRowsFrom(t.samples, o, c);
      RollupRowsFrom(t.rollups, o, d);
      var s :| s in t.samples && s.owner == o && SampleRow(s) == c;
      var r :| r in t.rollups && r.owner == o && RollupRow(r) == d;
      assert SampleSound(s) && SampleClearOf(s, r, size);
      SampleClearIsApart(s, r, size);
    }
    DisjointUnion(a, b);
  }

  lemma {:induction false} SelectionIsPart(rows: seq<Contribution>, from: i64, to: i64)
    ensures multiset(Select(rows, from, to)) <= multiset(rows)
  {
    if rows != [] {
      SelectionIsPart(rows[1..], from, to);
      assert rows == [rows[0]] + rows[1..];
    }
  }

  /** Number of rows a query would read. */
  function RowCount(t: Tables, q: Query): nat {
    |Select(SampleRows(t.samples, OwnerIn(q)), q.from, q.to)|
      + |Select(RollupRows(t.rollups, OwnerIn(q)), q.from, q.to)|
  }

  /**
   * A sound store answers every valid query on a known interface that stays within the row
   * budget, and refuses the others as too large. No verification error is possible.
   */
  lemma SoundStoreAnswers(t: Tables, size: i64, q: Query, budget: nat)
    requires StoreSound(t, size) && KnownInterface(t, OwnerIn(q))
    requires QueryValid(q, budget) && Unsaturated(q) && budget < I64_MAX
    ensures if RowCount(t, q) <= budget then QueryStore(t, q, budget).Ok? else QueryStore(t, q, budget) == Err(TooLarge)
  {
    var samples, rollups := SampleRows(t.samples, OwnerIn(q)), RollupRows(t.rollups, OwnerIn(q));
    SoundRowsDisjoint(t, OwnerIn(q), size);
    SelectionIsPart(samples, q.from, q.to);
    SelectionIsPart(rollups, q.from, q.to);
    SubBagDisjoint(multiset(Select(samples, q.from, q.to)) + multiset(Select(rollups, q.from, q.to)),
                   multiset(samples) + multiset(rollups));
    QueryAcceptsExactly(q, budget, samples, rollups, CountGaps(t.gaps, q));
    if RowCount(t, q) > budget {
      var ss, rs := Select(samples, q.from, q.to), Select(rollups, q.from, q.to);
      assert LongestRow(ss) <= I64_MAX;
    }
  }

  // ----- a rollup batch, seen through queries

  lemma TotalsAreHeld(t: Tables, size: i64, q: Query, budget: nat, m: Metric)
    requires StoreSound(t, size) && QueryStore(t, q, budget).Ok? && q.to - q.from < I64_MAX && budget < I64_MAX
    requires RangeCutsNothing(t, OwnerIn(q), q.from, q.to)
    ensures Amount(m, QueryStore(t, q, budget).value.totals) == Held(m, InsideFilter(OwnerIn(q), q.from, q.to), t)
  {
    var o := OwnerIn(q);
    ReportAccountsForRows(q, budget, SampleRows(t.samples, o), RollupRows(t.rollups, o), CountGaps(t.gaps, q), m);
    forall s | s in t.samples ensures RawValid(s) { assert SampleSound(s); }
    forall r | r in t.rollups ensures RowValid(RollupRow(r)) { assert RollupSound(r, size); }
    SampleSharesAreHeld(t.samples, o, q.from, q.to, m);
    RollupSharesAreHeld(t.rollups, o, q.from, q.to, m);
  }

  /**
   * Refinement: after a batch every query over a range that cuts no row reports the same bytes
   * and covered time as before, with exact amounts at most as large.
   */
  lemma RollupRefinesQueries(t: Tables, cutoff: i64, size: i64, batchSize: nat, q: Query, budget: nat, m: Metric)
    requires StoreSound(t, size) && BatchParametersValid(size, batchSize)
    requires RollupTables(t, cutoff, size, batchSize).Ok?
    requires q.to - q.from < I64_MAX && budget < I64_MAX
    requires RangeCutsNothing(t, OwnerIn(q), q.from, q.to)
    requires RangeCutsNothing(RollupTables(t, cutoff, size, batchSize).value.0, OwnerIn(q), q.from, q.to)
    requires QueryStore(t, q, budget).Ok? && QueryStore(RollupTables(t, cutoff, size, batchSize).value.0, q, budget).Ok?
    ensures Moves(m, Amount(m, QueryStore(RollupTables(t, cutoff, size, batchSize).value.0, q, budget).value.totals),
                  Amount(m, QueryStore(t, q, budget).value.totals))
  {
    var t' := RollupTables(t, cutoff, size, batchSize).value.0;
    RollupStaysSound(t, cutoff, size, batchSize);
    TotalsAreHeld(t, size, q, budget, m);
    TotalsAreHeld(t', size, q, budget, m);
    forall s | s in t.samples ensures s.start < s.end { assert SampleSound(s); }
    forall r | r in t.rollups ensures r.start < r.end { assert RollupSound(r, size); }
    RollupRefinesRange(t, cutoff, size, batchSize, OwnerIn(q), q.from, q.to, m);
  }
}
