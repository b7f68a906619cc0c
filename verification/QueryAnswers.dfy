/** Which queries are answered, row by row of the tables. */
module QueryAnswers {
  import opened Int64
  import opened Outcomes
  import BTree
  import opened Contributions
  import opened RowStreams
  import opened TrafficQuery
  import opened QueryTheorems
  import opened TrafficTables
  import opened StoreQueries
  import opened QueryPoints

  /**
   * The row can be read: a proper interval, nothing negative, no more time, as far as 64 bits hold it,
   * than the row is long, and bytes only with time.
   */
  predicate Readable(c: Contribution) {
    && 0 < c.end - c.start <= I64_MAX && c.count > 0
    && 0 <= c.exactDown && 0 <= c.exactUp && 0 <= c.estDown && 0 <= c.estUp && 0 <= c.exactMs && 0 <= c.estMs
    && Min(c.exactMs + c.estMs, I64_MAX) <= c.end - c.start
    && (c.exactMs + c.estMs == 0 ==> c.exactDown == c.exactUp == c.estDown == c.estUp == 0)
  }

  /** The row overlaps the range. */
  predicate Overlaps(c: Contribution, q: Query) { q.from < c.end && c.start < q.to }

  ghost predicate RowsReadable(rows: seq<Contribution>, q: Query) {
    forall i :: 0 <= i < |rows| && Overlaps(rows[i], q) ==> Readable(rows[i])
  }

  ghost predicate RowsApart(rows: seq<Contribution>, q: Query) {
    forall i, j :: 0 <= i < j < |rows| && Overlaps(rows[i], q) && Overlaps(rows[j], q) ==>
      rows[i].end <= rows[j].start || rows[j].end <= rows[i].start
  }

  function RowsRead(rows: seq<Contribution>, q: Query): set<nat> {
    set i: nat | i < |rows| && Overlaps(rows[i], q)
  }

  // ----- the selection by positions

  lemma SelectHead(c: Contribution, rest: seq<Contribution>, from: i64, to: i64)
    ensures Select([c] + rest, from, to) == (if Selected(c, from, to) then [c] else []) + Select(rest, from, to)
  {
    assert ([c] + rest)[1..] == rest;
  }

  lemma AddInFront(front: seq<Contribution>, a: seq<Contribution>, b: seq<Contribution>, all: seq<Contribution>)
    requires all == a + b
    ensures front + all == (front + a) + b
  {
  }

  lemma {:induction false} SelectOfBoth(a: seq<Contribution>, b: seq<Contribution>, from: i64, to: i64)
    ensures Select(a + b, from, to) == Select(a, from, to) + Select(b, from, to)
  {
    if a == [] {
      assert a + b == b;
    } else {
      var c, rest := a[0], a[1..];
      SelectOfBoth(rest, b, from, to);
      assert a == [c] + rest && a + b == [c] + (rest + b);
      SelectHead(c, rest, from, to);
      SelectHead(c, rest + b, from, to);
      AddInFront(if Selected(c, from, to) then [c] else [], Select(rest, from, to), Select(b, from, to),
                 Select(rest + b, from, to));
    }
  }

  lemma {:induction false} SelectCounts(rows: seq<Contribution>, q: Query)
    ensures |Select(rows, q.from, q.to)| == |RowsRead(rows, q)|
    decreases |rows|
  {
    if rows != [] {
      var n := |rows| - 1;
      SelectCounts(rows[..n], q);
      SelectOfBoth(rows[..n], [rows[n]], q.from, q.to);
      assert rows == rows[..n] + [rows[n]];
      assert Select([rows[n]], q.from, q.to) == if Overlaps(rows[n], q) then [rows[n]] else [];
      assert RowsRead(rows, q) == RowsRead(rows[..n], q) + if Overlaps(rows[n], q) then {n} else {};
    }
  }

  lemma BagOfOneMore(rest: multiset<Contribution>, c: Contribution)
    requires c.start < c.end
    ensures DisjointBag(multiset{c} + rest) <==> DisjointBag(rest) && forall d :: d in rest ==> Apart(c, d)
  {
    var all := multiset{c} + rest;
    if DisjointBag(all) {
      forall d | d in rest ensures Apart(c, d) && rest[d] == 1 {
        assert d in all && all[d] == 1;
      }
    }
    if DisjointBag(rest) && forall d :: d in rest ==> Apart(c, d) {
      assert c !in rest;
    }
  }

  lemma {:induction false} BagByPositions(rows: seq<Contribution>, q: Query)
    requires RowsReadable(rows, q)
    ensures DisjointBag(multiset(Select(rows, q.from, q.to))) <==> RowsApart(rows, q)
  {
    if rows != [] {
      var c, rest := rows[0], rows[1..];
      assert forall i :: 0 <= i < |rest| ==> rest[i] == rows[i + 1];
      BagByPositions(rest, q);
      assert RowsApart(rows, q) <==> RowsApart(rest, q) && HeadApart(c, rest, q) by {
        HeadThenRest(rows, q);
      }
      if Overlaps(c, q) {
        assert multiset(Select(rows, q.from, q.to)) == multiset{c} + multiset(Select(rest, q.from, q.to));
        BagOfOneMore(multiset(Select(rest, q.from, q.to)), c);
        HeadApartMeans(c, rest, q);
      }
    }
  }

  ghost predicate HeadApart(c: Contribution, rest: seq<Contribution>, q: Query) {
    Overlaps(c, q) ==> forall j :: 0 <= j < |rest| && Overlaps(rest[j], q) ==> Apart(c, rest[j])
  }

  lemma HeadApartMeans(c: Contribution, rest: seq<Contribution>, q: Query)
    requires Overlaps(c, q)
    ensures HeadApart(c, rest, q) <==> forall d :: d in multiset(Select(rest, q.from, q.to)) ==> Apart(c, d)
  {
    assert forall d :: d in multiset(Select(rest, q.from, q.to)) <==> d in Select(rest, q.from, q.to);
    assert forall j :: 0 <= j < |rest| ==> rest[j] in rest;
  }

  lemma HeadThenRest(rows: seq<Contribution>, q: Query)
    requires rows != []
    ensures RowsApart(rows, q) <==> RowsApart(rows[1..], q) && HeadApart(rows[0], rows[1..], q)
  {
    var rest := rows[1..];
    assert forall i :: 0 <= i < |rest| ==> rest[i] == rows[i + 1];
    if RowsApart(rest, q) && HeadApart(rows[0], rest, q) {
      forall i, j | 0 <= i < j < |rows| && Overlaps(rows[i], q) && Overlaps(rows[j], q)
        ensures rows[i].end <= rows[j].start || rows[j].end <= rows[i].start
      {
        assert rows[j] == rest[j - 1];
        if i > 0 {
          assert rows[i] == rest[i - 1];
        }
      }
    }
  }

  lemma ReadableMeans(c: Contribution)
    ensures Readable(c) <==> Fits(c) && RowValid(c)
  {
  }

  /**
   * A query is answered exactly when, of all rows of both tables that overlap its range, there are no
   * more than the budget, each can be read, and no two overlap.
   */
  lemma QueryAnsweredExactly(q: Query, budget: nat, samples: seq<Contribution>, rollups: seq<Contribution>, gaps: nat)
    requires QueryValid(q, budget) && Unsaturated(q) && budget < I64_MAX
    ensures var rows := samples + rollups;
      RunQuery(q, budget, samples, rollups, gaps).Ok?
      <==> |RowsRead(rows, q)| <= budget && RowsReadable(rows, q) && RowsApart(rows, q)
  {
    var rows := samples + rollups;
    var ss, rs := Select(samples, q.from, q.to), Select(rollups, q.from, q.to);
    QueryAcceptsExactly(q, budget, samples, rollups, gaps);
    SelectOfBoth(samples, rollups, q.from, q.to);
    SelectCounts(rows, q);
    assert multiset(ss + rs) == multiset(ss) + multiset(rs);
    ReadableRows(samples, rollups, q);
    if RowsReadable(rows, q) {
      BagByPositions(rows, q);
    }
  }

  lemma ReadableRows(samples: seq<Contribution>, rollups: seq<Contribution>, q: Query)
    ensures RowsReadable(samples + rollups, q) <==>
      forall c :: c in Select(samples, q.from, q.to) || c in Select(rollups, q.from, q.to) ==> Fits(c) && RowValid(c)
  {
    var rows := samples + rollups;
    SelectOfBoth(samples, rollups, q.from, q.to);
    forall c ensures c in Select(samples, q.from, q.to) || c in Select(rollups, q.from, q.to)
      <==> c in rows && Overlaps(c, q)
    {
      assert c in Select(rows, q.from, q.to) <==> c in rows && Overlaps(c, q);
    }
    forall c ensures Readable(c) <==> Fits(c) && RowValid(c) {
      ReadableMeans(c);
    }
  }

  /**
   * An invalid command is a range that does not increase, a point limit outside 1 to 50000, no
   * budget, or an interface that is not registered with the router.
   */
  lemma QueryRefusedExactly(t: Tables, q: Query, budget: nat)
    requires budget < I64_MAX
    ensures QueryStore(t, q, budget) == Err(InvalidCommand) <==>
      !(q.from < q.to && 1 <= q.maxPoints <= 50_000 && budget > 0
        && q.router in t.routers && q.iface in t.interfaces && t.interfaces[q.iface] == q.router)
  {
    var samples, rollups := SampleRows(t.samples, OwnerIn(q)), RollupRows(t.rollups, OwnerIn(q));
    if QueryValid(q, budget) {
      NeverInvalid(q, budget, samples, rollups, CountGaps(t.gaps, q));
    }
  }

  lemma NeverInvalid(q: Query, budget: nat, samples: seq<Contribution>, rollups: seq<Contribution>, gaps: nat)
    requires budget < I64_MAX && QueryValid(q, budget)
    ensures RunQuery(q, budget, samples, rollups, gaps) != Err(InvalidCommand)
  {
    var ss, rs := Select(samples, q.from, q.to), Select(rollups, q.from, q.to);
    if PlanSources(ss, rs, budget).Ok? {
      var w := Window(q.router, q.iface, q.from, q.to, Max(MinimumBucketSize(q), PlanSources(ss, rs, budget).value));
      FoldNeverInvalid(FOLD_START, Merge(SortByEnd(ss), SortByEnd(rs)), w, budget);
    }
  }

  lemma StepNeverInvalid(st: FoldState, c: Contribution, w: Window, budget: nat)
    requires w.size > 0
    ensures FoldStep(st, c, w, budget) != Err(InvalidCommand)
  {
    SpreadNeverInvalid(c, w, Max(c.start, w.from), Min(c.end, w.to), st.buckets);
  }

  lemma {:induction false} FoldNeverInvalid(st: FoldState, rows: seq<Contribution>, w: Window, budget: nat)
    requires w.size > 0
    ensures FoldRows(st, rows, w, budget) != Err(InvalidCommand)
    decreases |rows|
  {
    if rows != [] {
      StepNeverInvalid(st, rows[0], w, budget);
      var next := FoldStep(st, rows[0], w, budget);
      if next.Ok? {
        FoldNeverInvalid(next.value, rows[1..], w, budget);
      }
    }
  }

  lemma {:induction false} SpreadNeverInvalid(c: Contribution, w: Window, at: i64, end: i64,
      buckets: BTree.Tree<Tally>)
    requires w.size > 0 && w.from <= at
    ensures Spread(c, w, at, end, buckets) != Err(InvalidCommand)
    decreases end - at
  {
    if at < end {
      var bucket := BucketStart(w, at);
      var segmentEnd := Min(end, Min(SatAdd(bucket, w.size), w.to));
      if segmentEnd > at {
        var slot := BTree.Slot(w.router, w.iface, bucket);
        var prior := BTree.Get(buckets, slot);
        var tally := AddSegment(if prior.Some? then prior.value else EMPTY_TALLY, c, at, segmentEnd);
        if tally.Ok? {
          SpreadNeverInvalid(c, w, segmentEnd, end, BTree.Put(buckets, slot, tally.value));
        }
      }
    }
  }

  // ----- what a point counts

  /** Samples of the interface that overlap `[a, b)`, from position `first` on. */
  function SamplesOverlapping(samples: seq<Sample>, o: Owner, a: int, b: int, first: nat): set<nat> {
    set i: nat | first <= i < |samples| && samples[i].owner == o && a < samples[i].end && samples[i].start < b
  }

  /** A stored sample counts once in every interval it overlaps. */
  lemma {:induction false} SamplesCountOnce(samples: seq<Sample>, o: Owner, a: i64, b: i64, first: nat)
    requires first <= |samples|
    ensures CountRows(SampleRows(samples[first..], o), a, b) == |SamplesOverlapping(samples, o, a, b, first)|
    decreases |samples| - first
  {
    if first < |samples| {
      var s, rest := samples[first], SampleRows(samples[first + 1..], o);
      SamplesCountOnce(samples, o, a, b, first + 1);
      assert samples[first..][1..] == samples[first + 1..];
      assert ([SampleRow(s)] + rest)[1..] == rest;
      assert SamplesOverlapping(samples, o, a, b, first)
        == (if s.owner == o && a < s.end && s.start < b then {first} else {})
           + SamplesOverlapping(samples, o, a, b, first + 1);
    }
  }

  /** A stored rollup row counts as often as the pieces it holds. */
  lemma {:induction false} RollupsCountPieces(rollups: seq<Rollup>, o: Owner, a: i64, b: i64)
    ensures CountRows(RollupRows(rollups, o), a, b) == SumOverlapping(rollups, o, a, b)
  {
    if rollups != [] {
      RollupsCountPieces(rollups[1..], o, a, b);
      var rest := RollupRows(rollups[1..], o);
      assert ([RollupRow(rollups[0])] + rest)[1..] == rest;
    }
  }

  function SumOverlapping(rollups: seq<Rollup>, o: Owner, a: int, b: int): int {
    if rollups == [] then 0
    else
      (if rollups[0].owner == o && a < rollups[0].end && rollups[0].start < b then rollups[0].count else 0)
      + SumOverlapping(rollups[1..], o, a, b)
  }
}
