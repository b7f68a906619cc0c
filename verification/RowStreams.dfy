/** The two sorted row streams of a query, their merge, and what makes rows overlap. */
module RowStreams {
  import opened Int64
  import opened Outcomes
  import opened Contributions
  import SortKeys

  /** Order of the streams: by end, then by start. Ties keep the order of the table. */
  predicate KeyLeq(a: Contribution, b: Contribution) {
    a.end < b.end || (a.end == b.end && a.start <= b.start)
  }

  predicate Selected(c: Contribution, from: i64, to: i64) {
    c.end > from && c.start < to
  }

  function Select(rows: seq<Contribution>, from: i64, to: i64): (r: seq<Contribution>)
    ensures forall c :: c in r <==> c in rows && Selected(c, from, to)
    ensures |r| <= |rows|
  {
    if rows == [] then []
    else if Selected(rows[0], from, to) then [rows[0]] + Select(rows[1..], from, to)
    else Select(rows[1..], from, to)
  }

  function EndKey(c: Contribution): SortKeys.SortKey {
    SortKeys.SortKey(c.end, c.start, "")
  }

  function SortByEnd(rows: seq<Contribution>): seq<Contribution> {
    SortKeys.SortByKey(rows, EndKey)
  }

  /** Takes the next row of the first stream unless the second one is strictly earlier. */
  function Merge(a: seq<Contribution>, b: seq<Contribution>): seq<Contribution> {
    if a == [] then b
    else if b == [] then a
    else if KeyLeq(a[0], b[0]) then [a[0]] + Merge(a[1..], b)
    else [b[0]] + Merge(a, b[1..])
  }

  ghost predicate InOrder(rows: seq<Contribution>) {
    forall i, j :: 0 <= i < j < |rows| ==> KeyLeq(rows[i], rows[j])
  }

  lemma HeadLeads(c: Contribution, rows: seq<Contribution>)
    requires InOrder(rows) && forall x :: x in rows ==> KeyLeq(c, x)
    ensures InOrder([c] + rows)
  {
    forall i, j | 0 <= i < j < |[c] + rows| ensures KeyLeq(([c] + rows)[i], ([c] + rows)[j]) {
      assert ([c] + rows)[j] in rows;
    }
  }

  lemma SortOrders(rows: seq<Contribution>)
    ensures multiset(SortByEnd(rows)) == multiset(rows)
    ensures InOrder(SortByEnd(rows))
  {
    SortKeys.SortKeepsItems(rows, EndKey);
    SortKeys.SortSorts(rows, EndKey);
  }

  lemma {:induction false} MergeKeepsRows(a: seq<Contribution>, b: seq<Contribution>)
    ensures multiset(Merge(a, b)) == multiset(a) + multiset(b)
  {
    if a != [] && b != [] {
      if KeyLeq(a[0], b[0]) {
        MergeKeepsRows(a[1..], b);
        assert a == [a[0]] + a[1..];
      } else {
        MergeKeepsRows(a, b[1..]);
        assert b == [b[0]] + b[1..];
      }
    }
  }

  lemma HeadFirst(a: seq<Contribution>, b: seq<Contribution>, rest: seq<Contribution>, head: Contribution)
    requires multiset(rest) <= multiset(a) + multiset(b)
    requires forall x :: x in a || x in b ==> KeyLeq(head, x)
    ensures forall x :: x in rest ==> KeyLeq(head, x)
  {
    forall x | x in rest ensures KeyLeq(head, x) {
      assert x in multiset(rest);
      assert x in multiset(a) || x in multiset(b);
    }
  }

  lemma {:induction false} MergeOrders(a: seq<Contribution>, b: seq<Contribution>)
    requires InOrder(a) && InOrder(b)
    ensures InOrder(Merge(a, b))
  {
    if a != [] && b != [] {
      if KeyLeq(a[0], b[0]) {
        MergeOrders(a[1..], b);
        MergeKeepsRows(a[1..], b);
        HeadFirst(a[1..], b, Merge(a[1..], b), a[0]);
        HeadLeads(a[0], Merge(a[1..], b));
      } else {
        MergeOrders(a, b[1..]);
        MergeKeepsRows(a, b[1..]);
        HeadFirst(a, b[1..], Merge(a, b[1..]), b[0]);
        HeadLeads(b[0], Merge(a, b[1..]));
      }
    }
  }

  // ----- overlap

  predicate Apart(a: Contribution, b: Contribution) {
    a.end <= b.start || b.end <= a.start
  }

  /** Rows are pairwise disjoint, as a property of the bag of rows alone. */
  ghost predicate DisjointBag(rows: multiset<Contribution>) {
    && (forall c :: c in rows ==> rows[c] == 1)
    && forall c, d :: c in rows && d in rows && c != d ==> Apart(c, d)
  }

  /** What the fold checks: each row starts at or after the end of the row just before it. */
  predicate Chained(previousEnd: Option<i64>, rows: seq<Contribution>)
    decreases |rows|
  {
    rows == [] ||
    ((previousEnd.Some? ==> previousEnd.value <= rows[0].start) && Chained(Some(rows[0].end), rows[1..]))
  }

  ghost predicate AllValid(rows: seq<Contribution>) {
    forall c :: c in rows ==> RowValid(c)
  }

  lemma {:induction false} ChainedIsPairwise(previousEnd: Option<i64>, rows: seq<Contribution>)
    requires AllValid(rows)
    ensures Chained(previousEnd, rows) <==>
      && (forall i, j :: 0 <= i < j < |rows| ==> rows[i].end <= rows[j].start)
      && (previousEnd.Some? ==> forall i :: 0 <= i < |rows| ==> previousEnd.value <= rows[i].start)
    decreases |rows|
  {
    if rows != [] {
      var rest := rows[1..];
      assert forall i :: 0 <= i < |rest| ==> rest[i] == rows[i + 1];
      ChainedIsPairwise(Some(rows[0].end), rest);
      assert RowValid(rows[0]);
      if Chained(previousEnd, rows) {
        forall i, j | 0 <= i < j < |rows| ensures rows[i].end <= rows[j].start {
          assert rows[j] == rest[j - 1];
          if i > 0 {
            assert rows[i] == rest[i - 1];
          }
        }
      }
    }
  }

  /** An element at two positions has multiplicity above one. */
  lemma TwicePresent(rows: seq<Contribution>, i: int, j: int)
    requires 0 <= i < j < |rows| && rows[i] == rows[j]
    ensures multiset(rows)[rows[i]] > 1
  {
    assert rows == rows[..j] + rows[j..];
    assert rows[i] in rows[..j] && rows[j] in rows[j..];
  }

  /** A row of multiplicity above one sits at two positions. */
  lemma {:induction false} PositionsOf(rows: seq<Contribution>, c: Contribution) returns (i: int, j: int)
    requires multiset(rows)[c] > 1
    ensures 0 <= i < j < |rows| && rows[i] == rows[j] == c
  {
    assert rows == [rows[0]] + rows[1..];
    if rows[0] == c {
      assert c in multiset(rows[1..]);
      i := 0;
      j :| 1 <= j < |rows| && rows[j] == c;
    } else {
      i, j := PositionsOf(rows[1..], c);
      i, j := i + 1, j + 1;
    }
  }

  lemma ChainIsDisjoint(rows: seq<Contribution>)
    requires AllValid(rows)
    requires forall i, j :: 0 <= i < j < |rows| ==> rows[i].end <= rows[j].start
    ensures DisjointBag(multiset(rows))
  {
    forall c | c in multiset(rows) ensures multiset(rows)[c] == 1 {
      assert RowValid(c);
      if multiset(rows)[c] > 1 {
        var i, j := PositionsOf(rows, c);
        assert false;
      }
    }
    forall c, d | c in multiset(rows) && d in multiset(rows) && c != d ensures Apart(c, d) {
      var i :| 0 <= i < |rows| && rows[i] == c;
      var j :| 0 <= j < |rows| && rows[j] == d;
    }
  }

  /**
   * Comparing each row of an ordered list with its predecessor only detects every overlap:
   * the list is accepted exactly when its bag of rows is pairwise disjoint.
   */
  lemma AdjacentCheckIsComplete(rows: seq<Contribution>)
    requires AllValid(rows) && InOrder(rows)
    ensures Chained(None, rows) <==> DisjointBag(multiset(rows))
  {
    ChainedIsPairwise(None, rows);
    if Chained(None, rows) {
      ChainIsDisjoint(rows);
    }
    if DisjointBag(multiset(rows)) {
      forall i, j | 0 <= i < j < |rows| ensures rows[i].end <= rows[j].start {
        assert rows[i] in multiset(rows) && rows[j] in multiset(rows);
        if rows[i] == rows[j] {
          TwicePresent(rows, i, j);
        }
        assert RowValid(rows[i]) && KeyLeq(rows[i], rows[j]);
      }
    }
  }
}
