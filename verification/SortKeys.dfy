/** Stable sorting by a key of two numbers and a text, compared in that order, text by code point. */
module SortKeys {
  datatype SortKey = SortKey(first: int, second: int, text: string)

  predicate TextLeq(a: string, b: string) {
    a == "" || (b != "" && (a[0] < b[0] || (a[0] == b[0] && TextLeq(a[1..], b[1..]))))
  }

  predicate Leq(a: SortKey, b: SortKey) {
    a.first < b.first || (a.first == b.first
      && (a.second < b.second || (a.second == b.second && TextLeq(a.text, b.text))))
  }

  predicate Less(a: SortKey, b: SortKey) {
    !Leq(b, a)
  }

  lemma {:induction false} TextIsTotal(a: string, b: string)
    ensures TextLeq(a, b) || TextLeq(b, a)
    ensures TextLeq(a, b) && TextLeq(b, a) ==> a == b
    decreases |a|
  {
    if a != "" && b != "" && a[0] == b[0] {
      TextIsTotal(a[1..], b[1..]);
      assert a == [a[0]] + a[1..] && b == [b[0]] + b[1..];
    }
  }

  lemma {:induction false} TextIsTransitive(a: string, b: string, c: string)
    requires TextLeq(a, b) && TextLeq(b, c)
    ensures TextLeq(a, c)
    decreases |a|
  {
    if a != "" && a[0] == b[0] == c[0] {
      TextIsTransitive(a[1..], b[1..], c[1..]);
    }
  }

  /** One text comes first: it is a prefix of the other, or smaller where they first differ. */
  predicate TextFirst(a: string, b: string, k: nat) {
    k <= |a| && k <= |b| && a[..k] == b[..k] && (k == |a| || (k < |b| && a[k] < b[k]))
  }

  lemma {:induction false} TextOrder(a: string, b: string)
    ensures TextLeq(a, b) <==> exists k: nat :: TextFirst(a, b, k)
    decreases |a|
  {
    if a == "" {
      assert TextFirst(a, b, 0);
    } else if b != "" && a[0] == b[0] {
      TextOrder(a[1..], b[1..]);
      if TextLeq(a, b) {
        var k: nat :| TextFirst(a[1..], b[1..], k);
        assert a[..k + 1] == [a[0]] + a[1..][..k] && b[..k + 1] == [b[0]] + b[1..][..k];
        assert TextFirst(a, b, k + 1);
      }
      if k: nat :| TextFirst(a, b, k) {
        assert k > 0 && a[1..][..k - 1] == a[..k][1..] && b[1..][..k - 1] == b[..k][1..];
        assert TextFirst(a[1..], b[1..], k - 1);
      }
    } else if b != "" && a[0] < b[0] {
      assert TextFirst(a, b, 0);
    } else {
      forall k: nat ensures !TextFirst(a, b, k) {
        if k > 0 && k <= |a| && k <= |b| {
          assert a[..k][0] == a[0] && b[..k][0] == b[0];
        }
      }
    }
  }

  lemma IsTotal(a: SortKey, b: SortKey)
    ensures Leq(a, b) || Leq(b, a)
    ensures Leq(a, b) && Leq(b, a) ==> a == b
  {
    TextIsTotal(a.text, b.text);
  }

  lemma IsTransitive(a: SortKey, b: SortKey, c: SortKey)
    requires Leq(a, b) && Leq(b, c)
    ensures Leq(a, c)
  {
    if a.first == b.first == c.first && a.second == b.second == c.second {
      TextIsTransitive(a.text, b.text, c.text);
    }
  }

  ghost predicate Sorted<T>(items: seq<T>, key: T -> SortKey) {
    forall i, j :: 0 <= i <= j < |items| ==> Leq(key(items[i]), key(items[j]))
  }

  /** Before every item that is not smaller: equal keys keep their input order. */
  function Insert<T>(x: T, items: seq<T>, key: T -> SortKey): seq<T> {
    if items == [] || Leq(key(x), key(items[0])) then [x] + items
    else [items[0]] + Insert(x, items[1..], key)
  }

  function SortByKey<T>(items: seq<T>, key: T -> SortKey): seq<T> {
    if items == [] then [] else Insert(items[0], SortByKey(items[1..], key), key)
  }

  /** A first item no larger than the rest keeps them sorted. */
  lemma PrependSorts<T>(x: T, rest: seq<T>, key: T -> SortKey)
    requires Sorted(rest, key) && forall y :: y in rest ==> Leq(key(x), key(y))
    ensures Sorted([x] + rest, key)
  {
    var r := [x] + rest;
    forall i, j | 0 <= i <= j < |r| ensures Leq(key(r[i]), key(r[j])) {
      if i > 0 {
        assert r[i] == rest[i - 1] && r[j] == rest[j - 1];
      } else if j > 0 {
        assert r[j] == rest[j - 1] && rest[j - 1] in rest;
      } else {
        IsTotal(key(x), key(x));
      }
    }
  }

  lemma HeadIsLeast<T>(items: seq<T>, key: T -> SortKey)
    requires items != [] && Sorted(items, key)
    ensures forall y :: y in items ==> Leq(key(items[0]), key(y))
    ensures Sorted(items[1..], key)
  {
  }

  lemma {:induction false} InsertHas<T>(x: T, items: seq<T>, key: T -> SortKey, y: T)
    ensures y in Insert(x, items, key) <==> y == x || y in items
  {
    if items != [] && !Leq(key(x), key(items[0])) {
      InsertHas(x, items[1..], key, y);
      assert items == [items[0]] + items[1..];
    }
  }

  lemma {:induction false} InsertSorts<T>(x: T, items: seq<T>, key: T -> SortKey)
    requires Sorted(items, key)
    ensures Sorted(Insert(x, items, key), key)
  {
    if items != [] {
      HeadIsLeast(items, key);
      IsTotal(key(x), key(items[0]));
      if Leq(key(x), key(items[0])) {
        forall y | y in items ensures Leq(key(x), key(y)) {
          IsTransitive(key(x), key(items[0]), key(y));
        }
        PrependSorts(x, items, key);
      } else {
        InsertSorts(x, items[1..], key);
        var tail := Insert(x, items[1..], key);
        forall y | y in tail ensures Leq(key(items[0]), key(y)) {
          InsertHas(x, items[1..], key, y);
          assert y in items[1..] ==> y in items;
        }
        PrependSorts(items[0], tail, key);
      }
    } else {
      PrependSorts(x, items, key);
    }
  }

  lemma {:induction false} SortSorts<T>(items: seq<T>, key: T -> SortKey)
    ensures Sorted(SortByKey(items, key), key)
  {
    if items != [] {
      SortSorts(items[1..], key);
      InsertSorts(items[0], SortByKey(items[1..], key), key);
    }
  }

  lemma {:induction false} SortHas<T>(items: seq<T>, key: T -> SortKey, y: T)
    ensures y in SortByKey(items, key) <==> y in items
  {
    if items != [] {
      SortHas(items[1..], key, y);
      InsertHas(items[0], SortByKey(items[1..], key), key, y);
      assert items == [items[0]] + items[1..];
    }
  }

  lemma {:induction false} InsertKeepsItems<T>(x: T, items: seq<T>, key: T -> SortKey)
    ensures multiset(Insert(x, items, key)) == multiset{x} + multiset(items)
  {
    if items != [] && !Leq(key(x), key(items[0])) {
      InsertKeepsItems(x, items[1..], key);
      assert items == [items[0]] + items[1..];
    }
  }

  lemma {:induction false} SortKeepsItems<T>(items: seq<T>, key: T -> SortKey)
    ensures multiset(SortByKey(items, key)) == multiset(items)
    ensures |SortByKey(items, key)| == |items|
  {
    if items != [] {
      SortKeepsItems(items[1..], key);
      InsertKeepsItems(items[0], SortByKey(items[1..], key), key);
      assert items == [items[0]] + items[1..];
    }
    assert |multiset(SortByKey(items, key))| == |multiset(items)|;
  }

  /** The index of the first item with the least key, among those allowed. */
  function FirstLeast<T>(items: seq<T>, allowed: T -> bool, key: T -> SortKey): (best: int)
    ensures -1 <= best < |items|
    decreases |items|
  {
    if items == [] then -1
    else
      var last := |items| - 1;
      var best := FirstLeast(items[..last], allowed, key);
      if !allowed(items[last]) then best
      else if best == -1 || Less(key(items[last]), key(items[best])) then last
      else best
  }

  lemma {:induction false} FirstLeastIsLeast<T>(items: seq<T>, allowed: T -> bool, key: T -> SortKey)
    ensures var best := FirstLeast(items, allowed, key);
      && (best == -1 <==> forall i :: 0 <= i < |items| ==> !allowed(items[i]))
      && (best >= 0 ==> allowed(items[best]) && forall i :: 0 <= i < |items| && allowed(items[i]) ==>
            Leq(key(items[best]), key(items[i])) && (i < best ==> Less(key(items[best]), key(items[i]))))
    decreases |items|
  {
    if items != [] {
      var last := |items| - 1;
      var front := items[..last];
      FirstLeastIsLeast(front, allowed, key);
      var prior := FirstLeast(front, allowed, key);
      var best := FirstLeast(items, allowed, key);
      forall i | 0 <= i < |items| && allowed(items[i])
        ensures best >= 0 && Leq(key(items[best]), key(items[i]))
          && (i < best ==> Less(key(items[best]), key(items[i])))
      {
        IsTotal(key(items[i]), key(items[i]));
        if i < last {
          assert front[i] == items[i] && prior >= 0;
          if best == last {
            LessThenLeq(key(items[last]), key(items[prior]), key(items[i]));
          }
        } else {
          IsTotal(key(items[last]), key(items[best]));
        }
      }
      if best == -1 {
        forall i | 0 <= i < |items| ensures !allowed(items[i]) {
          if i < last { assert front[i] == items[i]; }
        }
      }
    }
  }

  lemma LessThenLeq(a: SortKey, b: SortKey, c: SortKey)
    requires Less(a, b) && Leq(b, c)
    ensures Less(a, c) && Leq(a, c)
  {
    IsTotal(a, b);
    IsTransitive(a, b, c);
    if Leq(c, a) {
      IsTransitive(b, c, a);
    }
  }
}
