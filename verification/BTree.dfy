/** Ordered map from bucket addresses to values, iterated in key order. */
module BTree {
  import opened Int64
  import opened Outcomes

  /** Address of a time bucket: router, interface, bucket start in milliseconds. */
  datatype Slot = Slot(router: int, iface: int, start: i64)

  datatype Entry<+V> = Entry(slot: Slot, value: V)

  type Tree<+V> = seq<Entry<V>>

  predicate Less(a: Slot, b: Slot) {
    || a.router < b.router
    || (a.router == b.router && a.iface < b.iface)
    || (a.router == b.router && a.iface == b.iface && a.start < b.start)
  }

  ghost predicate Sorted<V>(t: Tree<V>) {
    forall i, j :: 0 <= i < j < |t| ==> Less(t[i].slot, t[j].slot)
  }

  function Get<V>(t: Tree<V>, k: Slot): Option<V> {
    if t == [] || Less(k, t[0].slot) then None
    else if t[0].slot == k then Some(t[0].value)
    else Get(t[1..], k)
  }

  function Put<V>(t: Tree<V>, k: Slot, v: V): (r: Tree<V>)
    ensures Entry(k, v) in r
    ensures forall e :: e in r ==> e in t || e == Entry(k, v)
  {
    if t == [] || Less(k, t[0].slot) then [Entry(k, v)] + t
    else if t[0].slot == k then [Entry(k, v)] + t[1..]
    else [t[0]] + Put(t[1..], k, v)
  }

  lemma {:induction false} PutKeepsOrder<V>(t: Tree<V>, k: Slot, v: V)
    requires Sorted(t)
    ensures Sorted(Put(t, k, v))
    ensures forall e :: e in t && e.slot != k ==> e in Put(t, k, v)
    ensures forall e :: e in Put(t, k, v) && e.slot == k ==> e.value == v
  {
    if t != [] && !Less(k, t[0].slot) && t[0].slot != k {
      PutKeepsOrder(t[1..], k, v);
      var rest := Put(t[1..], k, v);
      forall e | e in rest ensures Less(t[0].slot, e.slot) {
        if e in t[1..] {
          var i :| 0 <= i < |t[1..]| && t[1..][i] == e;
          assert t[i + 1] == e;
        }
      }
    } else if t != [] && t[0].slot == k {
      assert forall i :: 1 <= i < |t| ==> Less(t[0].slot, t[i].slot);
    }
  }

  lemma {:induction false} GetFinds<V>(t: Tree<V>, k: Slot)
    ensures Get(t, k).Some? ==> Entry(k, Get(t, k).value) in t
    ensures Sorted(t) ==> forall e :: e in t && e.slot == k ==> Get(t, k) == Some(e.value)
  {
    if t != [] && !Less(k, t[0].slot) && t[0].slot != k {
      GetFinds(t[1..], k);
    }
  }

  lemma {:induction false} GetAfterPut<V>(t: Tree<V>, k: Slot, v: V, k': Slot)
    requires Sorted(t)
    ensures Get(Put(t, k, v), k') == if k' == k then Some(v) else Get(t, k')
  {
    if t != [] && !Less(k, t[0].slot) && t[0].slot != k {
      GetAfterPut(t[1..], k, v, k');
    } else if t != [] && t[0].slot == k {
      assert ([Entry(k, v)] + t[1..])[1..] == t[1..];
    } else {
      assert ([Entry(k, v)] + t)[1..] == t;
      if t != [] && Less(k', k) {
        assert Less(k', t[0].slot);
      }
    }
  }
}
