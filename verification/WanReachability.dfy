/** When the status text of a route says that its gateway is reachable. */
module WanReachability {
  import opened TextForms
  import opened WanResolution

  /** `[a, b)` is a word of the text: letters only, and no letter on either side. */
  ghost predicate WordAt(s: string, a: nat, b: nat) {
    && a <= b <= |s| && (forall i :: a <= i < b ==> IsLetter(s[i]))
    && (a > 0 ==> !IsLetter(s[a - 1])) && (b < |s| ==> !IsLetter(s[b]))
  }

  /** "reachable" without regard to case. */
  predicate SaysReachable(w: string) {
    Lower(w) == "reachable"
  }

  /** The scan after `a` letters of a word were read up to `k`. */
  lemma {:induction false} ScanMeaning(s: string, a: nat, k: nat)
    requires a <= k <= |s| && (forall i :: a <= i < k ==> IsLetter(s[i])) && (a > 0 ==> !IsLetter(s[a - 1]))
    ensures SomeWordReachable(s[a..k], s[k..])
      <==> exists i: nat, j: nat :: a <= i && WordAt(s, i, j) && SaysReachable(s[i..j])
    decreases |s| - k
  {
    if k == |s| {
      EveryWordFrom(s, a, k);
    } else if IsLetter(s[k]) {
      assert s[a..k] + [s[k]] == s[a..k + 1] && s[k..][1..] == s[k + 1..];
      ScanMeaning(s, a, k + 1);
    } else {
      assert s[k..][1..] == s[k + 1..] && s[k + 1..k + 1] == "";
      ScanMeaning(s, k + 1, k + 1);
      EveryWordFrom(s, a, k);
    }
  }

  /** A word that starts at `a` or later is the one that ends at `k`, or starts after it. */
  lemma EveryWordFrom(s: string, a: nat, k: nat)
    requires a <= k <= |s| && (forall i :: a <= i < k ==> IsLetter(s[i])) && (a > 0 ==> !IsLetter(s[a - 1]))
    requires k < |s| ==> !IsLetter(s[k])
    ensures WordAt(s, a, k)
    ensures forall i: nat, j: nat :: a <= i && WordAt(s, i, j) ==> (i == a && j == k) || i > k || i == j
  {
  }

  /** The text says so exactly when one of its words, letters without a letter on either side, reads "reachable". */
  lemma ReachableExactly(r: Route)
    ensures IsReachable(r) <==>
      exists i: nat, j: nat :: WordAt(r.gatewayStatus, i, j) && SaysReachable(r.gatewayStatus[i..j])
  {
    var s := r.gatewayStatus;
    assert s[0..0] == "" && s[0..] == s;
    ScanMeaning(s, 0, 0);
    assert IsReachable(r) == SomeWordReachable(s[0..0], s[0..]);
  }

  /** "unreachable" is no such word: a status of that one word does not count, in any case. */
  lemma UnreachableIsNot(r: Route)
    requires Lower(r.gatewayStatus) == "unreachable"
    ensures !IsReachable(r)
  {
    var s := r.gatewayStatus;
    ReachableExactly(r);
    assert |s| == |Lower(s)| == 11;
    forall i | 0 <= i < |s| ensures IsLetter(s[i]) {
      assert 'a' <= "unreachable"[i] <= 'z' && LowerChar(s[i]) == Lower(s)[i];
    }
    forall i: nat, j: nat | WordAt(s, i, j) ensures !SaysReachable(s[i..j]) {
      assert i == 0 && j == |s|;
      assert |Lower(s[i..j])| == 11;
    }
  }
}
