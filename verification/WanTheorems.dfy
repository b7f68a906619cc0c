/** The resolved WAN list meets a short description of which WANs exist, their state, and the primary. */
module WanTheorems {
  import opened Outcomes
  import opened SortKeys
  import opened WanResolution

  /** An enabled default route with a gateway, of either family. */
  ghost predicate Candidate(r: Route, routes: seq<Route>, ipv6Routes: seq<Route>) {
    (r in routes && IsDefault(r, V4_DEFAULT)) || (r in ipv6Routes && IsDefault(r, V6_DEFAULT))
  }

  /** State rank first, then distance; smaller is better. */
  function RouteScore(r: Route): SortKey {
    SortKey(StateRank(r.active, IsReachable(r)), r.distance, "")
  }

  function WanScore(w: Wan): SortKey {
    SortKey(StateRank(w.routeActive, w.routeReachable), w.distance, "")
  }

  ghost predicate SameState(w: Wan, r: Route) {
    w.routeActive == r.active && w.routeReachable == IsReachable(r) && w.distance == r.distance
  }

  // ----- what holds while routes are added

  ghost predicate Covers(w: Wan, r: Route) {
    w.name == Egress(r) && Leq(WanScore(w), RouteScore(r))
  }

  ghost predicate Covered(wans: seq<Wan>, r: Route) {
    exists w :: w in wans && Covers(w, r)
  }

  ghost predicate AllCovered(wans: seq<Wan>, done: seq<Route>) {
    forall r {:trigger Covered(wans, r)} :: r in done ==> Covered(wans, r)
  }

  ghost predicate HasState(w: Wan, done: seq<Route>) {
    exists r :: r in done && Egress(r) == w.name && SameState(w, r)
  }

  ghost predicate HasReachable(name: string, done: seq<Route>) {
    exists r :: r in done && Egress(r) == name && IsReachable(r)
  }

  /** Everything the WAN says comes from a route seen so far. */
  ghost predicate Grounded(w: Wan, done: seq<Route>, interfaces: seq<Interface>) {
    && w.iface == FindInterface(interfaces, w.name)
    && HasState(w, done)
    && (w.online ==> Runs(w.iface) && HasReachable(w.name, done))
    && (w.routeReachable && Runs(w.iface) ==> w.online)
  }

  ghost predicate AllGrounded(wans: seq<Wan>, done: seq<Route>, interfaces: seq<Interface>) {
    forall w {:trigger Grounded(w, done, interfaces)} :: w in wans ==> Grounded(w, done, interfaces)
  }

  /** Only WANs without an interface share a name, and those differ in gateway. */
  predicate Distinct(a: Wan, b: Wan) {
    && (a.name == b.name ==> a.name == "" && a.gateway != b.gateway)
    && !(a.isPrimary && b.isPrimary)
  }

  ghost predicate Apart(wans: seq<Wan>) {
    forall i, j :: 0 <= i < j < |wans| ==> Distinct(wans[i], wans[j])
  }

  ghost predicate Unmarked(wans: seq<Wan>) {
    forall w :: w in wans ==> !w.isPrimary
  }

  /** A key is recorded only for a WAN that was added. */
  ghost predicate SeenHeld(p: Progress) {
    forall key {:trigger NameHeld(p.wans, KeyName(key))} :: key in p.seen ==> NameHeld(p.wans, KeyName(key))
  }

  function KeyName(key: Key): string {
    if key.ByInterface? then key.name else ""
  }

  ghost predicate NameHeld(wans: seq<Wan>, name: string) {
    exists w :: w in wans && w.name == name
  }

  ghost predicate Sound(p: Progress, done: seq<Route>, interfaces: seq<Interface>) {
    AllCovered(p.wans, done) && AllGrounded(p.wans, done, interfaces) && Apart(p.wans) && Unmarked(p.wans)
      && SeenHeld(p)
  }

  /** While IPv4 routes are added, every WAN's key is recorded. */
  ghost predicate KeysSeen(p: Progress) {
    forall w :: w in p.wans ==> SeenKey(w.name, w.gateway) in p.seen
  }

  lemma GroundedGrows(w: Wan, done: seq<Route>, r: Route, interfaces: seq<Interface>)
    requires Grounded(w, done, interfaces)
    ensures Grounded(w, done + [r], interfaces)
  {
    var s :| s in done && Egress(s) == w.name && SameState(w, s);
    assert s in done + [r];
    if w.online {
      var t :| t in done && Egress(t) == w.name && IsReachable(t);
      assert t in done + [r];
    }
  }

  lemma NewWanIsGrounded(r: Route, gateway: string, done: seq<Route>, interfaces: seq<Interface>)
    ensures Grounded(NewWan(r, gateway, interfaces), done + [r], interfaces)
    ensures Covers(NewWan(r, gateway, interfaces), r)
  {
    assert r in done + [r];
    IsTotal(RouteScore(r), RouteScore(r));
  }

  lemma AppendKeepsCovered(wans: seq<Wan>, w: Wan, done: seq<Route>, r: Route)
    requires AllCovered(wans, done) && Covers(w, r)
    ensures AllCovered(wans + [w], done + [r])
  {
    forall s | s in done + [r] ensures Covered(wans + [w], s) {
      if s in done {
        assert Covered(wans, s);
        var v :| v in wans && Covers(v, s);
        assert v in wans + [w];
      } else {
        assert w in wans + [w] && Covers(w, s);
      }
    }
  }

  lemma AllGroundedGrows(wans: seq<Wan>, done: seq<Route>, r: Route, interfaces: seq<Interface>)
    requires AllGrounded(wans, done, interfaces)
    ensures AllGrounded(wans, done + [r], interfaces)
  {
    forall v | v in wans ensures Grounded(v, done + [r], interfaces) {
      assert Grounded(v, done, interfaces);
      GroundedGrows(v, done, r, interfaces);
    }
  }

  lemma AppendKeepsApart(wans: seq<Wan>, w: Wan)
    requires Apart(wans) && !w.isPrimary && forall v :: v in wans ==> Distinct(v, w)
    ensures Apart(wans + [w])
  {
  }

  lemma HeldGrows(wans: seq<Wan>, more: seq<Wan>, name: string)
    requires NameHeld(wans, name)
    ensures NameHeld(wans + more, name)
  {
    var v :| v in wans && v.name == name;
    assert v in wans + more;
  }

  lemma AppendKeepsHeld(p: Progress, w: Wan, key: Key)
    requires SeenHeld(p) && w.name == KeyName(key)
    ensures SeenHeld(Progress(p.seen + {key}, p.wans + [w]))
  {
    assert w in p.wans + [w];
    forall k | k in p.seen + {key} ensures NameHeld(p.wans + [w], KeyName(k)) {
      if k in p.seen {
        assert NameHeld(p.wans, KeyName(k));
        HeldGrows(p.wans, [w], KeyName(k));
      }
    }
  }

  /** A new WAN for a route whose name is free, or shared only with other bare gateways. */
  lemma AppendKeepsSound(p: Progress, r: Route, gateway: string, key: Key, done: seq<Route>, interfaces: seq<Interface>)
    requires Sound(p, done, interfaces)
    requires key == SeenKey(Egress(r), r.gateway)
    requires forall w :: w in p.wans && w.name == Egress(r) ==> w.name == "" && w.gateway != gateway
    ensures Sound(Progress(p.seen + {key}, p.wans + [NewWan(r, gateway, interfaces)]), done + [r], interfaces)
  {
    var w := NewWan(r, gateway, interfaces);
    NewWanIsGrounded(r, gateway, done, interfaces);
    AppendKeepsCovered(p.wans, w, done, r);
    AllGroundedGrows(p.wans, done, r, interfaces);
    AppendKeepsApart(p.wans, w);
    AppendKeepsHeld(p, w, key);
  }

  lemma SkipKeepsSound(p: Progress, r: Route, done: seq<Route>, interfaces: seq<Interface>)
    requires Sound(p, done, interfaces) && Covered(p.wans, r)
    ensures Sound(p, done + [r], interfaces)
  {
    AllGroundedGrows(p.wans, done, r, interfaces);
    forall s | s in done + [r] ensures Covered(p.wans, s) {
    }
  }

  lemma SeenIsCovered(p: Progress, r: Route)
    requires SeenHeld(p) && SeenKey(Egress(r), r.gateway) in p.seen
    requires forall w :: w in p.wans ==> Leq(WanScore(w), RouteScore(r))
    ensures Covered(p.wans, r)
  {
    var key := SeenKey(Egress(r), r.gateway);
    assert NameHeld(p.wans, KeyName(key));
    var w :| w in p.wans && w.name == KeyName(key);
    assert Covers(w, r);
  }

  lemma AddV4KeepsSound(p: Progress, r: Route, done: seq<Route>, interfaces: seq<Interface>)
    requires Sound(p, done, interfaces) && KeysSeen(p)
    requires forall w :: w in p.wans ==> Leq(WanScore(w), RouteScore(r))
    ensures Sound(AddV4(p, r, interfaces), done + [r], interfaces) && KeysSeen(AddV4(p, r, interfaces))
  {
    var key := SeenKey(Egress(r), r.gateway);
    if key in p.seen {
      SeenIsCovered(p, r);
      SkipKeepsSound(p, r, done, interfaces);
    } else {
      AppendKeepsSound(p, r, r.gateway, key, done, interfaces);
    }
  }

  ghost predicate AllBetter(wans: seq<Wan>, routes: seq<Route>) {
    forall w, r :: w in wans && r in routes ==> Leq(WanScore(w), RouteScore(r))
  }

  lemma {:induction false} AddAllV4Sound(p: Progress, routes: seq<Route>, done: seq<Route>, interfaces: seq<Interface>)
    requires Sound(p, done, interfaces) && KeysSeen(p) && Sorted(routes, RouteKey) && AllBetter(p.wans, routes)
    ensures Sound(AddAllV4(p, routes, interfaces), done + routes, interfaces)
    decreases |routes|
  {
    if routes == [] {
      assert done + routes == done;
    } else {
      var r, rest := routes[0], routes[1..];
      var next := AddV4(p, r, interfaces);
      AddV4KeepsSound(p, r, done, interfaces);
      assert Sorted(rest, RouteKey);
      forall w, s | w in next.wans && s in rest ensures Leq(WanScore(w), RouteScore(s)) {
        assert s in routes;
        if w !in p.wans {
          assert Leq(RouteKey(r), RouteKey(s));
        }
      }
      AddAllV4Sound(next, rest, done + [r], interfaces);
      assert done + [r] + rest == done + routes;
    }
  }

  lemma MergedCovers(w: Wan, r: Route, s: Route)
    requires w.name == Egress(r) == Egress(s) && (Covers(w, s) || s == r)
    ensures Covers(MergeV6(w, r), s)
  {
    IsTotal(RouteScore(r), RouteScore(r));
    IsTotal(WanScore(w), RouteScore(r));
    if Covers(w, s) {
      IsTotal(RouteScore(r), RouteScore(s));
    }
  }

  lemma MergedIsGrounded(w: Wan, r: Route, done: seq<Route>, interfaces: seq<Interface>)
    requires w.name == Egress(r) && Grounded(w, done, interfaces)
    ensures Grounded(MergeV6(w, r), done + [r], interfaces)
  {
    GroundedGrows(w, done, r, interfaces);
    assert r in done + [r];
    var m := MergeV6(w, r);
    if m.distance == w.distance && m.routeActive == w.routeActive && m.routeReachable == w.routeReachable {
      var s :| s in done + [r] && Egress(s) == w.name && SameState(w, s);
      assert SameState(m, s) && Egress(s) == m.name;
    } else {
      assert SameState(m, r);
    }
  }

  lemma MergeKeepsCovered(wans: seq<Wan>, k: nat, r: Route, done: seq<Route>)
    requires AllCovered(wans, done) && k < |wans| && wans[k].name == Egress(r)
    ensures AllCovered(wans[k := MergeV6(wans[k], r)], done + [r])
  {
    var after := wans[k := MergeV6(wans[k], r)];
    assert after[k] in after;
    forall s | s in done + [r] ensures Covered(after, s) {
      if s in done {
        assert Covered(wans, s);
        var v :| v in wans && Covers(v, s);
        var j :| 0 <= j < |wans| && wans[j] == v;
        if j == k { MergedCovers(v, r, s); } else { assert after[j] == v && v in after; }
      } else {
        MergedCovers(wans[k], r, r);
      }
    }
  }

  lemma MergeKeepsGrounded(wans: seq<Wan>, k: nat, r: Route, done: seq<Route>, interfaces: seq<Interface>)
    requires AllGrounded(wans, done, interfaces) && k < |wans| && wans[k].name == Egress(r)
    ensures AllGrounded(wans[k := MergeV6(wans[k], r)], done + [r], interfaces)
  {
    var after := wans[k := MergeV6(wans[k], r)];
    AllGroundedGrows(wans, done, r, interfaces);
    forall v | v in after ensures Grounded(v, done + [r], interfaces) {
      var j :| 0 <= j < |after| && after[j] == v;
      assert wans[k] in wans && Grounded(wans[k], done, interfaces);
      if j == k { MergedIsGrounded(wans[k], r, done, interfaces); } else { assert v in wans; }
    }
  }

  lemma MergeKeepsApart(wans: seq<Wan>, k: nat, r: Route)
    requires Apart(wans) && Unmarked(wans) && k < |wans|
    ensures Apart(wans[k := MergeV6(wans[k], r)]) && Unmarked(wans[k := MergeV6(wans[k], r)])
  {
    var after := wans[k := MergeV6(wans[k], r)];
    assert forall i :: 0 <= i < |wans| ==> after[i].isPrimary == wans[i].isPrimary && wans[i] in wans;
    forall i, j | 0 <= i < j < |after| ensures Distinct(after[i], after[j]) {
      assert Distinct(wans[i], wans[j]);
    }
  }

  lemma MergeKeepsHeld(p: Progress, k: nat, r: Route)
    requires SeenHeld(p) && k < |p.wans|
    ensures SeenHeld(p.(wans := p.wans[k := MergeV6(p.wans[k], r)]))
  {
    var after := p.wans[k := MergeV6(p.wans[k], r)];
    forall key | key in p.seen ensures NameHeld(after, KeyName(key)) {
      assert NameHeld(p.wans, KeyName(key));
      var v :| v in p.wans && v.name == KeyName(key);
      var j :| 0 <= j < |p.wans| && p.wans[j] == v;
      assert after[j] in after && after[j].name == v.name;
    }
  }

  lemma MergeKeepsSound(p: Progress, k: nat, r: Route, done: seq<Route>, interfaces: seq<Interface>)
    requires Sound(p, done, interfaces) && k < |p.wans| && p.wans[k].name == Egress(r)
    ensures Sound(p.(wans := p.wans[k := MergeV6(p.wans[k], r)]), done + [r], interfaces)
  {
    MergeKeepsCovered(p.wans, k, r, done);
    MergeKeepsGrounded(p.wans, k, r, done, interfaces);
    MergeKeepsApart(p.wans, k, r);
    MergeKeepsHeld(p, k, r);
  }

  /** An IPv6 route either merges into the WAN of its name or adds one: its key is never stale. */
  lemma AddV6KeepsSound(p: Progress, r: Route, done: seq<Route>, interfaces: seq<Interface>)
    requires Sound(p, done, interfaces)
    ensures FindWan(p.wans, Egress(r)) == -1 ==> SeenKey(Egress(r), r.gateway) !in p.seen
    ensures Sound(AddV6(p, r, interfaces), done + [r], interfaces)
  {
    var k := FindWan(p.wans, Egress(r));
    if k >= 0 {
      MergeKeepsSound(p, k, r, done, interfaces);
    } else {
      var key := SeenKey(Egress(r), r.gateway);
      assert key in p.seen ==> NameHeld(p.wans, KeyName(key));
      AppendKeepsSound(p, r, NO_GATEWAY, key, done, interfaces);
    }
  }

  lemma {:induction false} AddAllV6Sound(p: Progress, routes: seq<Route>, done: seq<Route>, interfaces: seq<Interface>)
    requires Sound(p, done, interfaces)
    ensures Sound(AddAllV6(p, routes, interfaces), done + routes, interfaces)
    decreases |routes|
  {
    if routes == [] {
      assert done + routes == done;
    } else {
      AddV6KeepsSound(p, routes[0], done, interfaces);
      AddAllV6Sound(AddV6(p, routes[0], interfaces), routes[1..], done + [routes[0]], interfaces);
      assert done + [routes[0]] + routes[1..] == done + routes;
    }
  }

  // ----- the collected list

  lemma {:induction false} DefaultsHas(routes: seq<Route>, destination: string, r: Route)
    ensures r in Defaults(routes, destination) <==> r in routes && IsDefault(r, destination)
  {
    if routes != [] {
      DefaultsHas(routes[1..], destination, r);
      assert routes == [routes[0]] + routes[1..];
    }
  }

  function Ordered(routes: seq<Route>, ipv6Routes: seq<Route>): seq<Route> {
    SortByKey(Defaults(routes, V4_DEFAULT), RouteKey) + SortByKey(Defaults(ipv6Routes, V6_DEFAULT), RouteKey)
  }

  lemma OrderedHas(routes: seq<Route>, ipv6Routes: seq<Route>, r: Route)
    ensures r in Ordered(routes, ipv6Routes) <==> Candidate(r, routes, ipv6Routes)
  {
    SortHas(Defaults(routes, V4_DEFAULT), RouteKey, r);
    SortHas(Defaults(ipv6Routes, V6_DEFAULT), RouteKey, r);
    DefaultsHas(routes, V4_DEFAULT, r);
    DefaultsHas(ipv6Routes, V6_DEFAULT, r);
  }

  lemma CollectedIsSound(interfaces: seq<Interface>, routes: seq<Route>, ipv6Routes: seq<Route>)
    ensures var wans := Collected(interfaces, routes, ipv6Routes);
      var done := Ordered(routes, ipv6Routes);
      AllCovered(wans, done) && AllGrounded(wans, done, interfaces) && Apart(wans) && Unmarked(wans)
  {
    var v4 := SortByKey(Defaults(routes, V4_DEFAULT), RouteKey);
    var v6 := SortByKey(Defaults(ipv6Routes, V6_DEFAULT), RouteKey);
    var start := Progress({}, []);
    SortSorts(Defaults(routes, V4_DEFAULT), RouteKey);
    assert Sound(start, [], interfaces) && KeysSeen(start) && AllBetter(start.wans, v4);
    AddAllV4Sound(start, v4, [], interfaces);
    assert [] + v4 == v4;
    AddAllV6Sound(AddAllV4(start, v4, interfaces), v6, v4, interfaces);
  }

  // ----- sorting for display

  lemma {:induction false} InsertKeepsApart(x: Wan, wans: seq<Wan>)
    requires Apart(wans) && forall w :: w in wans ==> Distinct(x, w)
    ensures Apart(Insert(x, wans, DisplayKey))
    decreases |wans|
  {
    var r := Insert(x, wans, DisplayKey);
    if wans == [] || Leq(DisplayKey(x), DisplayKey(wans[0])) {
      forall i, j | 0 <= i < j < |r| ensures Distinct(r[i], r[j]) {
        assert r[j] == wans[j - 1] && r[j] in wans;
        if i > 0 { assert r[i] == wans[i - 1]; }
      }
    } else {
      var rest := wans[1..];
      InsertKeepsApart(x, rest);
      var tail := Insert(x, rest, DisplayKey);
      forall i, j | 0 <= i < j < |r| ensures Distinct(r[i], r[j]) {
        assert r[j] == tail[j - 1];
        if i > 0 {
          assert r[i] == tail[i - 1];
        } else {
          InsertHas(x, rest, DisplayKey, tail[j - 1]);
          assert wans[0] in wans;
          if tail[j - 1] in rest {
            var k :| 0 <= k < |rest| && rest[k] == tail[j - 1];
            assert wans[k + 1] == rest[k];
          }
        }
      }
    }
  }

  lemma {:induction false} SortKeepsApart(wans: seq<Wan>)
    requires Apart(wans)
    ensures Apart(SortByKey(wans, DisplayKey))
    decreases |wans|
  {
    if wans != [] {
      var rest := wans[1..];
      SortKeepsApart(rest);
      forall w | w in SortByKey(rest, DisplayKey) ensures Distinct(wans[0], w) {
        SortHas(rest, DisplayKey, w);
        var k :| 0 <= k < |rest| && rest[k] == w;
        assert wans[k + 1] == w;
      }
      InsertKeepsApart(wans[0], SortByKey(rest, DisplayKey));
    }
  }

  // ----- the resolved list

  /** The primary is one of the least eligible WANs; marking changes nothing else. */
  lemma MarkedWan(wans: seq<Wan>, w: Wan)
    requires w in MarkPrimary(wans) && Unmarked(wans)
    ensures w.(isPrimary := false) in wans
    ensures w.isPrimary ==> CanBePrimary(w) && forall v :: v in wans && CanBePrimary(v) ==>
      Leq(PrimaryKey(w), PrimaryKey(v))
  {
    FirstLeastIsLeast(wans, CanBePrimary, PrimaryKey);
    var k := FirstLeast(wans, CanBePrimary, PrimaryKey);
    var i :| 0 <= i < |MarkPrimary(wans)| && MarkPrimary(wans)[i] == w;
    assert wans[i] in wans && !wans[i].isPrimary;
    assert w.(isPrimary := false) == wans[i];
  }

  lemma MarkKeepsWans(wans: seq<Wan>, v: Wan)
    requires v in wans
    ensures exists w :: w in MarkPrimary(wans) && w.(isPrimary := v.isPrimary) == v
    ensures CanBePrimary(v) ==> exists w :: w in MarkPrimary(wans) && w.isPrimary
  {
    FirstLeastIsLeast(wans, CanBePrimary, PrimaryKey);
    var k := FirstLeast(wans, CanBePrimary, PrimaryKey);
    var marked := MarkPrimary(wans);
    var i :| 0 <= i < |wans| && wans[i] == v;
    assert marked[i] in marked && marked[i].(isPrimary := v.isPrimary) == v;
    if CanBePrimary(v) {
      assert marked[k] in marked;
    }
  }

  lemma MarkKeepsApart(wans: seq<Wan>)
    requires Apart(wans) && Unmarked(wans)
    ensures Apart(MarkPrimary(wans))
  {
    var marked := MarkPrimary(wans);
    forall i, j | 0 <= i < j < |marked| ensures Distinct(marked[i], marked[j]) {
      assert Distinct(wans[i], wans[j]) && wans[i] in wans && wans[j] in wans;
    }
  }

  /** Every resolved WAN is a collected one, perhaps marked. */
  lemma ResolvedWan(interfaces: seq<Interface>, routes: seq<Route>, ipv6Routes: seq<Route>, w: Wan)
    requires w in Resolve(interfaces, routes, ipv6Routes)
    ensures var collected := Collected(interfaces, routes, ipv6Routes);
      && w.(isPrimary := false) in collected
      && Grounded(w.(isPrimary := false), Ordered(routes, ipv6Routes), interfaces)
      && (w.isPrimary ==> CanBePrimary(w) && forall v :: v in collected && CanBePrimary(v) ==>
        Leq(PrimaryKey(w), PrimaryKey(v)))
  {
    var collected := Collected(interfaces, routes, ipv6Routes);
    CollectedIsSound(interfaces, routes, ipv6Routes);
    SortHas(MarkPrimary(collected), DisplayKey, w);
    MarkedWan(collected, w);
  }

  /** Every candidate route is covered by a collected WAN, which is resolved. */
  lemma RouteIsCovered(interfaces: seq<Interface>, routes: seq<Route>, ipv6Routes: seq<Route>, r: Route)
    returns (v: Wan, w: Wan)
    requires Candidate(r, routes, ipv6Routes)
    ensures v in Collected(interfaces, routes, ipv6Routes) && Covers(v, r)
      && Grounded(v, Ordered(routes, ipv6Routes), interfaces)
    ensures w in Resolve(interfaces, routes, ipv6Routes) && w.(isPrimary := v.isPrimary) == v
    ensures CanBePrimary(v) ==> exists p :: p in Resolve(interfaces, routes, ipv6Routes) && p.isPrimary
  {
    var collected := Collected(interfaces, routes, ipv6Routes);
    CollectedIsSound(interfaces, routes, ipv6Routes);
    OrderedHas(routes, ipv6Routes, r);
    assert Covered(collected, r);
    v :| v in collected && Covers(v, r);
    assert Grounded(v, Ordered(routes, ipv6Routes), interfaces);
    MarkKeepsWans(collected, v);
    w :| w in MarkPrimary(collected) && w.(isPrimary := v.isPrimary) == v;
    SortHas(MarkPrimary(collected), DisplayKey, w);
    if CanBePrimary(v) {
      var p :| p in MarkPrimary(collected) && p.isPrimary;
      SortHas(MarkPrimary(collected), DisplayKey, p);
    }
  }

  /** No interface appears twice; bare gateways appear once each; and at most one WAN is primary. */
  lemma ResolvedAreApart(interfaces: seq<Interface>, routes: seq<Route>, ipv6Routes: seq<Route>)
    ensures Apart(Resolve(interfaces, routes, ipv6Routes))
  {
    var collected := Collected(interfaces, routes, ipv6Routes);
    CollectedIsSound(interfaces, routes, ipv6Routes);
    MarkKeepsApart(collected);
    SortKeepsApart(MarkPrimary(collected));
  }

  /** A name has a WAN exactly when some enabled default route of either family leaves through it. */
  lemma WansExistExactly(interfaces: seq<Interface>, routes: seq<Route>, ipv6Routes: seq<Route>, name: string)
    ensures (exists w :: w in Resolve(interfaces, routes, ipv6Routes) && w.name == name)
      <==> (exists r :: Candidate(r, routes, ipv6Routes) && Egress(r) == name)
  {
    if w :| w in Resolve(interfaces, routes, ipv6Routes) && w.name == name {
      ResolvedWan(interfaces, routes, ipv6Routes, w);
      var u := w.(isPrimary := false);
      var r :| r in Ordered(routes, ipv6Routes) && Egress(r) == u.name && SameState(u, r);
      OrderedHas(routes, ipv6Routes, r);
    }
    if r :| Candidate(r, routes, ipv6Routes) && Egress(r) == name {
      var v, w := RouteIsCovered(interfaces, routes, ipv6Routes, r);
    }
  }

  /** A resolved WAN with a name is the one covering every route on that name. */
  lemma NamedWanCovers(interfaces: seq<Interface>, routes: seq<Route>, ipv6Routes: seq<Route>, w: Wan, r: Route)
    requires w in Resolve(interfaces, routes, ipv6Routes) && w.name != ""
    requires Candidate(r, routes, ipv6Routes) && Egress(r) == w.name
    ensures Covers(w, r)
  {
    var v, u := RouteIsCovered(interfaces, routes, ipv6Routes, r);
    ResolvedAreApart(interfaces, routes, ipv6Routes);
    var wans := Resolve(interfaces, routes, ipv6Routes);
    var i :| 0 <= i < |wans| && wans[i] == w;
    var j :| 0 <= j < |wans| && wans[j] == u;
    assert i < j ==> Distinct(wans[i], wans[j]);
    assert j < i ==> Distinct(wans[j], wans[i]);
  }

  /**
   * A named WAN carries the state of one of its enabled default routes, the least by (state rank,
   * distance) over both families, and is online exactly when its interface runs and some such
   * route is reachable.
   */
  lemma NamedWanIsBest(interfaces: seq<Interface>, routes: seq<Route>, ipv6Routes: seq<Route>, w: Wan)
    requires w in Resolve(interfaces, routes, ipv6Routes) && w.name != ""
    ensures exists r :: Candidate(r, routes, ipv6Routes) && Egress(r) == w.name && SameState(w, r)
    ensures forall r :: Candidate(r, routes, ipv6Routes) && Egress(r) == w.name ==> Leq(WanScore(w), RouteScore(r))
    ensures w.online <==>
      && Runs(FindInterface(interfaces, w.name))
      && exists r :: Candidate(r, routes, ipv6Routes) && Egress(r) == w.name && IsReachable(r)
  {
    ResolvedWan(interfaces, routes, ipv6Routes, w);
    var u := w.(isPrimary := false);
    var r :| r in Ordered(routes, ipv6Routes) && Egress(r) == u.name && SameState(u, r);
    OrderedHas(routes, ipv6Routes, r);
    assert SameState(w, r);
    forall s | Candidate(s, routes, ipv6Routes) && Egress(s) == w.name ensures Covers(w, s) {
      NamedWanCovers(interfaces, routes, ipv6Routes, w, s);
    }
    if w.online {
      var s :| s in Ordered(routes, ipv6Routes) && Egress(s) == u.name && IsReachable(s);
      OrderedHas(routes, ipv6Routes, s);
    }
  }

  /** An active, reachable route whose interface runs. */
  ghost predicate Live(r: Route, interfaces: seq<Interface>, routes: seq<Route>, ipv6Routes: seq<Route>) {
    Candidate(r, routes, ipv6Routes) && r.active && IsReachable(r) && Runs(FindInterface(interfaces, Egress(r)))
  }

  lemma LiveRouteIsEligible(interfaces: seq<Interface>, routes: seq<Route>, ipv6Routes: seq<Route>, r: Route)
    requires Live(r, interfaces, routes, ipv6Routes)
    ensures exists v ::
      && v in Collected(interfaces, routes, ipv6Routes) && CanBePrimary(v)
      && v.name == Egress(r) && v.distance <= r.distance
    ensures exists p :: p in Resolve(interfaces, routes, ipv6Routes) && p.isPrimary
  {
    var v, w := RouteIsCovered(interfaces, routes, ipv6Routes, r);
    assert CanBePrimary(v);
  }

  /**
   * There is a primary exactly when some running interface has an active reachable default route;
   * it is the only one and comes first, it has such a route at its distance, and no such route
   * has a smaller (distance, name).
   */
  lemma PrimaryExactly(interfaces: seq<Interface>, routes: seq<Route>, ipv6Routes: seq<Route>)
    ensures var wans := Resolve(interfaces, routes, ipv6Routes);
      && ((exists i :: 0 <= i < |wans| && wans[i].isPrimary) <==> (exists r :: Live(r, interfaces, routes, ipv6Routes)))
      && (forall i :: 0 <= i < |wans| && wans[i].isPrimary ==>
            && i == 0
            && (exists r ::
                  && Live(r, interfaces, routes, ipv6Routes)
                  && Egress(r) == wans[i].name && r.distance == wans[i].distance)
            && (forall r :: Live(r, interfaces, routes, ipv6Routes) ==>
                  Leq(SortKey(0, wans[i].distance, wans[i].name), SortKey(0, r.distance, Egress(r)))))
  {
    var wans := Resolve(interfaces, routes, ipv6Routes);
    if r :| Live(r, interfaces, routes, ipv6Routes) {
      LiveRouteIsEligible(interfaces, routes, ipv6Routes, r);
      var p :| p in wans && p.isPrimary;
    }
    forall i | 0 <= i < |wans| && wans[i].isPrimary
      ensures i == 0
      ensures exists r ::
        Live(r, interfaces, routes, ipv6Routes) && Egress(r) == wans[i].name && r.distance == wans[i].distance
      ensures forall r :: Live(r, interfaces, routes, ipv6Routes) ==>
        Leq(SortKey(0, wans[i].distance, wans[i].name), SortKey(0, r.distance, Egress(r)))
    {
      PrimaryComesFirst(interfaces, routes, ipv6Routes, i);
      PrimaryIsLeast(interfaces, routes, ipv6Routes, wans[i]);
    }
  }

  lemma PrimaryComesFirst(interfaces: seq<Interface>, routes: seq<Route>, ipv6Routes: seq<Route>, i: nat)
    requires i < |Resolve(interfaces, routes, ipv6Routes)| && Resolve(interfaces, routes, ipv6Routes)[i].isPrimary
    ensures i == 0
  {
    var wans := Resolve(interfaces, routes, ipv6Routes);
    ResolvedAreApart(interfaces, routes, ipv6Routes);
    SortSorts(MarkPrimary(Collected(interfaces, routes, ipv6Routes)), DisplayKey);
    assert i > 0 ==> Distinct(wans[0], wans[i]);
    assert Leq(DisplayKey(wans[0]), DisplayKey(wans[i]));
  }

  lemma PrimaryIsLeast(interfaces: seq<Interface>, routes: seq<Route>, ipv6Routes: seq<Route>, w: Wan)
    requires w in Resolve(interfaces, routes, ipv6Routes) && w.isPrimary
    ensures exists r :: Live(r, interfaces, routes, ipv6Routes) && Egress(r) == w.name && r.distance == w.distance
    ensures forall r :: Live(r, interfaces, routes, ipv6Routes) ==>
      Leq(PrimaryKey(w), SortKey(0, r.distance, Egress(r)))
  {
    ResolvedWan(interfaces, routes, ipv6Routes, w);
    var u := w.(isPrimary := false);
    var s :| s in Ordered(routes, ipv6Routes) && Egress(s) == u.name && SameState(u, s);
    OrderedHas(routes, ipv6Routes, s);
    assert Live(s, interfaces, routes, ipv6Routes);
    forall r | Live(r, interfaces, routes, ipv6Routes) ensures Leq(PrimaryKey(w), SortKey(0, r.distance, Egress(r))) {
      LiveRouteIsEligible(interfaces, routes, ipv6Routes, r);
      var v :| v in Collected(interfaces, routes, ipv6Routes) && CanBePrimary(v) && v.name == Egress(r)
        && v.distance <= r.distance;
      TextIsTotal(v.name, v.name);
      IsTransitive(PrimaryKey(w), PrimaryKey(v), SortKey(0, r.distance, Egress(r)));
    }
  }

  /** The list runs from the primary over online to offline WANs, each by distance and name. */
  lemma DisplayOrder(interfaces: seq<Interface>, routes: seq<Route>, ipv6Routes: seq<Route>)
    ensures Sorted(Resolve(interfaces, routes, ipv6Routes), DisplayKey)
    ensures |Resolve(interfaces, routes, ipv6Routes)| == |Collected(interfaces, routes, ipv6Routes)|
  {
    var marked := MarkPrimary(Collected(interfaces, routes, ipv6Routes));
    SortSorts(marked, DisplayKey);
    SortKeepsItems(marked, DisplayKey);
  }
}
