/** Which gateway a WAN shows, and that no bare IPv4 gateway is dropped. */
module WanGateways {
  import opened Outcomes
  import opened SortKeys
  import opened WanResolution
  import opened WanTheorems

  /** The first route of the list that leaves through the interface. */
  function FirstOn(routes: seq<Route>, name: string): Option<Route>
    decreases |routes|
  {
    if routes == [] then None
    else
      var first := FirstOn(routes[..|routes| - 1], name);
      if first.Some? then first
      else if Egress(routes[|routes| - 1]) == name then Some(routes[|routes| - 1])
      else None
  }

  lemma FirstOnExtended(routes: seq<Route>, r: Route, name: string)
    ensures FirstOn(routes + [r], name) ==
      if FirstOn(routes, name).Some? then FirstOn(routes, name) else if Egress(r) == name then Some(r) else None
  {
    assert (routes + [r])[..|routes|] == routes;
  }

  lemma {:induction false} FirstOnMeaning(routes: seq<Route>, name: string)
    ensures FirstOn(routes, name).None? <==> forall r :: r in routes ==> Egress(r) != name
    ensures FirstOn(routes, name).Some? ==>
      FirstOn(routes, name).value in routes && Egress(FirstOn(routes, name).value) == name
    ensures FirstOn(routes, name).Some? && Sorted(routes, RouteKey) ==>
      forall r :: r in routes && Egress(r) == name ==> Leq(RouteKey(FirstOn(routes, name).value), RouteKey(r))
    decreases |routes|
  {
    if routes != [] {
      var front, last := routes[..|routes| - 1], routes[|routes| - 1];
      FirstOnMeaning(front, name);
      assert routes == front + [last];
      IsTotal(RouteKey(last), RouteKey(last));
      if Sorted(routes, RouteKey) {
        assert Sorted(front, RouteKey);
        forall r | r in front ensures Leq(RouteKey(r), RouteKey(last)) {
          var i :| 0 <= i < |front| && front[i] == r;
          assert Leq(RouteKey(routes[i]), RouteKey(routes[|routes| - 1]));
        }
      }
    }
  }

  // ----- while IPv4 routes are added

  /** A named WAN shows the gateway of the first route on it. */
  predicate ShowsFirst(w: Wan, v4: seq<Route>) {
    w.name != "" ==> FirstOn(v4, w.name).Some? && w.gateway == FirstOn(v4, w.name).value.gateway
  }

  ghost predicate BareListed(wans: seq<Wan>, gateway: string) {
    exists w :: w in wans && w.name == "" && w.gateway == gateway
  }

  /** Recorded keys stand for listed WANs, and every route's key is recorded. */
  ghost predicate Kept(p: Progress, v4: seq<Route>) {
    && (forall w :: w in p.wans ==> ShowsFirst(w, v4))
    && (forall key :: key in p.seen && key.ByGateway? ==> BareListed(p.wans, key.gateway))
    && (forall r :: r in v4 ==> SeenKey(Egress(r), r.gateway) in p.seen)
    && (forall key :: key in p.seen && key.ByInterface? ==> FirstOn(v4, key.name).Some?)
  }

  lemma BareGrows(wans: seq<Wan>, w: Wan, gateway: string)
    requires BareListed(wans, gateway)
    ensures BareListed(wans + [w], gateway)
  {
    var v :| v in wans && v.name == "" && v.gateway == gateway;
    assert v in wans + [w];
  }

  lemma AddV4Keeps(p: Progress, r: Route, v4: seq<Route>, interfaces: seq<Interface>)
    requires Kept(p, v4)
    ensures Kept(AddV4(p, r, interfaces), v4 + [r])
  {
    var key := SeenKey(Egress(r), r.gateway);
    var next := AddV4(p, r, interfaces);
    FirstOnMeaning(v4, Egress(r));
    forall w | w in next.wans ensures ShowsFirst(w, v4 + [r]) {
      FirstOnExtended(v4, r, w.name);
    }
    forall k | k in next.seen && k.ByGateway? ensures BareListed(next.wans, k.gateway) {
      if k in p.seen {
        assert BareListed(p.wans, k.gateway);
        if key !in p.seen { BareGrows(p.wans, NewWan(r, r.gateway, interfaces), k.gateway); }
      } else {
        assert next.wans[|p.wans|] == NewWan(r, r.gateway, interfaces);
      }
    }
    forall k | k in next.seen && k.ByInterface? ensures FirstOn(v4 + [r], k.name).Some? {
      FirstOnExtended(v4, r, k.name);
    }
  }

  lemma {:induction false} AddAllV4Keeps(p: Progress, routes: seq<Route>, v4: seq<Route>, interfaces: seq<Interface>)
    requires Kept(p, v4)
    ensures Kept(AddAllV4(p, routes, interfaces), v4 + routes)
    decreases |routes|
  {
    if routes == [] {
      assert v4 + routes == v4;
    } else {
      AddV4Keeps(p, routes[0], v4, interfaces);
      AddAllV4Keeps(AddV4(p, routes[0], interfaces), routes[1..], v4 + [routes[0]], interfaces);
      assert v4 + [routes[0]] + routes[1..] == v4 + routes;
    }
  }

  // ----- while IPv6 routes are added

  /** The gateway is that of the first IPv4 route on a named WAN, or a dash if it has none. */
  predicate GatewayRight(w: Wan, v4: seq<Route>) {
    w.name != "" ==>
      w.gateway == if FirstOn(v4, w.name).Some? then FirstOn(v4, w.name).value.gateway else NO_GATEWAY
  }

  ghost predicate Shown(wans: seq<Wan>, v4: seq<Route>) {
    && (forall w :: w in wans ==> GatewayRight(w, v4))
    && (forall r :: r in v4 && Egress(r) != "" ==> NameHeld(wans, Egress(r)))
    && (forall r :: r in v4 && Egress(r) == "" ==> BareListed(wans, r.gateway))
  }

  lemma MergeKeepsShown(wans: seq<Wan>, k: nat, r: Route, v4: seq<Route>)
    requires Shown(wans, v4) && k < |wans|
    ensures Shown(wans[k := MergeV6(wans[k], r)], v4)
  {
    var after := wans[k := MergeV6(wans[k], r)];
    assert forall i :: 0 <= i < |wans| ==> after[i].name == wans[i].name && after[i].gateway == wans[i].gateway;
    forall w | w in after ensures GatewayRight(w, v4) {
      var i :| 0 <= i < |after| && after[i] == w;
      assert wans[i] in wans && GatewayRight(wans[i], v4);
    }
    forall s | s in v4 && Egress(s) != "" ensures NameHeld(after, Egress(s)) {
      assert NameHeld(wans, Egress(s));
      var v :| v in wans && v.name == Egress(s);
      var i :| 0 <= i < |wans| && wans[i] == v;
      assert after[i] in after;
    }
    forall s | s in v4 && Egress(s) == "" ensures BareListed(after, s.gateway) {
      assert BareListed(wans, s.gateway);
      var v :| v in wans && v.name == "" && v.gateway == s.gateway;
      var i :| 0 <= i < |wans| && wans[i] == v;
      assert after[i] in after;
    }
  }

  lemma AppendKeepsShown(wans: seq<Wan>, w: Wan, v4: seq<Route>)
    requires Shown(wans, v4) && w.gateway == NO_GATEWAY && forall v :: v in wans ==> v.name != w.name
    ensures Shown(wans + [w], v4)
  {
    FirstOnMeaning(v4, w.name);
    assert w.name != "" && FirstOn(v4, w.name).Some? ==> NameHeld(wans, w.name);
    forall s | s in v4 && Egress(s) != "" ensures NameHeld(wans + [w], Egress(s)) {
      HeldGrows(wans, [w], Egress(s));
    }
    forall s | s in v4 && Egress(s) == "" ensures BareListed(wans + [w], s.gateway) {
      BareGrows(wans, w, s.gateway);
    }
  }

  lemma {:induction false} AddAllV6Keeps(p: Progress, routes: seq<Route>, v4: seq<Route>, interfaces: seq<Interface>)
    requires Shown(p.wans, v4)
    ensures Shown(AddAllV6(p, routes, interfaces).wans, v4)
    decreases |routes|
  {
    if routes != [] {
      var r := routes[0];
      var k := FindWan(p.wans, Egress(r));
      if k >= 0 {
        MergeKeepsShown(p.wans, k, r, v4);
      } else if SeenKey(Egress(r), r.gateway) !in p.seen {
        AppendKeepsShown(p.wans, NewWan(r, NO_GATEWAY, interfaces), v4);
      }
      AddAllV6Keeps(AddV6(p, r, interfaces), routes[1..], v4, interfaces);
    }
  }

  lemma KeptIsShown(p: Progress, v4: seq<Route>)
    requires Kept(p, v4) && SeenHeld(p)
    ensures Shown(p.wans, v4)
  {
    forall r | r in v4 && Egress(r) != "" ensures NameHeld(p.wans, Egress(r)) {
      assert NameHeld(p.wans, KeyName(SeenKey(Egress(r), r.gateway)));
    }
  }

  function SortedV4(routes: seq<Route>): seq<Route> {
    SortByKey(Defaults(routes, V4_DEFAULT), RouteKey)
  }

  lemma CollectedIsShown(interfaces: seq<Interface>, routes: seq<Route>, ipv6Routes: seq<Route>)
    ensures Shown(Collected(interfaces, routes, ipv6Routes), SortedV4(routes))
  {
    var v4 := SortedV4(routes);
    var start := Progress({}, []);
    SortSorts(Defaults(routes, V4_DEFAULT), RouteKey);
    assert Kept(start, []) && Sound(start, [], interfaces) && KeysSeen(start) && AllBetter(start.wans, v4);
    AddAllV4Keeps(start, v4, [], interfaces);
    AddAllV4Sound(start, v4, [], interfaces);
    assert [] + v4 == v4;
    KeptIsShown(AddAllV4(start, v4, interfaces), v4);
    AddAllV6Keeps(AddAllV4(start, v4, interfaces), SortByKey(Defaults(ipv6Routes, V6_DEFAULT), RouteKey), v4,
      interfaces);
  }

  ghost predicate V4On(r: Route, routes: seq<Route>, name: string) {
    r in routes && IsDefault(r, V4_DEFAULT) && Egress(r) == name
  }

  /**
   * A named WAN shows the gateway of its least IPv4 route by (state rank, distance, id), and a
   * dash exactly when no IPv4 default route leaves through it.
   */
  lemma NamedWanGateway(interfaces: seq<Interface>, routes: seq<Route>, ipv6Routes: seq<Route>, w: Wan)
    requires w in Resolve(interfaces, routes, ipv6Routes) && w.name != ""
    ensures if exists r :: V4On(r, routes, w.name) then
        exists r :: V4On(r, routes, w.name) && w.gateway == r.gateway
                    && forall s :: V4On(s, routes, w.name) ==> Leq(RouteKey(r), RouteKey(s))
      else w.gateway == NO_GATEWAY
  {
    CollectedIsShown(interfaces, routes, ipv6Routes);
    ResolvedWan(interfaces, routes, ipv6Routes, w);
    var v4 := SortedV4(routes);
    assert GatewayRight(w.(isPrimary := false), v4);
    FirstOnMeaning(v4, w.name);
    SortSorts(Defaults(routes, V4_DEFAULT), RouteKey);
    forall r ensures r in v4 && Egress(r) == w.name <==> V4On(r, routes, w.name) {
      SortHas(Defaults(routes, V4_DEFAULT), RouteKey, r);
      DefaultsHas(routes, V4_DEFAULT, r);
    }
    if FirstOn(v4, w.name).Some? {
      assert V4On(FirstOn(v4, w.name).value, routes, w.name);
    }
  }

  /** Every bare IPv4 gateway of an enabled default route has a WAN of its own. */
  lemma BareGatewaysListed(interfaces: seq<Interface>, routes: seq<Route>, ipv6Routes: seq<Route>, r: Route)
    requires V4On(r, routes, "")
    ensures BareListed(Resolve(interfaces, routes, ipv6Routes), r.gateway)
  {
    var collected := Collected(interfaces, routes, ipv6Routes);
    CollectedIsShown(interfaces, routes, ipv6Routes);
    SortHas(Defaults(routes, V4_DEFAULT), RouteKey, r);
    DefaultsHas(routes, V4_DEFAULT, r);
    assert BareListed(collected, r.gateway);
    var v :| v in collected && v.name == "" && v.gateway == r.gateway;
    MarkKeepsWans(collected, v);
    var w :| w in MarkPrimary(collected) && w.(isPrimary := v.isPrimary) == v;
    SortHas(MarkPrimary(collected), DisplayKey, w);
  }
}
