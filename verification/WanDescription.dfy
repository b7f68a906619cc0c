/** The resolved WANs in the words of the routing table: which exist, what they show, which is primary. */
module WanDescription {
  import opened Outcomes
  import opened SortKeys
  import opened WanResolution
  import opened WanTheorems
  import opened WanReachability

  /** A default route of its family that is not disabled and has a gateway. */
  ghost predicate EnabledDefault(r: Route, routes: seq<Route>, ipv6Routes: seq<Route>) {
    && ((r in routes && r.dstAddress == "0.0.0.0/0") || (r in ipv6Routes && r.dstAddress == "::/0"))
    && !r.disabled && r.gateway != ""
  }

  /** A route without an interface leaves through the interface its gateway names, if that is not an address. */
  predicate LeavesThrough(r: Route, name: string) {
    name == if r.interface != "" then r.interface else if r.gatewayIsIp then "" else r.gateway
  }

  /** Some word of the gateway's status reads "reachable". */
  ghost predicate ReportedReachable(r: Route) {
    exists i: nat, j: nat :: WordAt(r.gatewayStatus, i, j) && SaysReachable(r.gatewayStatus[i..j])
  }

  /** The first interface of that name runs. */
  ghost predicate InterfaceRuns(interfaces: seq<Interface>, name: string) {
    exists i :: 0 <= i < |interfaces| && interfaces[i].name == name && interfaces[i].running
                && forall j :: 0 <= j < i ==> interfaces[j].name != name
  }

  /** Active and reachable beats reachable beats anything else; then the smaller distance wins. */
  predicate AtLeastAsGood(active: bool, reachable: bool, distance: nat, active': bool, reachable': bool,
      distance': nat)
  {
    var both, both' := active && reachable, active' && reachable';
    if both != both' then both
    else if reachable != reachable' then reachable
    else distance <= distance'
  }

  // ----- the words mean what the resolution computes

  lemma {:induction false} FoundRuns(interfaces: seq<Interface>, name: string)
    ensures Runs(FindInterface(interfaces, name)) <==> InterfaceRuns(interfaces, name)
  {
    if interfaces != [] {
      var rest := interfaces[1..];
      FoundRuns(rest, name);
      if interfaces[0].name != name {
        if InterfaceRuns(interfaces, name) {
          var i :| 0 <= i < |interfaces| && interfaces[i].name == name && interfaces[i].running
                   && forall j :: 0 <= j < i ==> interfaces[j].name != name;
          assert rest[i - 1] == interfaces[i];
        }
        if InterfaceRuns(rest, name) {
          var i :| 0 <= i < |rest| && rest[i].name == name && rest[i].running
                   && forall j :: 0 <= j < i ==> rest[j].name != name;
          assert interfaces[i + 1] == rest[i];
          assert forall j :: 0 < j < i + 1 ==> interfaces[j] == rest[j - 1];
        }
      }
    }
  }

  lemma CandidateMeans(r: Route, routes: seq<Route>, ipv6Routes: seq<Route>)
    ensures Candidate(r, routes, ipv6Routes) <==> EnabledDefault(r, routes, ipv6Routes)
    ensures LeavesThrough(r, Egress(r))
    ensures IsReachable(r) <==> ReportedReachable(r)
  {
    ReachableExactly(r);
  }

  lemma ScoresMean(w: Wan, r: Route)
    ensures Leq(WanScore(w), RouteScore(r))
       <==> AtLeastAsGood(w.routeActive, w.routeReachable, w.distance, r.active, IsReachable(r), r.distance)
  {
  }

  // ----- the description

  /** A name has a WAN exactly when an enabled default route of either family leaves through it. */
  lemma WansAsDescribed(interfaces: seq<Interface>, routes: seq<Route>, ipv6Routes: seq<Route>, name: string)
    ensures (exists w :: w in Resolve(interfaces, routes, ipv6Routes) && w.name == name)
      <==> (exists r :: EnabledDefault(r, routes, ipv6Routes) && LeavesThrough(r, name))
  {
    WansExistExactly(interfaces, routes, ipv6Routes, name);
    forall r ensures Candidate(r, routes, ipv6Routes) && Egress(r) == name
      <==> EnabledDefault(r, routes, ipv6Routes) && LeavesThrough(r, name)
    {
      CandidateMeans(r, routes, ipv6Routes);
    }
  }

  /** The WAN shows the route's state. */
  ghost predicate Shows(w: Wan, r: Route) {
    w.routeActive == r.active && (w.routeReachable <==> ReportedReachable(r)) && w.distance == r.distance
  }

  /** The route is one of the WAN's. */
  ghost predicate RouteOf(w: Wan, r: Route, routes: seq<Route>, ipv6Routes: seq<Route>) {
    EnabledDefault(r, routes, ipv6Routes) && LeavesThrough(r, w.name)
  }

  /**
   * A named WAN shows the state of one of its routes, none of its routes is better, and it is online
   * exactly when its interface runs and one of its routes is reported reachable.
   */
  lemma NamedWanAsDescribed(interfaces: seq<Interface>, routes: seq<Route>, ipv6Routes: seq<Route>, w: Wan)
    requires w in Resolve(interfaces, routes, ipv6Routes) && w.name != ""
    ensures exists r :: RouteOf(w, r, routes, ipv6Routes) && Shows(w, r)
    ensures forall r :: RouteOf(w, r, routes, ipv6Routes) ==>
      AtLeastAsGood(w.routeActive, w.routeReachable, w.distance, r.active, ReportedReachable(r), r.distance)
    ensures w.online <==>
      InterfaceRuns(interfaces, w.name) && exists r :: RouteOf(w, r, routes, ipv6Routes) && ReportedReachable(r)
  {
    NamedWanIsBest(interfaces, routes, ipv6Routes, w);
    FoundRuns(interfaces, w.name);
    forall r ensures RouteOf(w, r, routes, ipv6Routes) <==> Candidate(r, routes, ipv6Routes) && Egress(r) == w.name
      ensures IsReachable(r) <==> ReportedReachable(r)
      ensures Leq(WanScore(w), RouteScore(r))
         <==> AtLeastAsGood(w.routeActive, w.routeReachable, w.distance, r.active, IsReachable(r), r.distance)
    {
      CandidateMeans(r, routes, ipv6Routes);
      ScoresMean(w, r);
    }
    var s :| Candidate(s, routes, ipv6Routes) && Egress(s) == w.name && SameState(w, s);
    assert RouteOf(w, s, routes, ipv6Routes) && Shows(w, s);
  }

  /** An enabled default route that is active, reported reachable, and leaves through a running interface. */
  ghost predicate Carries(r: Route, name: string, interfaces: seq<Interface>, routes: seq<Route>,
      ipv6Routes: seq<Route>)
  {
    && EnabledDefault(r, routes, ipv6Routes) && LeavesThrough(r, name)
    && r.active && ReportedReachable(r) && InterfaceRuns(interfaces, name)
  }

  lemma LiveMeans(r: Route, name: string, interfaces: seq<Interface>, routes: seq<Route>, ipv6Routes: seq<Route>)
    ensures Live(r, interfaces, routes, ipv6Routes) && Egress(r) == name
       <==> Carries(r, name, interfaces, routes, ipv6Routes)
  {
    CandidateMeans(r, routes, ipv6Routes);
    FoundRuns(interfaces, name);
  }

  /**
   * A WAN is marked primary exactly when some route carries traffic; it is the first of the list, the
   * only one marked, some such route leaves through it at its distance, and no other such route has a
   * smaller distance.
   */
  lemma PrimaryAsDescribed(interfaces: seq<Interface>, routes: seq<Route>, ipv6Routes: seq<Route>)
    ensures var wans := Resolve(interfaces, routes, ipv6Routes);
      && (wans != [] && wans[0].isPrimary
          <==> exists r, name :: Carries(r, name, interfaces, routes, ipv6Routes))
      && (forall i :: 0 < i < |wans| ==> !wans[i].isPrimary)
      && (wans != [] && wans[0].isPrimary ==>
            && (exists r :: Carries(r, wans[0].name, interfaces, routes, ipv6Routes)
                            && r.distance == wans[0].distance)
            && forall r, name :: Carries(r, name, interfaces, routes, ipv6Routes) ==> wans[0].distance <= r.distance)
  {
    var wans := Resolve(interfaces, routes, ipv6Routes);
    PrimaryExactly(interfaces, routes, ipv6Routes);
    forall r, name ensures Live(r, interfaces, routes, ipv6Routes) && Egress(r) == name
      <==> Carries(r, name, interfaces, routes, ipv6Routes)
    {
      LiveMeans(r, name, interfaces, routes, ipv6Routes);
    }
    if r :| Live(r, interfaces, routes, ipv6Routes) {
      assert Carries(r, Egress(r), interfaces, routes, ipv6Routes);
    }
    if r, name :| Carries(r, name, interfaces, routes, ipv6Routes) {
      assert Live(r, interfaces, routes, ipv6Routes);
      var i :| 0 <= i < |wans| && wans[i].isPrimary;
      assert i == 0;
    }
  }

  /** `w` may stand before `v`: primary first, then online before offline, then by distance and name. */
  ghost predicate MayPrecede(w: Wan, v: Wan) {
    if w.isPrimary != v.isPrimary then w.isPrimary
    else if !w.isPrimary && w.online != v.online then w.online
    else if w.distance != v.distance then w.distance < v.distance
    else exists k: nat :: TextFirst(w.name, v.name, k)
  }

  /** The list is in display order. */
  lemma DisplayAsDescribed(interfaces: seq<Interface>, routes: seq<Route>, ipv6Routes: seq<Route>)
    ensures var wans := Resolve(interfaces, routes, ipv6Routes);
      forall i, j :: 0 <= i < j < |wans| ==> MayPrecede(wans[i], wans[j])
  {
    var wans := Resolve(interfaces, routes, ipv6Routes);
    DisplayOrder(interfaces, routes, ipv6Routes);
    forall i, j | 0 <= i < j < |wans| ensures MayPrecede(wans[i], wans[j]) {
      assert Leq(DisplayKey(wans[i]), DisplayKey(wans[j]));
      TextOrder(wans[i].name, wans[j].name);
    }
  }
}
