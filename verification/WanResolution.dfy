/** Which WANs a router has, and which is primary, worked out from its routing tables. */
module WanResolution {
  import opened Outcomes
  import opened SortKeys
  import opened TextForms

  /** `gatewayIsIp` is whether the gateway text parses as an IP address. */
  datatype Route = Route(id: string, dstAddress: string, gateway: string, gatewayIsIp: bool, gatewayStatus: string,
                         interface: string, active: bool, disabled: bool, distance: nat)

  datatype Interface = Interface(name: string, running: bool)

  datatype Wan = Wan(name: string, gateway: string, online: bool, isPrimary: bool, routeActive: bool,
                     routeReachable: bool, distance: nat, iface: Option<Interface>)

  datatype Key = ByGateway(gateway: string) | ByInterface(name: string)

  datatype Progress = Progress(seen: set<Key>, wans: seq<Wan>)

  const V4_DEFAULT := "0.0.0.0/0"
  const V6_DEFAULT := "::/0"

  predicate IsLetter(c: char) { 'a' <= c <= 'z' || 'A' <= c <= 'Z' }

  /** Some maximal run of letters of `word + rest` that is not over yet reads "reachable". */
  predicate SomeWordReachable(word: string, rest: string)
    decreases |rest|
  {
    if rest == "" then Lower(word) == "reachable"
    else if IsLetter(rest[0]) then SomeWordReachable(word + [rest[0]], rest[1..])
    else Lower(word) == "reachable" || SomeWordReachable("", rest[1..])
  }

  predicate IsReachable(r: Route) {
    SomeWordReachable("", r.gatewayStatus)
  }

  function StateRank(active: bool, reachable: bool): nat {
    if active && reachable then 0 else if reachable then 1 else 2
  }

  function RouteKey(r: Route): SortKey {
    SortKey(StateRank(r.active, IsReachable(r)), r.distance, r.id)
  }

  /** Tunnels carry the interface name in the gateway field. */
  function Egress(r: Route): string {
    if r.interface == "" && !r.gatewayIsIp then r.gateway else r.interface
  }

  function SeenKey(name: string, gateway: string): Key {
    if name == "" then ByGateway(gateway) else ByInterface(name)
  }

  predicate IsDefault(r: Route, destination: string) {
    r.dstAddress == destination && !r.disabled && r.gateway != ""
  }

  function Defaults(routes: seq<Route>, destination: string): seq<Route> {
    if routes == [] then []
    else (if IsDefault(routes[0], destination) then [routes[0]] else []) + Defaults(routes[1..], destination)
  }

  function FindInterface(interfaces: seq<Interface>, name: string): Option<Interface> {
    if interfaces == [] then None
    else if interfaces[0].name == name then Some(interfaces[0])
    else FindInterface(interfaces[1..], name)
  }

  predicate Runs(iface: Option<Interface>) { iface.Some? && iface.value.running }

  function NewWan(r: Route, gateway: string, interfaces: seq<Interface>): Wan {
    var iface := FindInterface(interfaces, Egress(r));
    Wan(Egress(r), gateway, IsReachable(r) && Runs(iface), false, r.active, IsReachable(r), r.distance, iface)
  }

  const NO_GATEWAY := "—"

  /** One IPv4 default route, in sorted order: the first per interface or bare gateway makes a WAN. */
  function AddV4(p: Progress, r: Route, interfaces: seq<Interface>): Progress {
    var key := SeenKey(Egress(r), r.gateway);
    if key in p.seen then p
    else Progress(p.seen + {key}, p.wans + [NewWan(r, r.gateway, interfaces)])
  }

  /** The first WAN of that name, or -1. */
  function FindWan(wans: seq<Wan>, name: string): (k: int)
    ensures -1 <= k < |wans|
    ensures k == -1 ==> forall i :: 0 <= i < |wans| ==> wans[i].name != name
    ensures k >= 0 ==> wans[k].name == name && forall i :: 0 <= i < k ==> wans[i].name != name
  {
    if wans == [] then -1
    else if wans[0].name == name then 0
    else
      var k := FindWan(wans[1..], name);
      if k == -1 then -1 else k + 1
  }

  /** A better IPv6 route takes over the WAN's state; a reachable one can bring it online. */
  function MergeV6(w: Wan, r: Route): Wan {
    var merged :=
      if Less(RouteKey(r), SortKey(StateRank(w.routeActive, w.routeReachable), w.distance, "")) then
        w.(routeActive := r.active, routeReachable := IsReachable(r), distance := r.distance)
      else w;
    merged.(online := w.online || (IsReachable(r) && Runs(w.iface)))
  }

  function AddV6(p: Progress, r: Route, interfaces: seq<Interface>): Progress {
    var k := FindWan(p.wans, Egress(r));
    var key := SeenKey(Egress(r), r.gateway);
    if k >= 0 then p.(wans := p.wans[k := MergeV6(p.wans[k], r)])
    else if key in p.seen then p
    else Progress(p.seen + {key}, p.wans + [NewWan(r, NO_GATEWAY, interfaces)])
  }

  function AddAllV4(p: Progress, routes: seq<Route>, interfaces: seq<Interface>): Progress
    decreases |routes|
  {
    if routes == [] then p else AddAllV4(AddV4(p, routes[0], interfaces), routes[1..], interfaces)
  }

  function AddAllV6(p: Progress, routes: seq<Route>, interfaces: seq<Interface>): Progress
    decreases |routes|
  {
    if routes == [] then p else AddAllV6(AddV6(p, routes[0], interfaces), routes[1..], interfaces)
  }

  predicate CanBePrimary(w: Wan) { w.routeActive && w.routeReachable && w.online }

  function PrimaryKey(w: Wan): SortKey { SortKey(0, w.distance, w.name) }

  function MarkPrimary(wans: seq<Wan>): seq<Wan> {
    var k := FirstLeast(wans, CanBePrimary, PrimaryKey);
    if k == -1 then wans else wans[k := wans[k].(isPrimary := true)]
  }

  function DisplayKey(w: Wan): SortKey {
    SortKey(if w.isPrimary then 0 else if w.online then 1 else 2, w.distance, w.name)
  }

  function Collected(interfaces: seq<Interface>, routes: seq<Route>, ipv6Routes: seq<Route>): seq<Wan> {
    var v4 := SortByKey(Defaults(routes, V4_DEFAULT), RouteKey);
    var v6 := SortByKey(Defaults(ipv6Routes, V6_DEFAULT), RouteKey);
    AddAllV6(AddAllV4(Progress({}, []), v4, interfaces), v6, interfaces).wans
  }

  function Resolve(interfaces: seq<Interface>, routes: seq<Route>, ipv6Routes: seq<Route>): seq<Wan> {
    SortByKey(MarkPrimary(Collected(interfaces, routes, ipv6Routes)), DisplayKey)
  }

  method CollectV4(v4: seq<Route>, interfaces: seq<Interface>) returns (seen: set<Key>, wans: seq<Wan>)
    ensures Progress(seen, wans) == AddAllV4(Progress({}, []), v4, interfaces)
  {
    seen, wans := {}, [];
    for i := 0 to |v4|
      invariant AddAllV4(Progress({}, []), v4, interfaces) == AddAllV4(Progress(seen, wans), v4[i..], interfaces)
    {
      assert v4[i..][1..] == v4[i + 1..];
      var r := v4[i];
      var key := SeenKey(Egress(r), r.gateway);
      if key !in seen {
        seen := seen + {key};
        wans := wans + [NewWan(r, r.gateway, interfaces)];
      }
    }
  }

  /** The WAN's fields as an IPv6 route on it updates them. */
  method UpdateWan(existing: Wan, r: Route) returns (w: Wan)
    ensures w == MergeV6(existing, r)
  {
    w := existing;
    if Less(RouteKey(r), SortKey(StateRank(w.routeActive, w.routeReachable), w.distance, "")) {
      w := w.(routeActive := r.active, routeReachable := IsReachable(r), distance := r.distance);
    }
    w := w.(online := w.online || (IsReachable(r) && Runs(w.iface)));
  }

  method CollectV6(start: Progress, v6: seq<Route>, interfaces: seq<Interface>) returns (wans: seq<Wan>)
    ensures wans == AddAllV6(start, v6, interfaces).wans
  {
    var seen := start.seen;
    wans := start.wans;
    for i := 0 to |v6|
      invariant AddAllV6(start, v6, interfaces) == AddAllV6(Progress(seen, wans), v6[i..], interfaces)
    {
      assert v6[i..][1..] == v6[i + 1..];
      var r := v6[i];
      var k := FindWan(wans, Egress(r));
      if k >= 0 {
        var merged := UpdateWan(wans[k], r);
        wans := wans[k := merged];
      } else {
        var key := SeenKey(Egress(r), r.gateway);
        if key !in seen {
          seen := seen + {key};
          wans := wans + [NewWan(r, NO_GATEWAY, interfaces)];
        }
      }
    }
  }

  method ChoosePrimary(wans: seq<Wan>) returns (best: int)
    ensures best == FirstLeast(wans, CanBePrimary, PrimaryKey)
  {
    best := -1;
    for i := 0 to |wans|
      invariant best == FirstLeast(wans[..i], CanBePrimary, PrimaryKey)
    {
      assert wans[..i + 1][..i] == wans[..i];
      if CanBePrimary(wans[i]) && (best == -1 || Less(PrimaryKey(wans[i]), PrimaryKey(wans[best]))) {
        best := i;
      }
    }
    assert wans[..|wans|] == wans;
  }

  method ResolveAllWans(interfaces: seq<Interface>, routes: seq<Route>, ipv6Routes: seq<Route>)
    returns (wans: seq<Wan>)
    ensures wans == Resolve(interfaces, routes, ipv6Routes)
  {
    var seen;
    seen, wans := CollectV4(SortByKey(Defaults(routes, V4_DEFAULT), RouteKey), interfaces);
    wans := CollectV6(Progress(seen, wans), SortByKey(Defaults(ipv6Routes, V6_DEFAULT), RouteKey), interfaces);
    var primary := ChoosePrimary(wans);
    if primary >= 0 {
      wans := wans[primary := wans[primary].(isPrimary := true)];
    }
    wans := SortByKey(wans, DisplayKey);
  }
}
