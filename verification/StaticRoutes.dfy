/** The static-route resolver: a bounded, cycle-checked trace from router to
    router towards whoever owns a destination. */
module StaticRoutes {
  import opened Amounts
  import opened Bpf
  import opened Options
  import opened Ip
  import opened Neutron

  const DEFAULT_MAX_HOPS := 16

  datatype Spot = Spot(subnetId: string, addr: Addr)

  datatype Index = Index(
    routers: map<string, Router>, subnets: map<string, Subnet>, networks: map<string, Network>,
    routerSubnets: map<string, seq<string>>, portAt: map<Spot, Port>, maxHops: nat)
  {
    /** Each router is filed under its own id. */
    ghost predicate Valid() { forall id :: id in routers ==> routers[id].id == id }

    function SubnetsOf(routerId: string): seq<string> {
      if routerId in routerSubnets then routerSubnets[routerId] else []
    }
  }

  datatype Ambiguity = Ambiguity(routerId: string, owners: seq<string>)

  /** How a trace ends. All but Resolved are recorded as EXTERNAL; Exhausted and
      Unresolvable leave no incident. */
  datatype Outcome =
    | Resolved(zone: ZoneCode)
    | Ambiguous(hit: Ambiguity)
    | Cycle(loopRouter: string)
    | Exhausted
    | Unresolvable

  function ZoneOf(o: Outcome): ZoneCode { if o.Resolved? then o.zone else External }

  /** Shared beats owner, external beats both. */
  function ZoneFor(owner: string, source: string, n: Network): ZoneCode {
    if n.isExternal then External
    else if n.shared then Shared
    else if owner == source then SameTenant
    else OtherTenant
  }

  /** cidr covers all of dst. */
  predicate Covers(cidr: Option<Prefix>, dst: Prefix) {
    cidr.Some? && cidr.value.bits <= dst.bits && Contains(cidr.value, dst.addr)
  }

  // ---------------------------------------------------------------------
  // The three scans
  // ---------------------------------------------------------------------

  /** An interface subnet of the router that holds the nexthop. */
  predicate Anchors(ri: Index, sid: string, nexthop: Addr) {
    sid in ri.subnets && ri.subnets[sid].isV4 && ri.subnets[sid].cidr.Some?
        && Contains(ri.subnets[sid].cidr.value, nexthop)
  }

  function FirstAnchor(ri: Index, sids: seq<string>, nexthop: Addr): (r: Option<Subnet>)
    ensures r.Some? ==> exists i :: 0 <= i < |sids| && Anchors(ri, sids[i], nexthop) && r.value == ri.subnets[sids[i]]
  {
    if sids == [] then None
    else if Anchors(ri, sids[0], nexthop) then Some(ri.subnets[sids[0]])
    else
      var r := FirstAnchor(ri, sids[1..], nexthop);
      assert forall i :: 0 <= i < |sids| - 1 ==> sids[1..][i] == sids[i + 1];
      r
  }

  method AnchorSubnet(ri: Index, routerId: string, nexthop: Addr) returns (r: Option<Subnet>)
    ensures r == FirstAnchor(ri, ri.SubnetsOf(routerId), nexthop)
  {
    var sids := ri.SubnetsOf(routerId);
    var i := 0;
    while i < |sids|
      invariant 0 <= i <= |sids|
      invariant FirstAnchor(ri, sids, nexthop) == FirstAnchor(ri, sids[i..], nexthop)
    {
      if Anchors(ri, sids[i], nexthop) {
        return Some(ri.subnets[sids[i]]);
      }
      i := i + 1;
    }
    return None;
  }

  /** The longest covering route, the first of its length. */
  function BestRoute(routes: seq<Route>, dst: Prefix): Option<Route> {
    if routes == [] then None
    else
      var best, last := BestRoute(routes[..|routes| - 1], dst), routes[|routes| - 1];
      if Covers(last.destination, dst) && last.destination.value.bits > RouteBits(best) then Some(last) else best
  }

  function RouteBits(r: Option<Route>): int {
    if r.Some? && r.value.destination.Some? then r.value.destination.value.bits else -1
  }

  /** What the longest-match scan promises. */
  lemma {:induction false} BestRouteIsLongest(routes: seq<Route>, dst: Prefix)
    ensures var b := BestRoute(routes, dst);
            && (b.None? <==> forall i :: 0 <= i < |routes| ==> !Covers(routes[i].destination, dst))
            && (b.Some? ==> b.value in routes && Covers(b.value.destination, dst))
            && forall i :: 0 <= i < |routes| && Covers(routes[i].destination, dst) ==>
                 routes[i].destination.value.bits <= RouteBits(b)
  {
    if routes != [] {
      var n := |routes| - 1;
      BestRouteIsLongest(routes[..n], dst);
      assert routes == routes[..n] + [routes[n]];
    }
  }

  method LpmMatchRoute(routes: seq<Route>, dst: Prefix) returns (best: Option<Route>)
    ensures best == BestRoute(routes, dst)
  {
    best := None;
    var bestBits: int := -1;
    var i := 0;
    while i < |routes|
      invariant 0 <= i <= |routes|
      invariant best == BestRoute(routes[..i], dst) && bestBits == RouteBits(best)
    {
      var r := routes[i];
      assert routes[..i + 1][..i] == routes[..i];
      if Covers(r.destination, dst) && r.destination.value.bits > bestBits {
        bestBits := r.destination.value.bits;
        best := Some(r);
      }
      i := i + 1;
    }
    assert routes[..i] == routes;
  }

  /** An attached subnet, on another network than the one entered through, that
      covers the destination and whose network is known. */
  predicate Attached(ri: Index, sid: string, entered: Subnet, dst: Prefix) {
    && sid in ri.subnets && ri.subnets[sid].isV4 && ri.subnets[sid].networkId != entered.networkId
    && Covers(ri.subnets[sid].cidr, dst) && ri.subnets[sid].networkId in ri.networks
  }

  /** The networks of the attached covering subnets, in interface order. */
  function Candidates(ri: Index, sids: seq<string>, entered: Subnet, dst: Prefix): seq<Network> {
    if sids == [] then []
    else
      var init, sid := Candidates(ri, sids[..|sids| - 1], entered, dst), sids[|sids| - 1];
      if Attached(ri, sid, entered, dst) then init + [ri.networks[ri.subnets[sid].networkId]] else init
  }

  /** The distinct owners among networks, in first-seen order. */
  function Owners(ns: seq<Network>): seq<string> {
    if ns == [] then []
    else
      var init, p := Owners(ns[..|ns| - 1]), ns[|ns| - 1].projectId;
      if p in init then init else init + [p]
  }

  function AtRouter(ri: Index, next: Router, entered: Subnet, dst: Prefix, source: string): Option<Outcome> {
    var ns := Candidates(ri, ri.SubnetsOf(next.id), entered, dst);
    if ns == [] then None
    else if |Owners(ns)| > 1 then Some(Ambiguous(Ambiguity(next.id, Owners(ns))))
    else Some(Resolved(ZoneFor(ns[0].projectId, source, ns[0])))
  }

  lemma AtRouterIs(ri: Index, next: Router, entered: Subnet, dst: Prefix, source: string, ns: seq<Network>)
    requires ns == Candidates(ri, ri.SubnetsOf(next.id), entered, dst)
    ensures |ns| == 0 ==> AtRouter(ri, next, entered, dst, source) == None
    ensures |ns| > 0 && |Owners(ns)| > 1 ==>
              AtRouter(ri, next, entered, dst, source) == Some(Ambiguous(Ambiguity(next.id, Owners(ns))))
    ensures |ns| > 0 && |Owners(ns)| <= 1 ==>
              AtRouter(ri, next, entered, dst, source) == Some(Resolved(ZoneFor(ns[0].projectId, source, ns[0])))
  {
    hide Candidates, Owners, ZoneFor;
  }

  lemma AttachedKnown(ri: Index, sid: string, entered: Subnet, dst: Prefix)
    requires Attached(ri, sid, entered, dst)
    ensures sid in ri.subnets && ri.subnets[sid].networkId in ri.networks
  {
  }

  lemma CandidatesSnoc(ri: Index, sids: seq<string>, sid: string, entered: Subnet, dst: Prefix)
    ensures Attached(ri, sid, entered, dst) ==>
              && sid in ri.subnets && ri.subnets[sid].networkId in ri.networks
              && Candidates(ri, sids + [sid], entered, dst)
                 == Candidates(ri, sids, entered, dst) + [ri.networks[ri.subnets[sid].networkId]]
    ensures !Attached(ri, sid, entered, dst) ==>
              Candidates(ri, sids + [sid], entered, dst) == Candidates(ri, sids, entered, dst)
  {
    assert (sids + [sid])[..|sids|] == sids;
  }

  lemma OwnersSnoc(ns: seq<Network>, n: Network)
    ensures Owners(ns + [n]) == if n.projectId in Owners(ns) then Owners(ns) else Owners(ns) + [n.projectId]
  {
    assert (ns + [n])[..|ns|] == ns;
  }

  method ResolveAtNextRouter(ri: Index, next: Router, entered: Subnet, dst: Prefix, source: string)
      returns (r: Option<Outcome>)
    ensures r == AtRouter(ri, next, entered, dst, source)
  {
    var sids := ri.SubnetsOf(next.id);
    var matchedNet: Option<Network> := None;
    var owners: seq<string> := [];
    var i := 0;
    ghost var ns: seq<Network> := [];
    assert sids[..0] == [] && Candidates(ri, [], entered, dst) == [] && Owners([]) == [];
    hide Candidates, Owners, Attached, ZoneFor, AtRouter, Covers, Contains;
    while i < |sids|
      invariant 0 <= i <= |sids|
      invariant ns == Candidates(ri, sids[..i], entered, dst)
      invariant owners == Owners(ns)
      invariant matchedNet.None? <==> |ns| == 0
      invariant |ns| > 0 ==> matchedNet.value == ns[0]
    {
      var sid := sids[i];
      assert sids[..i + 1] == sids[..i] + [sid];
      CandidatesSnoc(ri, sids[..i], sid, entered, dst);
      if Attached(ri, sid, entered, dst) {
        AttachedKnown(ri, sid, entered, dst);
        var n := ri.networks[ri.subnets[sid].networkId];
        if matchedNet.None? {
          matchedNet := Some(n);
        }
        if n.projectId !in owners {
          owners := owners + [n.projectId];
        }
        OwnersSnoc(ns, n);
        ns := ns + [n];
      }
      i := i + 1;
    }
    assert sids[..i] == sids;
    AtRouterIs(ri, next, entered, dst, source, ns);
    if matchedNet.None? {
      return None;
    }
    if |owners| > 1 {
      return Some(Ambiguous(Ambiguity(next.id, owners)));
    }
    return Some(Resolved(ZoneFor(matchedNet.value.projectId, source, matchedNet.value)));
  }

  /** Every candidate comes from an attached covering subnet. */
  lemma {:induction false} CandidatesAttached(ri: Index, sids: seq<string>, entered: Subnet, dst: Prefix, j: nat)
    requires j < |Candidates(ri, sids, entered, dst)|
    ensures exists i :: 0 <= i < |sids| && Attached(ri, sids[i], entered, dst)
                        && ri.networks[ri.subnets[sids[i]].networkId] == Candidates(ri, sids, entered, dst)[j]
  {
    var n := |sids| - 1;
    if j < |Candidates(ri, sids[..n], entered, dst)| {
      CandidatesAttached(ri, sids[..n], entered, dst, j);
      var i :| 0 <= i < n && Attached(ri, sids[..n][i], entered, dst)
               && ri.networks[ri.subnets[sids[..n][i]].networkId] == Candidates(ri, sids[..n], entered, dst)[j];
      assert sids[i] == sids[..n][i];
    } else {
      assert Attached(ri, sids[n], entered, dst);
    }
  }

  /** And every attached covering subnet gives one. */
  lemma {:induction false} AttachedIsCandidate(ri: Index, sids: seq<string>, entered: Subnet, dst: Prefix, i: nat)
    requires i < |sids| && Attached(ri, sids[i], entered, dst)
    ensures ri.networks[ri.subnets[sids[i]].networkId] in Candidates(ri, sids, entered, dst)
  {
    hide Attached;
    if i < |sids| - 1 {
      AttachedIsCandidate(ri, sids[..|sids| - 1], entered, dst, i);
    }
  }

  /** With a single owner listed, every candidate has it. */
  lemma {:induction false} OneOwner(ns: seq<Network>)
    ensures forall i :: 0 <= i < |ns| ==> ns[i].projectId in Owners(ns)
    ensures ns != [] ==> Owners(ns) != []
  {
    if ns != [] {
      OneOwner(ns[..|ns| - 1]);
    }
  }

  // ---------------------------------------------------------------------
  // The trace
  // ---------------------------------------------------------------------

  datatype Hop = Dead | ToVm(port: Port, net: Network) | ToRouter(next: Router, via: Subnet)

  /** Who sits at the nexthop, seen from the router's interfaces. */
  function HopFrom(ri: Index, routerId: string, nexthop: Addr): Hop {
    match FirstAnchor(ri, ri.SubnetsOf(routerId), nexthop)
    case None => Dead
    case Some(s) =>
      if Spot(s.id, nexthop) !in ri.portAt then Dead
      else
        var port := ri.portAt[Spot(s.id, nexthop)];
        if port.deviceOwner == ROUTER_INTERFACE then
          if port.deviceId in ri.routers then ToRouter(ri.routers[port.deviceId], s) else Dead
        else if IsComputePort(port.deviceOwner) then
          if s.networkId in ri.networks then ToVm(port, ri.networks[s.networkId]) else Dead
        else Dead
  }

  /** What is settled on entering a router, or where the trace goes on from it. */
  function Onward(ri: Index, next: Router, via: Subnet, dst: Prefix, source: string,
                  visited: set<string>): (r: (Option<Outcome>, Addr)) {
    if next.id in visited then (Some(Cycle(next.id)), 0)
    else
      match AtRouter(ri, next, via, dst, source)
      case Some(o) => (Some(o), 0)
      case None =>
        match BestRoute(next.routes, dst)
        case None => (Some(Unresolvable), 0)
        case Some(route) => if route.nexthop.None? then (Some(Unresolvable), 0) else (None, route.nexthop.value)
  }

  function Trace(ri: Index, source: string, dst: Prefix, routerId: string, nexthop: Addr, visited: set<string>,
                 hops: nat): Outcome
    decreases hops
  {
    if hops == 0 then Exhausted
    else
      match HopFrom(ri, routerId, nexthop)
      case Dead => Unresolvable
      case ToVm(port, net) => Resolved(ZoneFor(port.projectId, source, net))
      case ToRouter(next, via) =>
        var (done, nh) := Onward(ri, next, via, dst, source, visited);
        if done.Some? then done.value
        else Trace(ri, source, dst, next.id, nh, visited + {next.id}, hops - 1)
  }

  /** The routers a trace enters, in order. */
  function Entered(ri: Index, source: string, dst: Prefix, routerId: string, nexthop: Addr, visited: set<string>,
                   hops: nat): seq<string>
    decreases hops
  {
    if hops == 0 then []
    else
      match HopFrom(ri, routerId, nexthop)
      case Dead => []
      case ToVm(_, _) => []
      case ToRouter(next, via) =>
        if next.id in visited then []
        else
          var (done, nh) := Onward(ri, next, via, dst, source, visited);
          if done.Some? then [next.id]
          else [next.id] + Entered(ri, source, dst, next.id, nh, visited + {next.id}, hops - 1)
  }

  /** resolveStaticRouteZone. path lists the routers entered, the start first. */
  method ResolveStaticRouteZone(ri: Index, r: Router, dst: Prefix, initialNexthop: Addr)
      returns (o: Outcome, ghost path: seq<string>)
    ensures o == Trace(ri, r.projectId, dst, r.id, initialNexthop, {r.id}, ri.maxHops)
    ensures path == [r.id] + Entered(ri, r.projectId, dst, r.id, initialNexthop, {r.id}, ri.maxHops)
  {
    hide FirstAnchor, BestRoute, AtRouter, ZoneFor, IsComputePort, Trace, Entered;
    var source := r.projectId;
    var currentRouter, currentNexthop := r.id, initialNexthop;
    var visited := {r.id};
    var hop := 0;
    path := [r.id];
    ghost var whole := [r.id] + Entered(ri, source, dst, r.id, initialNexthop, {r.id}, ri.maxHops);
    while hop < ri.maxHops
      invariant 0 <= hop <= ri.maxHops
      invariant Trace(ri, source, dst, currentRouter, currentNexthop, visited, ri.maxHops - hop)
                == Trace(ri, source, dst, r.id, initialNexthop, {r.id}, ri.maxHops)
      invariant path + Entered(ri, source, dst, currentRouter, currentNexthop, visited, ri.maxHops - hop) == whole
    {
      TraceStep(ri, source, dst, currentRouter, currentNexthop, visited, ri.maxHops - hop);
      var anchor := AnchorSubnet(ri, currentRouter, currentNexthop);
      if anchor.None? {
        return Unresolvable, path;
      }
      var iface := anchor.value;
      if Spot(iface.id, currentNexthop) !in ri.portAt {
        return Unresolvable, path;
      }
      var port := ri.portAt[Spot(iface.id, currentNexthop)];
      if port.deviceOwner == ROUTER_INTERFACE {
        if port.deviceId !in ri.routers {
          return Unresolvable, path;
        }
        var next := ri.routers[port.deviceId];
        if next.id in visited {
          return Cycle(next.id), path;
        }
        ghost var before := visited;
        visited := visited + {next.id};
        path := path + [next.id];
        var settled := ResolveAtNextRouter(ri, next, iface, dst, source);
        if settled.Some? {
          return settled.value, path;
        }
        var route := LpmMatchRoute(next.routes, dst);
        if route.None? || route.value.nexthop.None? {
          return Unresolvable, path;
        }
        currentRouter := next.id;
        currentNexthop := route.value.nexthop.value;
      } else if IsComputePort(port.deviceOwner) {
        if iface.networkId !in ri.networks {
          return Unresolvable, path;
        }
        return Resolved(ZoneFor(port.projectId, source, ri.networks[iface.networkId])), path;
      } else {
        return Unresolvable, path;
      }
      hop := hop + 1;
    }
    TraceEnds(ri, source, dst, currentRouter, currentNexthop, visited);
    return Exhausted, path;
  }

  lemma TraceEnds(ri: Index, source: string, dst: Prefix, routerId: string, nexthop: Addr, visited: set<string>)
    ensures Trace(ri, source, dst, routerId, nexthop, visited, 0) == Exhausted
    ensures Entered(ri, source, dst, routerId, nexthop, visited, 0) == []
  {
  }

  /** One hop of a trace. */
  lemma TraceStep(ri: Index, source: string, dst: Prefix, routerId: string, nexthop: Addr, visited: set<string>,
                  hops: nat)
    requires hops > 0
    ensures var h, o := HopFrom(ri, routerId, nexthop), Trace(ri, source, dst, routerId, nexthop, visited, hops);
            var p := Entered(ri, source, dst, routerId, nexthop, visited, hops);
            match h
            case Dead => o == Unresolvable && p == []
            case ToVm(port, net) => o == Resolved(ZoneFor(port.projectId, source, net)) && p == []
            case ToRouter(next, via) =>
              var (done, nh) := Onward(ri, next, via, dst, source, visited);
              if next.id in visited then o == Cycle(next.id) && p == []
              else if done.Some? then o == done.value && p == [next.id]
              else o == Trace(ri, source, dst, next.id, nh, visited + {next.id}, hops - 1)
                   && p == [next.id] + Entered(ri, source, dst, next.id, nh, visited + {next.id}, hops - 1)
  {
    hide HopFrom, AtRouter, BestRoute, ZoneFor;
  }

  // ---------------------------------------------------------------------
  // What the trace guarantees
  // ---------------------------------------------------------------------

  /** A list of distinct real routers, none of them in visited. */
  ghost predicate FreshRouters(ri: Index, p: seq<string>, visited: set<string>) {
    && (forall i, j :: 0 <= i < j < |p| ==> p[i] != p[j])
    && (forall i :: 0 <= i < |p| ==> p[i] !in visited && p[i] in ri.routers)
  }

  /** No router is entered twice, nor the start again, and all are real routers. */
  lemma {:induction false} NeverTwice(ri: Index, source: string, dst: Prefix, routerId: string, nexthop: Addr,
                                      visited: set<string>, hops: nat)
    requires ri.Valid()
    ensures FreshRouters(ri, Entered(ri, source, dst, routerId, nexthop, visited, hops), visited)
    decreases hops
  {
    if hops > 0 {
      var h := HopFrom(ri, routerId, nexthop);
      if h.ToRouter? && h.next.id !in visited {
        var (done, nh) := Onward(ri, h.next, h.via, dst, source, visited);
        if done.None? {
          NeverTwice(ri, source, dst, h.next.id, nh, visited + {h.next.id}, hops - 1);
          FreshCons(ri, h.next.id, Entered(ri, source, dst, h.next.id, nh, visited + {h.next.id}, hops - 1), visited);
        }
      }
    }
  }

  lemma FreshCons(ri: Index, id: string, rest: seq<string>, visited: set<string>)
    requires id in ri.routers && id !in visited && FreshRouters(ri, rest, visited + {id})
    ensures FreshRouters(ri, [id] + rest, visited)
  {
  }

  /** With at least as many hops as there are routers the limit is never reached. */
  lemma {:induction false} EnoughHopsNeverExhaust(ri: Index, source: string, dst: Prefix, routerId: string,
                                                  nexthop: Addr, visited: set<string>, hops: nat)
    requires ri.Valid() && visited <= ri.routers.Keys && |visited| + hops > |ri.routers|
    ensures Trace(ri, source, dst, routerId, nexthop, visited, hops) != Exhausted
    decreases hops
  {
    hide Onward, AtRouter;
    SubsetSize(visited, ri.routers.Keys);
    var h := HopFrom(ri, routerId, nexthop);
    if h.ToRouter? {
      OnwardNeverExhausts(ri, h.next, h.via, dst, source, visited);
      var (done, nh) := Onward(ri, h.next, h.via, dst, source, visited);
      if done.None? {
        EnoughHopsNeverExhaust(ri, source, dst, h.next.id, nh, visited + {h.next.id}, hops - 1);
      }
    }
  }

  lemma OnwardNeverExhausts(ri: Index, next: Router, via: Subnet, dst: Prefix, source: string, visited: set<string>)
    ensures Onward(ri, next, via, dst, source, visited).0 != Some(Exhausted)
    ensures next.id in visited ==> Onward(ri, next, via, dst, source, visited).0.Some?
  {
  }

  /** A limit that was not reached could as well have been higher. */
  lemma {:induction false} MoreHopsSameAnswer(ri: Index, source: string, dst: Prefix, routerId: string,
                                              nexthop: Addr, visited: set<string>, hops: nat, more: nat)
    requires hops <= more && Trace(ri, source, dst, routerId, nexthop, visited, hops) != Exhausted
    ensures Trace(ri, source, dst, routerId, nexthop, visited, more) ==
            Trace(ri, source, dst, routerId, nexthop, visited, hops)
    decreases hops
  {
    hide Onward;
    var h := HopFrom(ri, routerId, nexthop);
    if h.ToRouter? {
      var (done, nh) := Onward(ri, h.next, h.via, dst, source, visited);
      if done.None? {
        MoreHopsSameAnswer(ri, source, dst, h.next.id, nh, visited + {h.next.id}, hops - 1, more - 1);
      }
    }
  }

  // A real chain, said without reference to the trace.

  /** From a router, the nexthop lies on an attached subnet, where port answers. */
  ghost predicate Faces(ri: Index, routerId: string, nexthop: Addr, s: Subnet, port: Port) {
    && (exists i :: 0 <= i < |ri.SubnetsOf(routerId)| && Anchors(ri, ri.SubnetsOf(routerId)[i], nexthop)
                    && s == ri.subnets[ri.SubnetsOf(routerId)[i]])
    && Spot(s.id, nexthop) in ri.portAt && port == ri.portAt[Spot(s.id, nexthop)]
  }

  /** The destination is attached to the router, on a network other than the one
      entered through, and all such networks have one owner. */
  ghost predicate EndsAttached(ri: Index, next: Router, entered: Subnet, dst: Prefix, source: string, zone: ZoneCode) {
    exists i :: 0 <= i < |ri.SubnetsOf(next.id)| && Attached(ri, ri.SubnetsOf(next.id)[i], entered, dst)
                && var n := ri.networks[ri.subnets[ri.SubnetsOf(next.id)[i]].networkId];
                zone == ZoneFor(n.projectId, source, n) && SoleOwner(ri, next, entered, dst, n.projectId)
  }

  ghost predicate SoleOwner(ri: Index, next: Router, entered: Subnet, dst: Prefix, owner: string) {
    forall i :: 0 <= i < |ri.SubnetsOf(next.id)| && Attached(ri, ri.SubnetsOf(next.id)[i], entered, dst) ==>
      ri.networks[ri.subnets[ri.SubnetsOf(next.id)[i]].networkId].projectId == owner
  }

  /** A route of the router that covers the destination, no covering one being longer. */
  ghost predicate LongestRoute(routes: seq<Route>, route: Route, dst: Prefix) {
    && route in routes && Covers(route.destination, dst)
    && forall r :: r in routes && Covers(r.destination, dst) ==>
         r.destination.value.bits <= route.destination.value.bits
  }

  /** hops is a chain of routers, each reached from the one before through a port on
      a shared subnet and a longest-match route, ending where zone is decided. */
  ghost predicate Chain(ri: Index, source: string, dst: Prefix, routerId: string, nexthop: Addr, hops: seq<string>,
                        zone: ZoneCode)
    decreases |hops|
  {
    exists s, port :: Faces(ri, routerId, nexthop, s, port) &&
      if hops == [] then
        && IsComputePort(port.deviceOwner) && s.networkId in ri.networks
        && zone == ZoneFor(port.projectId, source, ri.networks[s.networkId])
      else
        && port.deviceOwner == ROUTER_INTERFACE && port.deviceId in ri.routers
           && ri.routers[port.deviceId].id == hops[0]
        && var next := ri.routers[port.deviceId];
        || (|hops| == 1 && EndsAttached(ri, next, s, dst, source, zone))
        || (exists route :: LongestRoute(next.routes, route, dst) && route.nexthop.Some?
                            && Chain(ri, source, dst, next.id, route.nexthop.value, hops[1..], zone))
  }

  /** Every zone the trace resolves is backed by a real chain: the routers entered,
      ending at a single-owner attached subnet covering the destination or at a
      compute port. In particular every SAME, OTHER or SHARED answer is. */
  lemma {:induction false} AnswersAreReal(ri: Index, source: string, dst: Prefix, routerId: string, nexthop: Addr,
                                          visited: set<string>, hops: nat)
    requires ri.Valid() && Trace(ri, source, dst, routerId, nexthop, visited, hops).Resolved?
    ensures var p := Entered(ri, source, dst, routerId, nexthop, visited, hops);
            Chain(ri, source, dst, routerId, nexthop, p, Trace(ri, source, dst, routerId, nexthop, visited, hops).zone)
    decreases hops
  {
    var h := HopFrom(ri, routerId, nexthop);
    HopFaces(ri, routerId, nexthop);
    if h.ToVm? {
      assert Entered(ri, source, dst, routerId, nexthop, visited, hops) == [];
    } else {
      var (done, nh) := Onward(ri, h.next, h.via, dst, source, visited);
      if done.Some? {
        assert Entered(ri, source, dst, routerId, nexthop, visited, hops) == [h.next.id];
        assert Trace(ri, source, dst, routerId, nexthop, visited, hops) ==
               AtRouter(ri, h.next, h.via, dst, source).value;
        hide Chain, Trace, Entered, HopFrom, Onward, AtRouter;
        ChainAttached(ri, source, dst, routerId, nexthop);
      } else {
        var rest := Entered(ri, source, dst, h.next.id, nh, visited + {h.next.id}, hops - 1);
        assert Entered(ri, source, dst, routerId, nexthop, visited, hops) == [h.next.id] + rest;
        AnswersAreReal(ri, source, dst, h.next.id, nh, visited + {h.next.id}, hops - 1);
        RouteTaken(ri, h.next, h.via, dst, source, visited);
        var route := BestRoute(h.next.routes, dst).value;
        var zone := Trace(ri, source, dst, h.next.id, nh, visited + {h.next.id}, hops - 1).zone;
        hide Chain, Trace, Entered, HopFrom, Onward, LongestRoute, Faces, BestRoute;
        ChainExtends(ri, source, dst, routerId, nexthop, h.next, h.via, route, rest, zone);
      }
    }
  }

  /** What sits at a live nexthop. */
  lemma HopFaces(ri: Index, routerId: string, nexthop: Addr)
    requires ri.Valid() && !HopFrom(ri, routerId, nexthop).Dead?
    ensures match HopFrom(ri, routerId, nexthop)
            case ToVm(port, net) => exists s :: Faces(ri, routerId, nexthop, s, port) && IsComputePort(port.deviceOwner)
                                                && s.networkId in ri.networks && net == ri.networks[s.networkId]
            case ToRouter(next, via) => ReachesRouter(ri, routerId, nexthop, next, via)
            case Dead => true
  {
    var s := FirstAnchor(ri, ri.SubnetsOf(routerId), nexthop).value;
    assert Faces(ri, routerId, nexthop, s, ri.portAt[Spot(s.id, nexthop)]);
  }

  /** The nexthop is an interface of next on via. */
  ghost predicate ReachesRouter(ri: Index, routerId: string, nexthop: Addr, next: Router, via: Subnet) {
    exists port :: Faces(ri, routerId, nexthop, via, port) && port.deviceOwner == ROUTER_INTERFACE
                   && port.deviceId in ri.routers && next == ri.routers[port.deviceId]
  }

  lemma RouteTaken(ri: Index, next: Router, via: Subnet, dst: Prefix, source: string, visited: set<string>)
    requires Onward(ri, next, via, dst, source, visited).0.None?
    ensures var route := BestRoute(next.routes, dst);
            && route.Some? && LongestRoute(next.routes, route.value, dst)
            && route.value.nexthop == Some(Onward(ri, next, via, dst, source, visited).1)
  {
    BestRouteIsLongest(next.routes, dst);
  }

  lemma ChainExtends(ri: Index, source: string, dst: Prefix, routerId: string, nexthop: Addr, next: Router, via: Subnet,
                     route: Route, rest: seq<string>, zone: ZoneCode)
    requires ri.Valid() && ReachesRouter(ri, routerId, nexthop, next, via)
    requires LongestRoute(next.routes, route, dst) && route.nexthop.Some?
    requires Chain(ri, source, dst, next.id, route.nexthop.value, rest, zone)
    ensures Chain(ri, source, dst, routerId, nexthop, [next.id] + rest, zone)
  {
    hide LongestRoute, Faces;
    assert ([next.id] + rest)[1..] == rest;
  }

  lemma ChainAttached(ri: Index, source: string, dst: Prefix, routerId: string, nexthop: Addr)
    requires ri.Valid()
    requires var h := HopFrom(ri, routerId, nexthop);
             h.ToRouter? && ReachesRouter(ri, routerId, nexthop, h.next, h.via)
             && AtRouter(ri, h.next, h.via, dst, source).Some?
                && AtRouter(ri, h.next, h.via, dst, source).value.Resolved?
    ensures var h := HopFrom(ri, routerId, nexthop);
            Chain(ri, source, dst, routerId, nexthop, [h.next.id], AtRouter(ri, h.next, h.via, dst, source).value.zone)
  {
    var h := HopFrom(ri, routerId, nexthop);
    AttachedAnswer(ri, h.next, h.via, dst, source);
    hide EndsAttached, AtRouter, HopFrom, Faces, LongestRoute;
  }

  lemma AttachedAnswer(ri: Index, next: Router, via: Subnet, dst: Prefix, source: string)
    requires AtRouter(ri, next, via, dst, source).Some? && AtRouter(ri, next, via, dst, source).value.Resolved?
    ensures EndsAttached(ri, next, via, dst, source, AtRouter(ri, next, via, dst, source).value.zone)
  {
    var sids := ri.SubnetsOf(next.id);
    var ns := Candidates(ri, sids, via, dst);
    CandidatesAttached(ri, sids, via, dst, 0);
    OneOwner(ns);
    assert |Owners(ns)| == 1;
    hide Attached, Owners, Candidates;
    forall i | 0 <= i < |sids| && Attached(ri, sids[i], via, dst)
      ensures ri.networks[ri.subnets[sids[i]].networkId].projectId == ns[0].projectId
    {
      AttachedIsCandidate(ri, sids, via, dst, i);
    }
    assert SoleOwner(ri, next, via, dst, ns[0].projectId);
  }

  /** In particular, from any router of the snapshot with a limit of at least the
      number of routers, the resolver never gives up on the limit. */
  lemma NoHopExhaustion(ri: Index, r: Router, dst: Prefix, nexthop: Addr)
    requires ri.Valid() && r.id in ri.routers && ri.maxHops >= |ri.routers|
    ensures Trace(ri, r.projectId, dst, r.id, nexthop, {r.id}, ri.maxHops) != Exhausted
  {
    hide Trace;
    EnoughHopsNeverExhaust(ri, r.projectId, dst, r.id, nexthop, {r.id}, ri.maxHops);
  }

  // ---------------------------------------------------------------------
  // Building the index
  // ---------------------------------------------------------------------

  /** Records filed by id. */
  function IndexBy<T>(rs: seq<T>, idOf: T -> string): map<string, T> {
    if rs == [] then map[] else IndexBy(rs[..|rs| - 1], idOf)[idOf(rs[|rs| - 1]) := rs[|rs| - 1]]
  }

  /** r is the last record of rs with its id. */
  ghost predicate IsLast<T(!new)>(rs: seq<T>, idOf: T -> string, r: T) {
    exists i :: 0 <= i < |rs| && rs[i] == r && forall j :: i < j < |rs| ==> idOf(rs[j]) != idOf(r)
  }

  /** m files, under each id that occurs, the last record with it. */
  ghost predicate FilesLast<T(!new)>(rs: seq<T>, idOf: T -> string, m: map<string, T>) {
    && (forall r :: r in rs ==> idOf(r) in m)
    && (forall id :: id in m ==> idOf(m[id]) == id && IsLast(rs, idOf, m[id]))
  }

  lemma {:induction false} IndexByFilesLast<T(!new)>(rs: seq<T>, idOf: T -> string)
    ensures FilesLast(rs, idOf, IndexBy(rs, idOf))
  {
    if rs != [] {
      var n := |rs| - 1;
      var init, last := rs[..n], rs[n];
      IndexByFilesLast(init, idOf);
      var m0, m := IndexBy(init, idOf), IndexBy(rs, idOf);
      assert rs == init + [last];
      forall id | id in m ensures idOf(m[id]) == id && IsLast(rs, idOf, m[id]) {
        if id == idOf(last) {
          assert rs[n] == m[id];
        } else {
          var i :| 0 <= i < n && init[i] == m0[id] && forall j :: i < j < n ==> idOf(init[j]) != id;
          assert rs[i] == m[id] && forall j :: i < j < |rs| ==> (if j < n then rs[j] == init[j] else rs[j] == last);
        }
      }
    }
  }

  function AddInterfaces(m: map<string, seq<string>>, deviceId: string, ips: seq<FixedIp>): map<string, seq<string>> {
    if ips == [] then m
    else
      var m1, f := AddInterfaces(m, deviceId, ips[..|ips| - 1]), ips[|ips| - 1];
      if f.subnetId == "" then m1
      else m1[deviceId := (if deviceId in m1 then m1[deviceId] else []) + [f.subnetId]]
  }

  function RouterSubnets(ps: seq<Port>): map<string, seq<string>> {
    if ps == [] then map[]
    else
      var m, p := RouterSubnets(ps[..|ps| - 1]), ps[|ps| - 1];
      if IsInterface(p) then AddInterfaces(m, p.deviceId, p.fixedIps) else m
  }

  predicate IsInterface(p: Port) { p.deviceOwner == ROUTER_INTERFACE && p.deviceId != "" }

  /** The subnets one port's addresses name, in order. */
  function NamedSubnets(ips: seq<FixedIp>): seq<string> {
    if ips == [] then []
    else
      var f := ips[|ips| - 1];
      NamedSubnets(ips[..|ips| - 1]) + if f.subnetId == "" then [] else [f.subnetId]
  }

  /** The subnets a router's interface ports name, port by port. */
  function InterfaceSubnets(ps: seq<Port>, routerId: string): seq<string> {
    if ps == [] then []
    else
      var p := ps[|ps| - 1];
      InterfaceSubnets(ps[..|ps| - 1], routerId) + if IsInterface(p)
          && p.deviceId == routerId then NamedSubnets(p.fixedIps) else []
  }

  function At(m: map<string, seq<string>>, id: string): seq<string> { if id in m then m[id] else [] }

  lemma {:induction false} AddInterfacesAt(m: map<string, seq<string>>, deviceId: string, ips: seq<FixedIp>, id: string)
    ensures At(AddInterfaces(m, deviceId, ips), id) == At(m, id) + if id == deviceId then NamedSubnets(ips) else []
  {
    if ips != [] {
      var init, f := ips[..|ips| - 1], ips[|ips| - 1];
      AddInterfacesAt(m, deviceId, init, id);
      if id == deviceId {
        assert At(m, id) + NamedSubnets(init) + [f.subnetId] == At(m, id) + (NamedSubnets(init) + [f.subnetId]);
      }
    }
  }

  lemma {:induction false} RouterSubnetsAt(ps: seq<Port>, id: string)
    ensures At(RouterSubnets(ps), id) == InterfaceSubnets(ps, id)
  {
    if ps != [] {
      var init, p := ps[..|ps| - 1], ps[|ps| - 1];
      RouterSubnetsAt(init, id);
      AddInterfacesAt(RouterSubnets(init), p.deviceId, p.fixedIps, id);
    }
  }

  function AddSpots(m: map<Spot, Port>, p: Port, ips: seq<FixedIp>): map<Spot, Port> {
    if ips == [] then m
    else
      var m1, f := AddSpots(m, p, ips[..|ips| - 1]), ips[|ips| - 1];
      if f.subnetId == "" || f.addr.None? then m1 else m1[Spot(f.subnetId, f.addr.value) := p]
  }

  function PortSpots(ps: seq<Port>): map<Spot, Port> {
    if ps == [] then map[] else AddSpots(PortSpots(ps[..|ps| - 1]), ps[|ps| - 1], ps[|ps| - 1].fixedIps)
  }

  /** p has the address on the subnet. */
  ghost predicate SitsAt(p: Port, at: Spot) {
    at.subnetId != "" && exists f :: f in p.fixedIps && f.subnetId == at.subnetId && f.addr == Some(at.addr)
  }

  lemma {:induction false} AddSpotsAt(m: map<Spot, Port>, p: Port, ips: seq<FixedIp>, at: Spot)
    ensures var m1 := AddSpots(m, p, ips);
            if SitsAt(p.(fixedIps := ips), at) then at in m1 && m1[at] == p
            else (at in m1 <==> at in m) && (at in m ==> m1[at] == m[at])
  {
    if ips != [] {
      var init, f := ips[..|ips| - 1], ips[|ips| - 1];
      assert ips == init + [f];
      AddSpotsAt(m, p, init, at);
    }
  }

  /** The port filed at a spot is the last one sitting there. */
  lemma {:induction false} PortSpotsLast(ps: seq<Port>, at: Spot)
    ensures at in PortSpots(ps) ==> exists i :: 0 <= i < |ps| && SitsAt(ps[i], at) && PortSpots(ps)[at] == ps[i]
                                               && forall j :: i < j < |ps| ==> !SitsAt(ps[j], at)
    ensures at !in PortSpots(ps) ==> forall i :: 0 <= i < |ps| ==> !SitsAt(ps[i], at)
  {
    if ps != [] {
      hide SitsAt;
      var n := |ps| - 1;
      var init, p := ps[..n], ps[n];
      assert ps == init + [p];
      PortSpotsLast(init, at);
      AddSpotsAt(PortSpots(init), p, p.fixedIps, at);
      assert p.(fixedIps := p.fixedIps) == p;
      if at in PortSpots(ps) && !SitsAt(p, at) {
        var i :| 0 <= i < n && SitsAt(init[i], at) && PortSpots(init)[at] == init[i] && forall j :: i < j < n ==>
              !SitsAt(init[j], at);
        assert ps[i] == init[i] && forall j :: i < j < |ps| ==> (if j < n then ps[j] == init[j] else ps[j] == p);
      }
    }
  }

  function RouterId(): Router -> string { (r: Router) => r.id }
  function SubnetId(): Subnet -> string { (s: Subnet) => s.id }
  function NetworkId(): Network -> string { (n: Network) => n.id }

  /** newResolveIndex: later records of the same id win; a limit below 1 falls back
      to the default. */
  function NewIndex(snap: Snapshot, maxHops: int): (ri: Index)
    ensures ri.Valid() && forall r :: r in snap.routers ==> r.id in ri.routers
  {
    IndexByFilesLast(snap.routers, RouterId());
    Index(IndexBy(snap.routers, RouterId()), IndexBy(snap.subnets, SubnetId()), IndexBy(snap.networks, NetworkId()),
          RouterSubnets(snap.ports), PortSpots(snap.ports), if maxHops < 1 then DEFAULT_MAX_HOPS else maxHops)
  }

  /** Everything the index promises: the last record of every id, each router's
      interface subnets in port order, the last port at every spot, and the limit
      given unless it is below 1. */
  lemma IndexExact(snap: Snapshot, maxHops: int, routerId: string, at: Spot)
    ensures var ri := NewIndex(snap, maxHops);
            && FilesLast(snap.routers, RouterId(), ri.routers)
            && FilesLast(snap.subnets, SubnetId(), ri.subnets)
            && FilesLast(snap.networks, NetworkId(), ri.networks)
            && ri.SubnetsOf(routerId) == InterfaceSubnets(snap.ports, routerId)
            && (at in ri.portAt <==> exists i :: 0 <= i < |snap.ports| && SitsAt(snap.ports[i], at))
            && (at in ri.portAt ==> exists i ::
                0 <= i < |snap.ports| && SitsAt(snap.ports[i], at) && ri.portAt[at] == snap.ports[i]
                                                && forall j :: i < j < |snap.ports| ==> !SitsAt(snap.ports[j], at))
            && ri.maxHops == if maxHops < 1 then DEFAULT_MAX_HOPS else maxHops
  {
    IndexByFilesLast(snap.routers, RouterId());
    IndexByFilesLast(snap.subnets, SubnetId());
    IndexByFilesLast(snap.networks, NetworkId());
    RouterSubnetsAt(snap.ports, routerId);
    PortSpotsLast(snap.ports, at);
    hide FilesLast, IndexBy, SitsAt, PortSpots, RouterSubnets, InterfaceSubnets;
  }
}
