/** The five emit steps that turn a snapshot into trie rows. */
module TrieBuilder {
  import opened Bpf
  import opened Options
  import opened Ip
  import opened Neutron
  import opened StaticRoutes
  import opened TrieOrder
  import opened Trie

  const CATCHALL: Prefix := Prefix(0, 0)
  /** 169.254.169.254/32 */
  const METADATA_PREFIX: Prefix := Prefix(0xA9FE_A9FE, 32)

  /** A project owning any resource of the snapshot. */
  ghost predicate IsTenant(snap: Snapshot, t: string) {
    && t != ""
    && ((exists i :: 0 <= i < |snap.networks| && snap.networks[i].projectId == t)
        || (exists i :: 0 <= i < |snap.ports| && snap.ports[i].projectId == t)
        || (exists i :: 0 <= i < |snap.routers| && snap.routers[i].projectId == t))
  }

  // What each step is documented to emit, row by row.

  ghost predicate CatchallRow(e: TrieEntry) { e == TrieEntry("", CATCHALL, External) }

  /** A v4 subnet of the network whose CIDR, host bits cleared, is p. */
  ghost predicate SubnetPrefix(snap: Snapshot, n: Network, j: int, p: Prefix) {
    && 0 <= j < |snap.subnets| && snap.subnets[j].isV4 && snap.subnets[j].networkId == n.id
    && snap.subnets[j].cidr.Some? && p == Masked(snap.subnets[j].cidr.value)
  }

  ghost predicate OwnedRow(snap: Snapshot, e: TrieEntry) {
    && e.zone == SameTenant && e.tenantId != ""
    && exists i, j ::
         0 <= i < |snap.networks| && Owned(snap.networks[i], e.tenantId)
             && SubnetPrefix(snap, snap.networks[i], j, e.prefix)
  }

  predicate Owned(n: Network, t: string) { n.projectId == t && !n.shared && !n.isExternal }

  ghost predicate SharedRow(snap: Snapshot, e: TrieEntry) {
    && e.zone == Shared && e.tenantId == ""
    && exists i, j ::
         0 <= i < |snap.networks| && IsShared(snap.networks[i]) && SubnetPrefix(snap, snap.networks[i], j, e.prefix)
  }

  predicate IsShared(n: Network) { n.shared && !n.isExternal }

  ghost predicate InfraAddr(snap: Snapshot, a: Addr) {
    || (exists i, f ::
        0 <= i < |snap.ports| && IsInfraPort(snap.ports[i].deviceOwner) && f in snap.ports[i].fixedIps
            && f.addr == Some(a))
    || (exists j :: 0 <= j < |snap.subnets| && snap.subnets[j].isV4 && snap.subnets[j].gateway == Some(a))
  }

  ghost predicate InfraRow(snap: Snapshot, e: TrieEntry) {
    && e.zone == Infra && e.tenantId == "" && e.prefix.bits == 32
    && (e.prefix == METADATA_PREFIX || InfraAddr(snap, e.prefix.addr))
  }

  ghost predicate RouteRow(snap: Snapshot, ri: Index, e: TrieEntry) {
    && e.tenantId != ""
    && exists i, j ::
         0 <= i < |snap.routers| && snap.routers[i].projectId == e.tenantId && RouteOf(ri, snap.routers[i], j, e)
  }

  ghost predicate RouteOf(ri: Index, r: Router, j: int, e: TrieEntry) {
    && 0 <= j < |r.routes| && r.routes[j].destination.Some? && r.routes[j].nexthop.Some?
    && e.prefix == Masked(r.routes[j].destination.value)
    && e.zone == ZoneOf(Trace(ri, r.projectId, e.prefix, r.id, r.routes[j].nexthop.value, {r.id}, ri.maxHops))
  }

  /** The rows of a snapshot; the global ones only if it has a tenant at all. */
  ghost predicate IsRow(snap: Snapshot, ri: Index, e: TrieEntry) {
    || OwnedRow(snap, e) || RouteRow(snap, ri, e)
    || ((exists t :: IsTenant(snap, t)) && (CatchallRow(e) || SharedRow(snap, e) || InfraRow(snap, e)))
  }

  /** What every build guarantees about the zones it emits. */
  lemma NoRowIsMiss(snap: Snapshot, ri: Index, e: TrieEntry)
    requires IsRow(snap, ri, e)
    ensures e.zone != Miss && e.zone != Multicast && IsMasked(e.prefix)
  {
    if RouteRow(snap, ri, e) {
      var i, j :| 0 <= i < |snap.routers| && snap.routers[i].projectId == e.tenantId
          && RouteOf(ri, snap.routers[i], j, e);
      var r := snap.routers[i];
      TraceZones(ri, r.projectId, e.prefix, r.id, r.routes[j].nexthop.value, {r.id}, ri.maxHops);
    } else if CatchallRow(e) {
      assert e.prefix.addr % Block(0) == 0;
    } else if InfraRow(snap, e) {
      assert Block(32) == 1;
    }
  }

  /** The resolver only ever answers with one of four zones. */
  lemma {:induction false} TraceZones(ri: Index, source: string, dst: Prefix, routerId: string, nexthop: Addr,
                                      visited: set<string>, hops: nat)
    ensures ZoneOf(Trace(ri, source, dst, routerId, nexthop, visited, hops)) in {External, SameTenant, OtherTenant,
            Shared}
    decreases hops
  {
    if hops > 0 {
      var h := HopFrom(ri, routerId, nexthop);
      if h.ToRouter? {
        var (done, nh) := Onward(ri, h.next, h.via, dst, source, visited);
        if done.None? {
          TraceZones(ri, source, dst, h.next.id, nh, visited + {h.next.id}, hops - 1);
        }
      }
    }
  }

  class Builder {
    const snap: Snapshot
    const ri: Index
    const tenants: set<string>
    var entries: seq<TrieEntry>

    ghost predicate Valid() { forall t :: t in tenants <==> IsTenant(snap, t) }

    constructor (snap: Snapshot, maxHops: int)
      ensures Valid() && this.snap == snap && ri == NewIndex(snap, maxHops) && entries == []
    {
      this.snap, this.ri := snap, NewIndex(snap, maxHops);
      this.tenants := (set i | 0 <= i < |snap.networks| && snap.networks[i].projectId != "" ::
                       snap.networks[i].projectId)
        + (set i | 0 <= i < |snap.ports| && snap.ports[i].projectId != "" :: snap.ports[i].projectId)
        + (set i | 0 <= i < |snap.routers| && snap.routers[i].projectId != "" :: snap.routers[i].projectId);
      entries := [];
    }

    method EmitCatchall()
      requires Valid()
      modifies this
      ensures forall e :: e in entries <==> e in old(entries) || (tenants != {} && CatchallRow(e))
    {
      if tenants != {} {
        entries := entries + [TrieEntry("", CATCHALL, External)];
      }
    }

    /** The subnets of one network, appended under one tenant and zone. */
    method EmitSubnets(n: Network, tenant: string, zone: ZoneCode)
      modifies this
      ensures forall e :: e in entries <==>
                e in old(entries) || (e.tenantId == tenant && e.zone == zone && exists j ::
                                      SubnetPrefix(snap, n, j, e.prefix))
    {
      var j := 0;
      while j < |snap.subnets|
        invariant 0 <= j <= |snap.subnets|
        invariant forall e :: e in entries <==>
                    e in old(entries) || (e.tenantId == tenant && e.zone == zone && exists m ::
                                          m < j && SubnetPrefix(snap, n, m, e.prefix))
      {
        var s := snap.subnets[j];
        if s.isV4 && s.networkId == n.id && s.cidr.Some? {
          var p := Masked(s.cidr.value);
          assert SubnetPrefix(snap, n, j, p);
          entries := entries + [TrieEntry(tenant, p, zone)];
        }
        j := j + 1;
      }
    }

    method EmitOwnedSubnets()
      requires Valid()
      modifies this
      ensures forall e :: e in entries <==> e in old(entries) || OwnedRow(snap, e)
    {
      var todo := tenants;
      while todo != {}
        invariant todo <= tenants
        invariant forall e :: e in entries <==> e in old(entries) || (OwnedRow(snap, e) && e.tenantId in tenants - todo)
        decreases |todo|
      {
        var t :| t in todo;
        EmitOwnedOf(t);
        todo := todo - {t};
      }
      OwnedTenants(snap);
    }

    method EmitOwnedOf(t: string)
      requires t != ""
      modifies this
      ensures forall e :: e in entries <==> e in old(entries) || (OwnedRow(snap, e) && e.tenantId == t)
    {
      hide SubnetPrefix;
      var i := 0;
      while i < |snap.networks|
        invariant 0 <= i <= |snap.networks|
        invariant forall e :: e in entries <==>
                    e in old(entries) || (e.tenantId == t && e.zone == SameTenant &&
                      exists m, j :: 0 <= m < i && Owned(snap.networks[m], t)
                          && SubnetPrefix(snap, snap.networks[m], j, e.prefix))
      {
        if Owned(snap.networks[i], t) {
          EmitSubnets(snap.networks[i], t, SameTenant);
        }
        i := i + 1;
      }
    }

    method EmitSharedSubnets()
      requires Valid()
      modifies this
      ensures forall e :: e in entries <==> e in old(entries) || (tenants != {} && SharedRow(snap, e))
    {
      if tenants == {} {
        return;
      }
      hide SubnetPrefix;
      var i := 0;
      while i < |snap.networks|
        invariant 0 <= i <= |snap.networks|
        invariant forall e :: e in entries <==>
                    e in old(entries) || (e.tenantId == "" && e.zone == Shared &&
                      exists m, j :: 0 <= m < i && IsShared(snap.networks[m])
                          && SubnetPrefix(snap, snap.networks[m], j, e.prefix))
      {
        if IsShared(snap.networks[i]) {
          EmitSubnets(snap.networks[i], "", Shared);
        }
        i := i + 1;
      }
    }

    /** buildInfraPrefixes: infra-port addresses and subnet gateways, each once. */
    method InfraAddrs() returns (addrs: set<Addr>)
      ensures forall a :: a in addrs <==> InfraAddr(snap, a)
    {
      addrs := {};
      var i := 0;
      while i < |snap.ports|
        invariant 0 <= i <= |snap.ports|
        invariant forall a :: a in addrs <==>
                    exists m, f :: 0 <= m < i && IsInfraPort(snap.ports[m].deviceOwner)
                        && f in snap.ports[m].fixedIps && f.addr == Some(a)
      {
        if IsInfraPort(snap.ports[i].deviceOwner) {
          addrs := addrs + AddrsOf(snap.ports[i].fixedIps);
        }
        i := i + 1;
      }
      ghost var fromPorts := addrs;
      var j := 0;
      while j < |snap.subnets|
        invariant 0 <= j <= |snap.subnets|
        invariant forall a :: a in addrs <==>
                    a in fromPorts || exists m ::
                          0 <= m < j && snap.subnets[m].isV4 && snap.subnets[m].gateway == Some(a)
      {
        var s := snap.subnets[j];
        if s.isV4 && s.gateway.Some? {
          addrs := addrs + {s.gateway.value};
        }
        j := j + 1;
      }
    }

    method EmitInfraPrefixes()
      requires Valid()
      modifies this
      ensures forall e :: e in entries <==> e in old(entries) || (tenants != {} && InfraRow(snap, e))
    {
      if tenants == {} {
        return;
      }
      var addrs := InfraAddrs();
      var todo := addrs;
      while todo != {}
        invariant todo <= addrs
        invariant forall e :: e in entries <==>
                    e in old(entries) || (e.tenantId == "" && e.zone == Infra && e.prefix.bits == 32
                                          && e.prefix.addr in addrs - todo)
        decreases |todo|
      {
        var a :| a in todo;
        entries := entries + [TrieEntry("", Prefix(a, 32), Infra)];
        todo := todo - {a};
      }
      entries := entries + [TrieEntry("", METADATA_PREFIX, Infra)];
    }

    method EmitExtraRoutes()
      requires Valid()
      modifies this
      ensures forall e :: e in entries <==> e in old(entries) || RouteRow(snap, ri, e)
    {
      hide RouteOf;
      var i := 0;
      while i < |snap.routers|
        invariant 0 <= i <= |snap.routers|
        invariant forall e :: e in entries <==>
                    e in old(entries) || (e.tenantId != "" &&
                      exists m, j :: 0 <= m < i && snap.routers[m].projectId == e.tenantId
                          && RouteOf(ri, snap.routers[m], j, e))
      {
        if snap.routers[i].projectId in tenants {
          EmitRoutesOf(snap.routers[i]);
        } else {
          assert snap.routers[i].projectId == "" by { RouterTenants(snap, i); }
        }
        i := i + 1;
      }
    }

    method EmitRoutesOf(r: Router)
      modifies this
      ensures forall e :: e in entries <==>
                e in old(entries) || (e.tenantId == r.projectId && exists j :: RouteOf(ri, r, j, e))
    {
      var j := 0;
      while j < |r.routes|
        invariant 0 <= j <= |r.routes|
        invariant forall e :: e in entries <==>
                    e in old(entries) || (e.tenantId == r.projectId && exists m :: m < j && RouteOf(ri, r, m, e))
      {
        hide Trace;
        var route := r.routes[j];
        if route.destination.Some? && route.nexthop.Some? {
          var dst := Masked(route.destination.value);
          var o, _ := ResolveStaticRouteZone(ri, r, dst, route.nexthop.value);
          var e := TrieEntry(r.projectId, dst, ZoneOf(o));
          assert RouteOf(ri, r, j, e);
          entries := entries + [e];
        }
        j := j + 1;
      }
    }

    /** buildTrie: every row the five steps document, and no other, in order. */
    method BuildTrie()
      requires Valid() && entries == []
      modifies this
      ensures forall e :: e in entries <==> IsRow(snap, ri, e)
      ensures Sorted(entries)
    {
      EmitAll();
      hide IsRow, Sorted;
      var sorted := SortEntries(entries);
      forall e ensures e in sorted <==> e in entries {
        assert e in sorted <==> e in multiset(sorted);
        assert e in entries <==> e in multiset(entries);
      }
      entries := sorted;
    }

    /** The five steps. */
    method EmitAll()
      requires Valid() && entries == []
      modifies this
      ensures forall e :: e in entries <==> IsRow(snap, ri, e)
    {
      hide OwnedRow, SharedRow, InfraRow, RouteRow, CatchallRow;
      EmitCatchall();
      EmitOwnedSubnets();
      EmitSharedSubnets();
      EmitInfraPrefixes();
      EmitExtraRoutes();
      assert tenants != {} <==> exists t :: IsTenant(snap, t);
    }
  }

  function AddrsOf(ips: seq<FixedIp>): (r: set<Addr>)
    ensures forall a :: a in r <==> exists f :: f in ips && f.addr == Some(a)
  {
    set i | 0 <= i < |ips| && ips[i].addr.Some? :: ips[i].addr.value
  }

  lemma OwnedTenants(snap: Snapshot)
    ensures forall e :: OwnedRow(snap, e) ==> IsTenant(snap, e.tenantId)
  {
  }

  lemma RouterTenants(snap: Snapshot, i: nat)
    requires i < |snap.routers|
    ensures snap.routers[i].projectId != "" ==> IsTenant(snap, snap.routers[i].projectId)
  {
  }
}
