/** Per-packet classification over the maps one snapshot is written into, and the
    Octavia join that marks load-balancer plumbing. */
module Classify {
  import opened Bpf
  import opened Options
  import opened Metadata
  import opened Ip
  import opened Interner
  import opened Neutron
  import opened StaticRoutes
  import opened Trie
  import opened TrieBuilder
  import opened TrieOrder

  // ---------------------------------------------------------------------
  // Amphora ownership
  // ---------------------------------------------------------------------

  datatype Binding = Binding(owner: string, mgmtIp: Option<Addr>) {
    predicate IsManagementPort(p: Port) {
      mgmtIp.Some? && exists f :: f in p.fixedIps && f.addr == mgmtIp
    }
  }

  /** lb is an amphora load balancer with an id and an owner. */
  predicate OwnsLb(lb: LoadBalancer) { lb.id != "" && lb.projectId != "" && lb.amphoraProvider }

  /** lbs[i] is the last of those with its id. */
  ghost predicate LastLb(lbs: seq<LoadBalancer>, i: int) {
    0 <= i < |lbs| && OwnsLb(lbs[i]) && forall j :: i < j < |lbs| && OwnsLb(lbs[j]) ==> lbs[j].id != lbs[i].id
  }

  /** owners files exactly those load balancers, the last of each id under its owner. */
  ghost predicate IsOwners(lbs: seq<LoadBalancer>, owners: map<string, string>) {
    && (forall i :: 0 <= i < |lbs| && OwnsLb(lbs[i]) ==> lbs[i].id in owners)
    && (forall id :: id in owners ==> exists i :: LastLb(lbs, i) && lbs[i].id == id && owners[id] == lbs[i].projectId)
  }

  lemma OwnersStep(lbs: seq<LoadBalancer>, lb: LoadBalancer, owners: map<string, string>)
    requires IsOwners(lbs, owners)
    ensures IsOwners(lbs + [lb], if OwnsLb(lb) then owners[lb.id := lb.projectId] else owners)
  {
    hide OwnsLb;
    var all, owners' := lbs + [lb], if OwnsLb(lb) then owners[lb.id := lb.projectId] else owners;
    forall id | id in owners'
      ensures exists i :: LastLb(all, i) && all[i].id == id && owners'[id] == all[i].projectId
    {
      if OwnsLb(lb) && id == lb.id {
        assert LastLb(all, |lbs|);
      } else {
        var i :| LastLb(lbs, i) && lbs[i].id == id && owners[id] == lbs[i].projectId;
        assert LastLb(all, i);
      }
    }
  }

  method AmphoraLBOwners(lbs: seq<LoadBalancer>) returns (owners: map<string, string>)
    ensures IsOwners(lbs, owners)
  {
    owners := map[];
    var i := 0;
    while i < |lbs|
      invariant 0 <= i <= |lbs| && IsOwners(lbs[..i], owners)
    {
      OwnersStep(lbs[..i], lbs[i], owners);
      assert lbs[..i + 1] == lbs[..i] + [lbs[i]];
      if OwnsLb(lbs[i]) {
        owners := owners[lbs[i].id := lbs[i].projectId];
      }
      i := i + 1;
    }
    assert lbs[..i] == lbs;
  }

  /** a is live, has an instance, and its load balancer is one of owners. */
  predicate Binds(a: Amphora, owners: map<string, string>) {
    a.computeId != "" && !a.deleted && a.loadBalancerId in owners
  }

  ghost predicate LastBound(amps: seq<Amphora>, owners: map<string, string>, i: int) {
    0 <= i < |amps| && Binds(amps[i], owners) && forall j :: i < j < |amps| && Binds(amps[j], owners) ==>
          amps[j].computeId != amps[i].computeId
  }

  function BindingOf(a: Amphora, owners: map<string, string>): Binding
    requires Binds(a, owners)
  {
    Binding(owners[a.loadBalancerId], a.lbNetworkIp)
  }

  /** out files exactly those Amphorae's instances, the last of each as its binding. */
  ghost predicate IsBindings(amps: seq<Amphora>, owners: map<string, string>, out: map<string, Binding>) {
    && (forall i :: 0 <= i < |amps| && Binds(amps[i], owners) ==> amps[i].computeId in out)
    && (forall id :: id in out ==> exists i ::
        LastBound(amps, owners, i) && amps[i].computeId == id && out[id] == BindingOf(amps[i], owners))
  }

  lemma BindingsStep(amps: seq<Amphora>, a: Amphora, owners: map<string, string>, out: map<string, Binding>)
    requires IsBindings(amps, owners, out)
    ensures IsBindings(amps + [a], owners, if Binds(a, owners) then out[a.computeId := BindingOf(a, owners)] else out)
  {
    hide Binds;
    var all, out' := amps + [a], if Binds(a, owners) then out[a.computeId := BindingOf(a, owners)] else out;
    forall id | id in out'
      ensures exists i :: LastBound(all, owners, i) && all[i].computeId == id && out'[id] == BindingOf(all[i], owners)
    {
      if Binds(a, owners) && id == a.computeId {
        assert LastBound(all, owners, |amps|);
      } else {
        var i :| LastBound(amps, owners, i) && amps[i].computeId == id && out[id] == BindingOf(amps[i], owners);
        assert LastBound(all, owners, i);
      }
    }
  }

  method AmphoraBindings(amps: seq<Amphora>, owners: map<string, string>) returns (out: map<string, Binding>)
    ensures IsBindings(amps, owners, out)
  {
    out := map[];
    var i := 0;
    while i < |amps|
      invariant 0 <= i <= |amps| && IsBindings(amps[..i], owners, out)
    {
      BindingsStep(amps[..i], amps[i], owners, out);
      assert amps[..i + 1] == amps[..i] + [amps[i]];
      if Binds(amps[i], owners) {
        out := out[amps[i].computeId := BindingOf(amps[i], owners)];
      }
      i := i + 1;
    }
    assert amps[..i] == amps;
  }

  /** p carries tenant traffic of an Amphora: bound to one, and not its management port. */
  predicate IsDataPort(p: Port, amps: map<string, Binding>) {
    p.deviceId in amps && !amps[p.deviceId].IsManagementPort(p)
  }

  ghost predicate LastDataPort(ports: seq<Port>, amps: map<string, Binding>, i: int) {
    0 <= i < |ports| && IsDataPort(ports[i], amps) && forall j :: i < j < |ports| && IsDataPort(ports[j], amps) ==>
          ports[j].id != ports[i].id
  }

  function DataOwner(p: Port, amps: map<string, Binding>): string
    requires IsDataPort(p, amps)
  {
    amps[p.deviceId].owner
  }

  /** out files exactly those ports, the last of each id under its Amphora's owner. */
  ghost predicate IsDataPorts(ports: seq<Port>, amps: map<string, Binding>, out: map<string, string>) {
    && (forall i :: 0 <= i < |ports| && IsDataPort(ports[i], amps) ==> ports[i].id in out)
    && (forall id :: id in out ==> exists i ::
        LastDataPort(ports, amps, i) && ports[i].id == id && out[id] == DataOwner(ports[i], amps))
  }

  lemma DataPortsStep(ports: seq<Port>, p: Port, amps: map<string, Binding>, out: map<string, string>)
    requires IsDataPorts(ports, amps, out)
    ensures IsDataPorts(ports + [p], amps, if IsDataPort(p, amps) then out[p.id := DataOwner(p, amps)] else out)
  {
    hide IsDataPort;
    var all, out' := ports + [p], if IsDataPort(p, amps) then out[p.id := DataOwner(p, amps)] else out;
    forall id | id in out'
      ensures exists i :: LastDataPort(all, amps, i) && all[i].id == id && out'[id] == DataOwner(all[i], amps)
    {
      if IsDataPort(p, amps) && id == p.id {
        assert LastDataPort(all, amps, |ports|);
      } else {
        var i :| LastDataPort(ports, amps, i) && ports[i].id == id && out[id] == DataOwner(ports[i], amps);
        assert LastDataPort(all, amps, i);
      }
    }
  }

  method AmphoraDataPorts(ports: seq<Port>, amps: map<string, Binding>) returns (out: map<string, string>)
    ensures IsDataPorts(ports, amps, out)
  {
    out := map[];
    var i := 0;
    while i < |ports|
      invariant 0 <= i <= |ports| && IsDataPorts(ports[..i], amps, out)
    {
      DataPortsStep(ports[..i], ports[i], amps, out);
      assert ports[..i + 1] == ports[..i] + [ports[i]];
      if IsDataPort(ports[i], amps) {
        out := out[ports[i].id := DataOwner(ports[i], amps)];
      }
      i := i + 1;
    }
    assert ports[..i] == ports;
  }

  /** p is on the instance of a live Amphora of a load balancer owner owns. */
  ghost predicate OnAmphora(snap: Snapshot, p: Port, j: int, k: int) {
    && 0 <= j < |snap.amphorae| && 0 <= k < |snap.loadBalancers|
    && p.deviceId == snap.amphorae[j].computeId != "" && !snap.amphorae[j].deleted
    && snap.loadBalancers[k].id == snap.amphorae[j].loadBalancerId && OwnsLb(snap.loadBalancers[k])
  }

  ghost predicate HasMgmtIp(p: Port, a: Amphora) { Binding("", a.lbNetworkIp).IsManagementPort(p) }

  /** The join as one fact: port portId serves, on a data network, a load balancer
      that owner owns. */
  ghost predicate ServesFor(snap: Snapshot, portId: string, owner: string) {
    exists i, j, k :: 0 <= i < |snap.ports| && snap.ports[i].id == portId && OnAmphora(snap, snap.ports[i], j, k)
      && !HasMgmtIp(snap.ports[i], snap.amphorae[j]) && snap.loadBalancers[k].projectId == owner
  }

  /** The three-hop join: every port it names serves a load balancer of the owner
      named, and every port on an Amphora that is nobody's management port is named. */
  method AmphoraOwnerByPort(snap: Snapshot) returns (byPort: map<string, string>)
    ensures forall id :: id in byPort ==> ServesFor(snap, id, byPort[id]) && byPort[id] != ""
    ensures forall i, j, k :: 0 <= i < |snap.ports| && OnAmphora(snap, snap.ports[i], j, k)
              && (forall a :: a in snap.amphorae && a.computeId == snap.ports[i].deviceId ==>
                  !HasMgmtIp(snap.ports[i], a))
              ==> snap.ports[i].id in byPort
  {
    hide IsOwners, IsBindings, IsDataPorts;
    var owners := AmphoraLBOwners(snap.loadBalancers);
    var amps := AmphoraBindings(snap.amphorae, owners);
    byPort := AmphoraDataPorts(snap.ports, amps);
    forall id | id in byPort
      ensures ServesFor(snap, id, byPort[id]) && byPort[id] != ""
    {
      JoinServes(snap, owners, amps, byPort, id);
    }
    forall i, j, k | 0 <= i < |snap.ports| && OnAmphora(snap, snap.ports[i], j, k)
              && (forall a :: a in snap.amphorae && a.computeId == snap.ports[i].deviceId ==>
                  !HasMgmtIp(snap.ports[i], a))
      ensures snap.ports[i].id in byPort
    {
      JoinComplete(snap, owners, amps, byPort, i, j, k);
    }
  }

  lemma OwnerSource(lbs: seq<LoadBalancer>, owners: map<string, string>, id: string) returns (k: int)
    requires IsOwners(lbs, owners) && id in owners
    ensures 0 <= k < |lbs| && OwnsLb(lbs[k]) && lbs[k].id == id && owners[id] == lbs[k].projectId
  {
    k :| LastLb(lbs, k) && lbs[k].id == id && owners[id] == lbs[k].projectId;
  }

  lemma BindingSource(amps: seq<Amphora>, owners: map<string, string>, out: map<string, Binding>, id: string)
      returns (j: int)
    requires IsBindings(amps, owners, out) && id in out
    ensures 0 <= j < |amps| && Binds(amps[j], owners) && amps[j].computeId == id
    ensures out[id] == Binding(owners[amps[j].loadBalancerId], amps[j].lbNetworkIp)
  {
    j :| LastBound(amps, owners, j) && amps[j].computeId == id && out[id] == BindingOf(amps[j], owners);
  }

  lemma DataPortSource(ports: seq<Port>, amps: map<string, Binding>, out: map<string, string>, id: string)
      returns (i: int)
    requires IsDataPorts(ports, amps, out) && id in out
    ensures 0 <= i < |ports| && IsDataPort(ports[i], amps) && ports[i].id == id
            && out[id] == amps[ports[i].deviceId].owner
  {
    i :| LastDataPort(ports, amps, i) && ports[i].id == id && out[id] == DataOwner(ports[i], amps);
  }

  lemma JoinServes(snap: Snapshot, owners: map<string, string>, amps: map<string, Binding>,
                   byPort: map<string, string>, id: string)
    requires IsOwners(snap.loadBalancers, owners) && IsBindings(snap.amphorae, owners, amps)
             && IsDataPorts(snap.ports, amps, byPort)
    requires id in byPort
    ensures ServesFor(snap, id, byPort[id]) && byPort[id] != ""
  {
    hide IsOwners, IsBindings, IsDataPorts;
    var i := DataPortSource(snap.ports, amps, byPort, id);
    var p := snap.ports[i];
    var j := BindingSource(snap.amphorae, owners, amps, p.deviceId);
    var k := OwnerSource(snap.loadBalancers, owners, snap.amphorae[j].loadBalancerId);
    assert OnAmphora(snap, p, j, k);
    assert !HasMgmtIp(p, snap.amphorae[j]);
  }

  lemma JoinComplete(snap: Snapshot, owners: map<string, string>, amps: map<string, Binding>,
                     byPort: map<string, string>, i: int, j: int, k: int)
    requires IsOwners(snap.loadBalancers, owners) && IsBindings(snap.amphorae, owners, amps)
             && IsDataPorts(snap.ports, amps, byPort)
    requires 0 <= i < |snap.ports| && OnAmphora(snap, snap.ports[i], j, k)
    requires forall a :: a in snap.amphorae && a.computeId == snap.ports[i].deviceId ==> !HasMgmtIp(snap.ports[i], a)
    ensures snap.ports[i].id in byPort
  {
  }

  // ---------------------------------------------------------------------
  // The maps written from a snapshot
  // ---------------------------------------------------------------------

  /** A port whose MAC the agent admits. */
  predicate Admitted(p: Port) { IsVMPort(p.deviceOwner) && p.projectId != "" && p.mac.Some? }

  /** Its attribution: an Amphora data port bills the load balancer's owner. */
  function MetaOf(p: Port, byPort: map<string, string>): TenantMeta {
    if p.id in byPort then TenantMeta(byPort[p.id], p.deviceId, p.id, p.externalNetwork, true, None)
    else TenantMeta(p.projectId, p.deviceId, p.id, p.externalNetwork, false, None)
  }

  /** The index of the last admitted port carrying mac, or -1. */
  function LastWith(ports: seq<Port>, mac: Mac): (i: int)
    ensures -1 <= i < |ports|
  {
    if ports == [] then -1
    else
      var n := |ports| - 1;
      if Admitted(ports[n]) && ports[n].mac == Some(mac) then n else LastWith(ports[..n], mac)
  }

  /** What that index is. */
  lemma {:induction false} LastWithIsLast(ports: seq<Port>, mac: Mac)
    ensures var i := LastWith(ports, mac);
            && (i >= 0 ==> Admitted(ports[i]) && ports[i].mac == Some(mac))
            && forall j :: i < j < |ports| && Admitted(ports[j]) ==> ports[j].mac != Some(mac)
  {
    if ports != [] {
      var n := |ports| - 1;
      LastWithIsLast(ports[..n], mac);
      assert forall j :: 0 <= j < n ==> ports[..n][j] == ports[j];
    }
  }

  /** The target state of the metadata map: exactly the admitted MACs, each with
      the attribution of the last port that carries it. */
  ghost predicate IsDesired(snap: Snapshot, byPort: map<string, string>, desired: map<Mac, TenantMeta>) {
    forall m: Mac :: (m in desired <==> LastWith(snap.ports, m) >= 0)
                     && (m in desired ==> desired[m] == MetaOf(snap.ports[LastWith(snap.ports, m)], byPort))
  }

  method DesiredMACs(snap: Snapshot, byPort: map<string, string>) returns (desired: map<Mac, TenantMeta>)
    ensures IsDesired(snap, byPort, desired)
  {
    desired := map[];
    var n := 0;
    while n < |snap.ports|
      invariant 0 <= n <= |snap.ports|
      invariant IsDesired(snap.(ports := snap.ports[..n]), byPort, desired)
    {
      var p := snap.ports[n];
      assert snap.ports[..n + 1][..n] == snap.ports[..n];
      if Admitted(p) {
        desired := desired[p.mac.value := MetaOf(p, byPort)];
      }
      n := n + 1;
    }
    assert snap.ports[..n] == snap.ports;
  }

  datatype BaseIp = BaseIp(projectId: string, addr: Addr)

  /** A port's IPv4 addresses under an owner, in order. */
  function OwnedAddrs(owner: string, ips: seq<FixedIp>): seq<BaseIp> {
    if ips == [] then []
    else
      var f := ips[|ips| - 1];
      OwnedAddrs(owner, ips[..|ips| - 1]) + if f.addr.Some? then [BaseIp(owner, f.addr.value)] else []
  }

  /** Those of every named port, in order; an address may occur twice. */
  function BaseIpsOf(ports: seq<Port>, byPort: map<string, string>): seq<BaseIp> {
    if ports == [] then []
    else
      var p := ports[|ports| - 1];
      BaseIpsOf(ports[..|ports| - 1], byPort) + if p.id in byPort then OwnedAddrs(byPort[p.id], p.fixedIps) else []
  }

  lemma {:induction false} OwnedAddrsAre(owner: string, ips: seq<FixedIp>, b: BaseIp)
    ensures b in OwnedAddrs(owner, ips) <==> b.projectId == owner && exists f :: f in ips && f.addr == Some(b.addr)
  {
    if ips != [] {
      var init, last := ips[..|ips| - 1], ips[|ips| - 1];
      assert ips == init + [last];
      OwnedAddrsAre(owner, init, b);
    }
  }

  lemma {:induction false} BaseIpsAre(ports: seq<Port>, byPort: map<string, string>, b: BaseIp)
    ensures b in BaseIpsOf(ports, byPort) <==>
              exists j :: 0 <= j < |ports| && ports[j].id in byPort
                  && b in OwnedAddrs(byPort[ports[j].id], ports[j].fixedIps)
  {
    hide OwnedAddrs;
    if ports != [] {
      var n := |ports| - 1;
      BaseIpsAre(ports[..n], byPort, b);
      if b in BaseIpsOf(ports[..n], byPort) {
        var j :| 0 <= j < n && ports[..n][j].id in byPort
            && b in OwnedAddrs(byPort[ports[..n][j].id], ports[..n][j].fixedIps);
        assert ports[j] == ports[..n][j];
      }
      if j :| 0 <= j < n && ports[j].id in byPort && b in OwnedAddrs(byPort[ports[j].id], ports[j].fixedIps) {
        assert ports[..n][j] == ports[j];
      }
    }
  }

  lemma BaseIpsExact(snap: Snapshot, byPort: map<string, string>, b: BaseIp)
    ensures b in BaseIpsOf(snap.ports, byPort) <==> IsBaseIp(snap, byPort, b)
  {
    hide OwnedAddrs, BaseIpsOf;
    BaseIpsAre(snap.ports, byPort, b);
    forall j | 0 <= j < |snap.ports| && snap.ports[j].id in byPort
      ensures b in OwnedAddrs(byPort[snap.ports[j].id], snap.ports[j].fixedIps) <==>
                byPort[snap.ports[j].id] == b.projectId && exists f ::
                      f in snap.ports[j].fixedIps && f.addr == Some(b.addr)
    {
      OwnedAddrsAre(byPort[snap.ports[j].id], snap.ports[j].fixedIps, b);
    }
  }

  /** Every IPv4 fixed address of every Amphora data port, under its owner. */
  method AmphoraBaseIPs(snap: Snapshot, byPort: map<string, string>) returns (out: seq<BaseIp>)
    ensures out == BaseIpsOf(snap.ports, byPort)
    ensures forall b :: b in out <==> IsBaseIp(snap, byPort, b)
  {
    hide IsBaseIp;
    out := [];
    var i := 0;
    while i < |snap.ports|
      invariant 0 <= i <= |snap.ports| && out == BaseIpsOf(snap.ports[..i], byPort)
    {
      var p := snap.ports[i];
      assert snap.ports[..i + 1][..i] == snap.ports[..i];
      if p.id in byPort {
        var owned := AddrsUnder(byPort[p.id], p.fixedIps);
        out := out + owned;
      }
      i := i + 1;
    }
    assert snap.ports[..i] == snap.ports;
    forall b ensures b in out <==> IsBaseIp(snap, byPort, b) {
      BaseIpsExact(snap, byPort, b);
    }
  }

  method AddrsUnder(owner: string, ips: seq<FixedIp>) returns (out: seq<BaseIp>)
    ensures out == OwnedAddrs(owner, ips)
  {
    out := [];
    var i := 0;
    while i < |ips|
      invariant 0 <= i <= |ips| && out == OwnedAddrs(owner, ips[..i])
    {
      assert ips[..i + 1][..i] == ips[..i];
      if ips[i].addr.Some? {
        out := out + [BaseIp(owner, ips[i].addr.value)];
      }
      i := i + 1;
    }
    assert ips[..i] == ips;
  }

  ghost predicate IsBaseIp(snap: Snapshot, byPort: map<string, string>, b: BaseIp) {
    exists j, f :: 0 <= j < |snap.ports| && snap.ports[j].id in byPort && byPort[snap.ports[j].id] == b.projectId
                   && f in snap.ports[j].fixedIps && f.addr == Some(b.addr)
  }

  datatype AmphoraKey = AmphoraKey(tid: nat, addr: Addr)

  /** The three kernel maps the classifier reads. */
  datatype KernelMaps = KernelMaps(macs: map<Mac, nat>, amphora: set<AmphoraKey>, trie: Rows)

  /** The maps hold what desired, the base addresses and the rows say, every write
      having succeeded. */
  ghost predicate WrittenFrom(k: KernelMaps, desired: map<Mac, TenantMeta>, ips: seq<BaseIp>,
                              entries: seq<TrieEntry>, ids: map<string, nat>) {
    && GoodIds(ids) && Interned(entries, ids)
    && (forall m :: m in k.macs <==> m in desired && desired[m].projectId != "")
    && (forall m :: m in k.macs ==>
        desired[m].projectId in ids && k.macs[m] == TenantValue(ids[desired[m].projectId], desired[m].isAmphora))
    && (forall b :: b in ips && b.projectId != "" ==>
        b.projectId in ids && AmphoraKey(ids[b.projectId], b.addr) in k.amphora)
    && k.trie == RowsOf(entries, ids)
  }

  // ---------------------------------------------------------------------
  // lookup_zone
  // ---------------------------------------------------------------------

  /** MAC first, then the tenant's rows, then the global ones. */
  function LookupZone(k: KernelMaps, vm: Mac, peer: Mac, localIp: Addr, remoteIp: Addr): ZoneCode {
    if vm !in k.macs then Miss
    else
      var vmTid := TenantIdOf(k.macs[vm]);
      if peer in k.macs then
        var peerTid := TenantIdOf(k.macs[peer]);
        if HasAmphoraFlag(k.macs[vm]) && AmphoraKey(vmTid, localIp) in k.amphora then Infra
        else if HasAmphoraFlag(k.macs[peer]) && AmphoraKey(peerTid, remoteIp) in k.amphora then Infra
        else if peerTid == vmTid then SameTenant else OtherTenant
      else
        match Lookup(k.trie, vmTid, remoteIp)
        case Some(m) => m.zone
        case None =>
          match Lookup(k.trie, TENANT_ID_UNSET, remoteIp)
          case Some(m) => m.zone
          case None => Miss
  }

  datatype Frame = Frame(srcMac: Mac, dstMac: Mac, saddr: Addr, daddr: Addr)

  /** The I/G bit of the first byte. */
  predicate IsGroupMac(m: Mac) { (m / 0x100_0000_0000) % 2 == 1 }

  /** The zone of an IPv4 frame as one hook sees it. */
  function ZoneAt(k: KernelMaps, f: Frame, dir: Direction): ZoneCode {
    if IsGroupMac(f.dstMac) then Multicast
    else if dir == Ingress then LookupZone(k, f.srcMac, f.dstMac, f.saddr, f.daddr)
    else LookupZone(k, f.dstMac, f.srcMac, f.daddr, f.saddr)
  }

  /** A frame between two known MACs gets one zone, whichever tap classifies it. */
  lemma BothTapsAgree(k: KernelMaps, f: Frame)
    requires f.srcMac in k.macs && f.dstMac in k.macs
    ensures ZoneAt(k, f, Ingress) == ZoneAt(k, f, Egress)
  {
  }

  /** Octavia Segment 2 is INFRA at both taps: a unicast frame between an admitted
      Amphora data port, alone with its MAC and using one of its own addresses, and
      any VM the MAC map knows. */
  lemma Segment2IsInfra(snap: Snapshot, byPort: map<string, string>, desired: map<Mac, TenantMeta>, ips: seq<BaseIp>,
                        entries: seq<TrieEntry>, ids: map<string, nat>, k: KernelMaps, i: int, a: FixedIp, f: Frame)
    requires IsDesired(snap, byPort, desired)
    requires forall b :: b in ips <==> IsBaseIp(snap, byPort, b)
    requires WrittenFrom(k, desired, ips, entries, ids) && forall p :: p in ids ==> ids[p] < TENANT_AMPHORA_FLAG
    requires 0 <= i < |snap.ports| && Admitted(snap.ports[i]) && snap.ports[i].id in byPort
             && byPort[snap.ports[i].id] != ""
    requires forall j :: 0 <= j < |snap.ports| && j != i && Admitted(snap.ports[j]) ==>
               snap.ports[j].mac != snap.ports[i].mac
    requires a in snap.ports[i].fixedIps && a.addr.Some?
    requires !IsGroupMac(f.dstMac)
    requires || (f.srcMac == snap.ports[i].mac.value && f.saddr == a.addr.value && f.dstMac in k.macs)
             || (f.dstMac == snap.ports[i].mac.value && f.daddr == a.addr.value && f.srcMac in k.macs)
    ensures ZoneAt(k, f, Ingress) == Infra && ZoneAt(k, f, Egress) == Infra
  {
    var p := snap.ports[i];
    var mac, owner := p.mac.value, byPort[p.id];
    LastWithIsLast(snap.ports, mac);
    assert LastWith(snap.ports, mac) == i;
    assert desired[mac] == MetaOf(p, byPort);
    assert IsBaseIp(snap, byPort, BaseIp(owner, a.addr.value));
    assert BaseIp(owner, a.addr.value) in ips;
    TenantValueRoundTrip(ids[owner], true);
  }

  // ---------------------------------------------------------------------
  // A known VM never misses
  // ---------------------------------------------------------------------

  lemma {:induction false} RowsOfHas(entries: seq<TrieEntry>, ids: map<string, nat>, i: nat)
    requires Interned(entries, ids) && i < |entries|
    ensures KeyOf(entries[i], ids) in RowsOf(entries, ids)
  {
    var n := |entries| - 1;
    if i < n {
      RowsOfHas(entries[..n], ids, i);
    }
  }

  lemma {:induction false} RowsOfOnly(entries: seq<TrieEntry>, ids: map<string, nat>, k: RowKey)
    requires Interned(entries, ids) && k in RowsOf(entries, ids)
    ensures exists i :: 0 <= i < |entries| && KeyOf(entries[i], ids) == k && entries[i].zone == RowsOf(entries, ids)[k]
  {
    var n := |entries| - 1;
    if KeyOf(entries[n], ids) != k {
      RowsOfOnly(entries[..n], ids, k);
      var i :| 0 <= i < n && KeyOf(entries[..n][i], ids) == k && entries[..n][i].zone == RowsOf(entries[..n], ids)[k];
      assert entries[i] == entries[..n][i];
    }
  }

  /** The global rows hold every address once any tenant exists. */
  lemma CatchallHolds(snap: Snapshot, ri: Index, entries: seq<TrieEntry>, ids: map<string, nat>, a: Addr, t: string)
    requires Interned(entries, ids) && (forall e :: e in entries <==> IsRow(snap, ri, e)) && IsTenant(snap, t)
    ensures Lookup(RowsOf(entries, ids), TENANT_ID_UNSET, a).Some?
  {
    var rows := RowsOf(entries, ids);
    var e := TrieEntry("", CATCHALL, External);
    assert IsRow(snap, ri, e) && e in entries;
    var i :| 0 <= i < |entries| && entries[i] == e;
    RowsOfHas(entries, ids, i);
    var top: Rows := map[RowKey(TENANT_ID_UNSET, CATCHALL) := External];
    ZeroContainsAll(CATCHALL, a);
    LookupFromZero(top, TENANT_ID_UNSET, a, 32);
    MoreRowsLonger(top, rows, TENANT_ID_UNSET, a, 32);
  }

  lemma {:induction false} LookupFromZero(rows: Rows, tid: nat, a: Addr, bits: nat)
    requires bits <= 32 && RowKey(tid, MaskTo(a, 0)) in rows
    ensures LookupFrom(rows, tid, a, bits).Some?
  {
    hide MaskTo;
    if bits > 0 {
      LookupFromZero(rows, tid, a, bits - 1);
    }
  }

  /** No row built from a snapshot carries MISS, so neither does a match. */
  lemma MatchNeverMiss(snap: Snapshot, ri: Index, entries: seq<TrieEntry>, ids: map<string, nat>, tid: nat, a: Addr)
    requires Interned(entries, ids) && (forall e :: e in entries <==> IsRow(snap, ri, e))
    requires Lookup(RowsOf(entries, ids), tid, a).Some?
    ensures Lookup(RowsOf(entries, ids), tid, a).value.zone != Miss
  {
    hide RowsOf, MaskTo, IsRow;
    var rows := RowsOf(entries, ids);
    MatchIsARow(rows, tid, a, 32);
    var m := Lookup(rows, tid, a).value;
    RowsOfOnly(entries, ids, RowKey(tid, MaskTo(a, m.bits)));
    var i :| 0 <= i < |entries| && KeyOf(entries[i], ids) == RowKey(tid, MaskTo(a, m.bits))
        && entries[i].zone == m.zone;
    assert entries[i] in entries;
    NoRowIsMiss(snap, ri, entries[i]);
  }

  /** For every snapshot, with the MAC map and the trie written from it: an IPv4
      frame of a VM in the MAC map never classifies as MISS. */
  lemma KnownVmNeverMisses(snap: Snapshot, byPort: map<string, string>, ri: Index, desired: map<Mac, TenantMeta>,
                           ips: seq<BaseIp>,
                           entries: seq<TrieEntry>, ids: map<string, nat>, k: KernelMaps,
                           vm: Mac, peer: Mac, localIp: Addr, remoteIp: Addr)
    requires IsDesired(snap, byPort, desired)
    requires forall e :: e in entries <==> IsRow(snap, ri, e)
    requires WrittenFrom(k, desired, ips, entries, ids)
    requires vm in k.macs
    ensures LookupZone(k, vm, peer, localIp, remoteIp) != Miss
  {
    hide RowsOf, IsRow, Lookup, TenantIdOf, HasAmphoraFlag;
    LastWithIsLast(snap.ports, vm);
    var i := LastWith(snap.ports, vm);
    var t := snap.ports[i].projectId;
    assert IsTenant(snap, t);
    CatchallHolds(snap, ri, entries, ids, remoteIp, t);
    MatchNeverMiss(snap, ri, entries, ids, TENANT_ID_UNSET, remoteIp);
    var vmTid := TenantIdOf(k.macs[vm]);
    if Lookup(k.trie, vmTid, remoteIp).Some? {
      MatchNeverMiss(snap, ri, entries, ids, vmTid, remoteIp);
    }
  }

  // ---------------------------------------------------------------------
  // When an infrastructure row decides
  // ---------------------------------------------------------------------

  /** A tenant's own rows never carry INFRA. */
  lemma TenantRowsNeverInfra(snap: Snapshot, ri: Index, e: TrieEntry)
    requires IsRow(snap, ri, e) && e.tenantId != ""
    ensures e.zone != Infra
  {
    if RouteRow(snap, ri, e) {
      var i, j :| 0 <= i < |snap.routers| && snap.routers[i].projectId == e.tenantId
          && RouteOf(ri, snap.routers[i], j, e);
      var r := snap.routers[i];
      TraceZones(ri, r.projectId, e.prefix, r.id, r.routes[j].nexthop.value, {r.id}, ri.maxHops);
    }
  }

  lemma RowsMasked(snap: Snapshot, ri: Index, entries: seq<TrieEntry>, ids: map<string, nat>)
    requires Interned(entries, ids) && forall e :: e in entries <==> IsRow(snap, ri, e)
    ensures AllMasked(RowsOf(entries, ids))
  {
    hide IsRow, RowsOf, IsMasked;
    forall k | k in RowsOf(entries, ids) ensures IsMasked(k.prefix) {
      RowsOfOnly(entries, ids, k);
      var i :| 0 <= i < |entries| && KeyOf(entries[i], ids) == k;
      assert entries[i] in entries;
      NoRowIsMiss(snap, ri, entries[i]);
    }
  }

  /** The row key of a single host. */
  lemma HostKey(a: Addr)
    ensures MaskTo(a, 32) == Prefix(a, 32) && Contains(Prefix(a, 32), a)
  {
    assert Block(32) == 1;
  }

  /** What holds of the rows built from a snapshot and of the ids they are keyed by. */
  ghost predicate Built(snap: Snapshot, ri: Index, entries: seq<TrieEntry>, ids: map<string, nat>) {
    GoodIds(ids) && Interned(entries, ids) && (forall e :: e in entries <==> IsRow(snap, ri, e))
  }

  /** A tenant's rows match an address exactly if one of its entries contains it,
      with the zone of one such entry. */
  lemma TenantMatch(snap: Snapshot, ri: Index, entries: seq<TrieEntry>, ids: map<string, nat>, t: string, a: Addr)
    requires Built(snap, ri, entries, ids) && t in ids
    ensures Interned(entries, ids)
    ensures var m := Lookup(RowsOf(entries, ids), ids[t], a);
            && (m.Some? <==> exists e :: e in entries && e.tenantId == t && Contains(e.prefix, a))
            && (m.Some? ==> exists e :: e in entries && e.tenantId == t && e.zone == m.value.zone)
  {
    RowsMasked(snap, ri, entries, ids);
    hide IsRow, RowsOf, IsMasked, Contains, Lookup, MaskTo, AllMasked;
    var rows := RowsOf(entries, ids);
    LookupIsLongest(rows, ids[t], a);
    var m := Lookup(rows, ids[t], a);
    if m.Some? {
      var k := RowKey(ids[t], MaskTo(a, m.value.bits));
      var e := RowSource(entries, ids, k);
      assert e.tenantId == t && Contains(e.prefix, a) && e.zone == m.value.zone;
    }
    if e :| e in entries && e.tenantId == t && Contains(e.prefix, a) {
      EntryHasRow(entries, ids, e);
      assert Holds(rows, ids[t], a, KeyOf(e, ids));
    }
  }

  /** The entry a row was written from: of those with its key, none comes later. */
  lemma RowSource(entries: seq<TrieEntry>, ids: map<string, nat>, k: RowKey) returns (e: TrieEntry)
    requires Interned(entries, ids) && k in RowsOf(entries, ids)
    ensures e in entries && KeyOf(e, ids) == k && e.zone == RowsOf(entries, ids)[k]
    ensures ZonesAscend(entries) && GoodIds(ids) ==>
              forall f :: f in entries && KeyOf(f, ids) == k ==> Code(f.zone) <= Code(e.zone)
  {
    hide RowsOf;
    var i := RowsOfLast(entries, ids, k);
    e := entries[i];
    if ZonesAscend(entries) && GoodIds(ids) {
      forall f | f in entries && KeyOf(f, ids) == k ensures Code(f.zone) <= Code(e.zone) {
        var j :| 0 <= j < |entries| && entries[j] == f;
        assert entries[j].tenantId == entries[i].tenantId && entries[j].prefix == entries[i].prefix;
      }
    }
  }

  lemma {:induction false} RowsOfLast(entries: seq<TrieEntry>, ids: map<string, nat>, k: RowKey) returns (i: nat)
    requires Interned(entries, ids) && k in RowsOf(entries, ids)
    ensures i < |entries| && KeyOf(entries[i], ids) == k && entries[i].zone == RowsOf(entries, ids)[k]
    ensures forall j :: i < j < |entries| ==> KeyOf(entries[j], ids) != k
    decreases |entries|
  {
    var n := |entries| - 1;
    if KeyOf(entries[n], ids) == k {
      i := n;
    } else {
      i := RowsOfLast(entries[..n], ids, k);
      assert forall j :: 0 <= j < n ==> entries[..n][j] == entries[j];
    }
  }

  lemma EntryHasRow(entries: seq<TrieEntry>, ids: map<string, nat>, e: TrieEntry)
    requires Interned(entries, ids) && e in entries
    ensures (e.tenantId == "" || e.tenantId in ids) && KeyOf(e, ids) in RowsOf(entries, ids)
  {
    hide RowsOf;
    var i :| 0 <= i < |entries| && entries[i] == e;
    RowsOfHas(entries, ids, i);
  }

  /** A shared subnet that is this one host. */
  ghost predicate SharedHost(snap: Snapshot, a: Addr) { SharedRow(snap, TrieEntry("", Prefix(a, 32), Shared)) }

  /** An infrastructure address matches the global row of its host: INFRA, unless a
      shared subnet is that one host, whose row then sorts last. */
  lemma InfraMatch(snap: Snapshot, ri: Index, entries: seq<TrieEntry>, ids: map<string, nat>, t: string, a: Addr)
    requires Built(snap, ri, entries, ids) && ZonesAscend(entries) && IsTenant(snap, t)
    requires a == METADATA_PREFIX.addr || InfraAddr(snap, a)
    ensures Interned(entries, ids)
    ensures var m := Lookup(RowsOf(entries, ids), TENANT_ID_UNSET, a);
            m.Some? && (m.value.zone == Infra <==> !SharedHost(snap, a))
  {
    HostRow(snap, ri, t, a);
    RowsMasked(snap, ri, entries, ids);
    HostKey(a);
    hide *;
    BuiltFacts(snap, ri, entries, ids);
    var host := TrieEntry("", Prefix(a, 32), Infra);
    var k := RowKey(TENANT_ID_UNSET, Prefix(a, 32));
    EntryHasRow(entries, ids, host);
    GlobalKey(host, ids);
    HostMatch(RowsOf(entries, ids), a);
    var e := RowSource(entries, ids, k);
    HostSource(snap, ri, entries, ids, a, e);
  }

  lemma BuiltFacts(snap: Snapshot, ri: Index, entries: seq<TrieEntry>, ids: map<string, nat>)
    requires Built(snap, ri, entries, ids)
    ensures GoodIds(ids) && Interned(entries, ids) && forall e :: e in entries <==> IsRow(snap, ri, e)
  {
  }

  lemma HostRow(snap: Snapshot, ri: Index, t: string, a: Addr)
    requires IsTenant(snap, t) && (a == METADATA_PREFIX.addr || InfraAddr(snap, a))
    ensures IsRow(snap, ri, TrieEntry("", Prefix(a, 32), Infra))
  {
    hide InfraAddr, IsTenant, OwnedRow, RouteRow, SharedRow;
    assert InfraRow(snap, TrieEntry("", Prefix(a, 32), Infra));
  }

  lemma GlobalKey(e: TrieEntry, ids: map<string, nat>)
    requires e.tenantId == ""
    ensures KeyOf(e, ids) == RowKey(TENANT_ID_UNSET, e.prefix)
  {
  }

  /** A host row is the longest match of its address. */
  lemma HostMatch(rows: Rows, a: Addr)
    requires RowKey(TENANT_ID_UNSET, Prefix(a, 32)) in rows && MaskTo(a, 32) == Prefix(a, 32)
    ensures Lookup(rows, TENANT_ID_UNSET, a) == Some(Match(32, rows[RowKey(TENANT_ID_UNSET, Prefix(a, 32))]))
  {
    hide MaskTo;
  }

  /** The entry behind a host row: SHARED if a shared subnet is that host. */
  lemma HostSource(snap: Snapshot, ri: Index, entries: seq<TrieEntry>, ids: map<string, nat>, a: Addr, e: TrieEntry)
    requires GoodIds(ids) && Interned(entries, ids) && forall e :: e in entries <==> IsRow(snap, ri, e)
    requires e in entries && KeyOf(e, ids) == RowKey(TENANT_ID_UNSET, Prefix(a, 32)) && (exists t :: IsTenant(snap, t))
    requires forall f :: f in entries && KeyOf(f, ids) == KeyOf(e, ids) ==> Code(f.zone) <= Code(e.zone)
    ensures e.zone == Infra <==> !SharedHost(snap, a)
  {
    hide *;
    EntryHasRow(entries, ids, e);
    KeyGlobal(e, ids, a);
    GlobalHost(snap, ri, e);
    SharedIs(snap, ri, a);
    SharedOverInfra();
    var shared := TrieEntry("", Prefix(a, 32), Shared);
    if SharedHost(snap, a) {
      KeyGlobal(shared, ids, a);
    }
  }

  lemma SharedOverInfra()
    ensures Code(Shared) > Code(Infra)
  {
  }

  lemma KeyGlobal(e: TrieEntry, ids: map<string, nat>, a: Addr)
    requires GoodIds(ids) && (e.tenantId == "" || e.tenantId in ids)
    ensures KeyOf(e, ids) == RowKey(TENANT_ID_UNSET, Prefix(a, 32)) <==> e.tenantId == "" && e.prefix == Prefix(a, 32)
  {
  }

  lemma SharedIs(snap: Snapshot, ri: Index, a: Addr)
    ensures SharedHost(snap, a) <==> SharedRow(snap, TrieEntry("", Prefix(a, 32), Shared))
    ensures SharedHost(snap, a) && (exists t :: IsTenant(snap, t)) ==>
              IsRow(snap, ri, TrieEntry("", Prefix(a, 32), Shared))
  {
    hide IsTenant, OwnedRow, RouteRow, InfraRow, SharedRow;
  }

  lemma GlobalHost(snap: Snapshot, ri: Index, e: TrieEntry)
    requires IsRow(snap, ri, e) && e.tenantId == "" && e.prefix.bits == 32
    ensures e.zone == Infra || (e.zone == Shared && SharedRow(snap, e))
  {
  }

  /** Seen from a VM whose peer no MAC accounts for (an OVN-synthesized DHCP answer,
      say), an infrastructure address classifies as INFRA if and only if none of the
      VM's tenant's own rows contains it, those rows coming first whatever their
      length, and no shared subnet is that one host. */
  lemma InfraRowDecidesIff(snap: Snapshot, byPort: map<string, string>, ri: Index, desired: map<Mac, TenantMeta>,
                           ips: seq<BaseIp>,
                           entries: seq<TrieEntry>, ids: map<string, nat>, k: KernelMaps,
                           vm: Mac, peer: Mac, localIp: Addr, remoteIp: Addr)
    requires IsDesired(snap, byPort, desired)
    requires (forall e :: e in entries <==> IsRow(snap, ri, e)) && Sorted(entries)
    requires WrittenFrom(k, desired, ips, entries, ids) && forall p :: p in ids ==> ids[p] < TENANT_AMPHORA_FLAG
    requires vm in k.macs && peer !in k.macs
    requires remoteIp == METADATA_PREFIX.addr || InfraAddr(snap, remoteIp)
    ensures LookupZone(k, vm, peer, localIp, remoteIp) == Infra <==>
              && !(exists e :: e in entries && e.tenantId == desired[vm].projectId && Contains(e.prefix, remoteIp))
              && !SharedHost(snap, remoteIp)
  {
    hide *;
    var owner := KnownVm(snap, byPort, desired, ips, entries, ids, k, vm);
    var t := desired[vm].projectId;
    WrittenRows(k, desired, ips, entries, ids);
    MakeBuilt(snap, ri, entries, ids);
    SortedZonesAscend(entries);
    ByTrie(k, vm, peer, localIp, remoteIp);
    TenantMatch(snap, ri, entries, ids, t, remoteIp);
    InfraMatch(snap, ri, entries, ids, owner, remoteIp);
    if e :| e in entries && e.tenantId == t && e.zone == Infra {
      IdIsNamed(ids, t);
      TenantRowsNeverInfra(snap, ri, e);
    }
  }

  lemma MakeBuilt(snap: Snapshot, ri: Index, entries: seq<TrieEntry>, ids: map<string, nat>)
    requires GoodIds(ids) && Interned(entries, ids) && forall e :: e in entries <==> IsRow(snap, ri, e)
    ensures Built(snap, ri, entries, ids)
  {
  }

  lemma IdIsNamed(ids: map<string, nat>, t: string)
    requires GoodIds(ids) && t in ids
    ensures t != ""
  {
  }

  /** With an unknown peer only the trie speaks: the tenant's rows, then the global ones. */
  lemma ByTrie(k: KernelMaps, vm: Mac, peer: Mac, localIp: Addr, remoteIp: Addr)
    requires vm in k.macs && peer !in k.macs
    ensures var own, shared := Lookup(k.trie, TenantIdOf(k.macs[vm]), remoteIp),
            Lookup(k.trie, TENANT_ID_UNSET, remoteIp);
            LookupZone(k, vm, peer, localIp, remoteIp) ==
            if own.Some? then own.value.zone else if shared.Some? then shared.value.zone else Miss
  {
  }

  lemma WrittenRows(k: KernelMaps, desired: map<Mac, TenantMeta>, ips: seq<BaseIp>, entries: seq<TrieEntry>,
                    ids: map<string, nat>)
    requires WrittenFrom(k, desired, ips, entries, ids)
    ensures GoodIds(ids) && Interned(entries, ids) && k.trie == RowsOf(entries, ids)
  {
  }

  /** A MAC of the MAC map carries its tenant's id, and some project owns its port. */
  lemma KnownVm(snap: Snapshot, byPort: map<string, string>, desired: map<Mac, TenantMeta>, ips: seq<BaseIp>,
                entries: seq<TrieEntry>, ids: map<string, nat>, k: KernelMaps, vm: Mac) returns (owner: string)
    requires IsDesired(snap, byPort, desired)
    requires WrittenFrom(k, desired, ips, entries, ids) && forall p :: p in ids ==> ids[p] < TENANT_AMPHORA_FLAG
    requires vm in k.macs
    ensures vm in desired && desired[vm].projectId in ids && TenantIdOf(k.macs[vm]) == ids[desired[vm].projectId]
    ensures IsTenant(snap, owner)
  {
    TenantValueRoundTrip(ids[desired[vm].projectId], desired[vm].isAmphora);
    LastWithIsLast(snap.ports, vm);
    owner := snap.ports[LastWith(snap.ports, vm)].projectId;
  }

  /** So the gateway of a subnet the VM's tenant owns alone never classifies as
      INFRA for that VM. */
  lemma OwnGatewayIsNotInfra(snap: Snapshot, byPort: map<string, string>, ri: Index, desired: map<Mac, TenantMeta>,
                             ips: seq<BaseIp>,
                             entries: seq<TrieEntry>, ids: map<string, nat>, k: KernelMaps,
                             vm: Mac, peer: Mac, localIp: Addr, i: nat, j: nat, gateway: Addr)
    requires IsDesired(snap, byPort, desired)
    requires forall e :: e in entries <==> IsRow(snap, ri, e)
    requires WrittenFrom(k, desired, ips, entries, ids) && forall p :: p in ids ==> ids[p] < TENANT_AMPHORA_FLAG
    requires vm in k.macs && peer !in k.macs
    requires i < |snap.networks| && vm in desired && Owned(snap.networks[i], desired[vm].projectId)
    requires j < |snap.subnets| && snap.subnets[j].isV4 && snap.subnets[j].networkId == snap.networks[i].id
    requires snap.subnets[j].cidr.Some? && Contains(snap.subnets[j].cidr.value, gateway)
    ensures LookupZone(k, vm, peer, localIp, gateway) != Infra
  {
    hide *;
    var owner := KnownVm(snap, byPort, desired, ips, entries, ids, k, vm);
    var t := desired[vm].projectId;
    WrittenRows(k, desired, ips, entries, ids);
    MakeBuilt(snap, ri, entries, ids);
    IdIsNamed(ids, t);
    var e := OwnSubnetRow(snap, ri, t, i, j, gateway);
    TenantMatch(snap, ri, entries, ids, t, gateway);
    ByTrie(k, vm, peer, localIp, gateway);
    var f :| f in entries && f.tenantId == t && f.zone == Lookup(k.trie, ids[t], gateway).value.zone;
    TenantRowsNeverInfra(snap, ri, f);
  }

  lemma OwnSubnetRow(snap: Snapshot, ri: Index, t: string, i: nat, j: nat, a: Addr) returns (e: TrieEntry)
    requires t != "" && i < |snap.networks| && Owned(snap.networks[i], t)
    requires j < |snap.subnets| && snap.subnets[j].isV4 && snap.subnets[j].networkId == snap.networks[i].id
    requires snap.subnets[j].cidr.Some? && Contains(snap.subnets[j].cidr.value, a)
    ensures IsRow(snap, ri, e) && e.tenantId == t && Contains(e.prefix, a)
  {
    hide RouteRow, InfraRow, SharedRow, Contains, MaskTo;
    var cidr := snap.subnets[j].cidr.value;
    e := TrieEntry(t, Masked(cidr), SameTenant);
    MaskedContains(cidr, a);
    assert SubnetPrefix(snap, snap.networks[i], j, e.prefix);
    assert OwnedRow(snap, e);
  }

  lemma MaskedContains(p: Prefix, a: Addr)
    requires Contains(p, a)
    ensures Contains(Masked(p), a)
  {
  }

  const EXAMPLE_SUBNET: Prefix := Prefix(0x0A00_0100, 24)
  const EXAMPLE_GATEWAY: Addr := 0x0A00_0101
  const EXAMPLE_VM: Addr := 0x0A00_0105

  /** Tenant t1 owns 10.0.1.0/24 with gateway 10.0.1.1; its one VM has MAC 7. */
  function ExampleSnapshot(): Snapshot {
    Snapshot([Network("n1", "t1", false, false)],
             [Subnet("s1", "n1", Some(EXAMPLE_SUBNET), Some(EXAMPLE_GATEWAY), true)],
             [Port("p1", "t1", Some(7), "compute:nova", "vm1", [FixedIp("s1", Some(EXAMPLE_VM))], "")],
             [], [], [])
  }

  /** In numbers: whatever order the example's rows are in and whatever id t1 gets, an
      answer from 10.0.1.1, an infrastructure address, to 10.0.1.5 is SAME_TENANT. */
  lemma OwnGatewayExample(byPort: map<string, string>, ri: Index, desired: map<Mac, TenantMeta>, ips: seq<BaseIp>,
                          entries: seq<TrieEntry>, ids: map<string, nat>, k: KernelMaps)
    requires forall id :: id in byPort ==> ServesFor(ExampleSnapshot(), id, byPort[id])
    requires IsDesired(ExampleSnapshot(), byPort, desired)
    requires forall e :: e in entries <==> IsRow(ExampleSnapshot(), ri, e)
    requires WrittenFrom(k, desired, ips, entries, ids) && forall p :: p in ids ==> ids[p] < TENANT_AMPHORA_FLAG
    ensures InfraAddr(ExampleSnapshot(), EXAMPLE_GATEWAY)
    ensures 7 in k.macs && 8 !in k.macs
    ensures LookupZone(k, 7, 8, EXAMPLE_VM, EXAMPLE_GATEWAY) == SameTenant
  {
    hide *;
    var snap := ExampleSnapshot();
    ExampleAddress();
    ExampleDesired(byPort, desired);
    ExampleMacs(k, desired, ips, entries, ids);
    ExamplePrefix();
    var owner := KnownVm(snap, byPort, desired, ips, entries, ids, k, 7);
    WrittenRows(k, desired, ips, entries, ids);
    MakeBuilt(snap, ri, entries, ids);
    ExampleSubnetRow(ri);
    TenantMatch(snap, ri, entries, ids, "t1", EXAMPLE_GATEWAY);
    ByTrie(k, 7, 8, EXAMPLE_VM, EXAMPLE_GATEWAY);
    var f :| f in entries && f.tenantId == "t1" && f.zone == Lookup(k.trie, ids["t1"], EXAMPLE_GATEWAY).value.zone;
    ExampleOwnRows(ri, f);
  }

  lemma ExampleAddress()
    ensures InfraAddr(ExampleSnapshot(), EXAMPLE_GATEWAY)
  {
    assert ExampleSnapshot().subnets[0].gateway == Some(EXAMPLE_GATEWAY);
  }

  lemma ExampleDesired(byPort: map<string, string>, desired: map<Mac, TenantMeta>)
    requires forall id :: id in byPort ==> ServesFor(ExampleSnapshot(), id, byPort[id])
    requires IsDesired(ExampleSnapshot(), byPort, desired)
    ensures 7 in desired && desired[7].projectId == "t1" && 8 !in desired
  {
    assert "p1" !in byPort;
    assert "compute:nova"[0] == 'c' && "network:"[0] == 'n';
    assert Admitted(ExampleSnapshot().ports[0]);
    assert LastWith(ExampleSnapshot().ports, 7) == 0;
    assert LastWith(ExampleSnapshot().ports, 8) == -1;
  }

  lemma ExampleMacs(k: KernelMaps, desired: map<Mac, TenantMeta>, ips: seq<BaseIp>, entries: seq<TrieEntry>,
                    ids: map<string, nat>)
    requires WrittenFrom(k, desired, ips, entries, ids) && 7 in desired && desired[7].projectId == "t1" && 8 !in desired
    ensures 7 in k.macs && 8 !in k.macs
  {
    assert "t1" != "";
    hide RowsOf;
  }

  lemma ExamplePrefix()
    ensures Contains(EXAMPLE_SUBNET, EXAMPLE_GATEWAY)
  {
    assert Pow2(4) == 16;
    assert Block(24) == 256;
  }

  lemma ExampleSubnetRow(ri: Index)
    requires Contains(EXAMPLE_SUBNET, EXAMPLE_GATEWAY)
    ensures exists e :: IsRow(ExampleSnapshot(), ri, e) && e.tenantId == "t1" && Contains(e.prefix, EXAMPLE_GATEWAY)
  {
    assert |"t1"| == 2;
    hide Contains, IsRow;
    var e := OwnSubnetRow(ExampleSnapshot(), ri, "t1", 0, 0, EXAMPLE_GATEWAY);
  }

  /** No router, hence no route: the tenant's rows are its own subnets. */
  lemma ExampleOwnRows(ri: Index, e: TrieEntry)
    requires IsRow(ExampleSnapshot(), ri, e) && e.tenantId == "t1"
    ensures e.zone == SameTenant
  {
    assert ExampleSnapshot().routers == [];
    assert |e.tenantId| == 2;
  }
}
