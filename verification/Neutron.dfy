/** One Neutron snapshot, its text already parsed: an absent prefix or address is
    one that did not parse as IPv4. */
module Neutron {
  import opened Bpf
  import opened Options
  import opened Ip

  datatype Network = Network(id: string, projectId: string, shared: bool, isExternal: bool)
  datatype Subnet = Subnet(id: string, networkId: string, cidr: Option<Prefix>, gateway: Option<Addr>, isV4: bool)
  datatype FixedIp = FixedIp(subnetId: string, addr: Option<Addr>)
  datatype Port = Port(id: string, projectId: string, mac: Option<Mac>, deviceOwner: string, deviceId: string,
                       fixedIps: seq<FixedIp>, externalNetwork: string)
  datatype Route = Route(destination: Option<Prefix>, nexthop: Option<Addr>)
  datatype Router = Router(id: string, projectId: string, routes: seq<Route>)
  datatype LoadBalancer = LoadBalancer(id: string, projectId: string, amphoraProvider: bool)
  datatype Amphora = Amphora(loadBalancerId: string, computeId: string, lbNetworkIp: Option<Addr>, deleted: bool)

  datatype Snapshot = Snapshot(
    networks: seq<Network>, subnets: seq<Subnet>, ports: seq<Port>, routers: seq<Router>,
    loadBalancers: seq<LoadBalancer>, amphorae: seq<Amphora>)

  const ROUTER_INTERFACE := "network:router_interface"

  predicate HasPrefix(s: string, prefix: string) { prefix <= s }

  predicate IsInfraPort(owner: string) { HasPrefix(owner, "network:") && owner != "network:floatingip" }

  predicate IsVMPort(owner: string) { owner != "" && !HasPrefix(owner, "network:") }

  predicate IsComputePort(owner: string) { HasPrefix(owner, "compute:") }
}
