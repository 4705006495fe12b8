/** The userspace metadata behind every label: MAC attribution, the router map,
    and the one label rule that both the Collector and every fold go through. */
module Metadata {
  import opened Options
  import opened Bpf

  const UNKNOWN_TENANT := "unknown"
  const NO_EXTERNAL_NETWORK := "none"

  /** deleteAt is None for a live entry; Some(t) is a ghost whose grace ends at t. */
  datatype TenantMeta = TenantMeta(
    projectId: string, serverId: string, portId: string, externalNetwork: string,
    isAmphora: bool, deleteAt: Option<nat>)
  {
    predicate SameAttribution(o: TenantMeta) {
      this.(deleteAt := None) == o.(deleteAt := None)
    }
  }

  datatype Attribution = Attribution(tenant: string, serverId: string, portId: string, externalNetwork: string)

  /** What a fold needs to know about a row: exactly its tenant, its gated
      external label and its server. */
  datatype Owner = Owner(tenant: string, extNet: string, server: string)

  /** Everything the labels of a row depend on. */
  datatype Env = Env(meta: map<Mac, TenantMeta>, routers: map<Mac, string>)

  function VMMAC(k: FlowKey): Mac {
    if k.direction == Ingress then k.srcMac else k.dstMac
  }

  function PeerMAC(k: FlowKey): Mac {
    if k.direction == Ingress then k.dstMac else k.srcMac
  }

  function ExternalNetworkLabel(extNet: string, zone: ZoneCode): string {
    if zone != External || extNet == "" then NO_EXTERNAL_NETWORK else extNet
  }

  function FlowExternalLabel(routers: map<Mac, string>, vmExtNet: string, k: FlowKey): string {
    if k.dstZone != External then NO_EXTERNAL_NETWORK
    else if PeerMAC(k) in routers then routers[PeerMAC(k)]
    else ExternalNetworkLabel(vmExtNet, k.dstZone)
  }

  /** What the Collector labels a live row with, at scrape time. */
  function Resolve(env: Env, k: FlowKey): Attribution {
    if VMMAC(k) in env.meta then
      var m := env.meta[VMMAC(k)];
      Attribution(m.projectId, m.serverId, m.portId, FlowExternalLabel(env.routers, m.externalNetwork, k))
    else
      Attribution(UNKNOWN_TENANT, "", "", NO_EXTERNAL_NETWORK)
  }

  /** Completes a per-row choice of metadata into the owner a fold books under. */
  function SettleResolver(routers: map<Mac, string>, pick: FlowKey -> Option<TenantMeta>): FlowKey -> Option<Owner> {
    (k: FlowKey) =>
      match pick(k)
      case None => None
      case Some(m) => Some(Owner(m.projectId, FlowExternalLabel(routers, m.externalNetwork, k), m.serverId))
  }
}
