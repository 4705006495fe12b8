/** The kernel/userspace vocabulary: flow keys, counters, zones, and the packed
    encodings both sides of the kernel boundary must agree on. */
module Bpf {
  import opened Amounts

  datatype ZoneCode = External | SameTenant | OtherTenant | Infra | Miss | Shared | Multicast

  /** The tap's ingress hook sees what the VM sends, its egress hook what it receives. */
  datatype Direction = Ingress | Egress

  datatype L4Proto = L4Unknown | Tcp | Udp | Icmp | L4Other

  /** A MAC packed into the low 48 bits of a u64, most significant byte first. */
  type Mac = nat

  datatype FlowKey = FlowKey(
    srcMac: Mac, dstMac: Mac, ethProto: nat, direction: Direction, dstZone: ZoneCode, l4Proto: L4Proto)

  /** count is cumulative for one kernel entry's lifetime; createdNs is the
      entry-identity stamp, 0 meaning "identity unknown". */
  datatype FlowMetrics = FlowMetrics(count: Amount, lastSeenNs: nat, createdNs: nat)

  const NO_METRICS := FlowMetrics(ZERO, 0, 0)

  function Max(a: nat, b: nat): nat { if a > b then a else b }

  // ---------------------------------------------------------------------
  // MAC packing
  // ---------------------------------------------------------------------

  type Byte = b: nat | b < 256

  datatype MacBytes = MacBytes(b0: Byte, b1: Byte, b2: Byte, b3: Byte, b4: Byte, b5: Byte)

  /** Shift the bytes packed so far up by one and or in the next one. */
  function Push(hi: nat, b: Byte): nat { hi * 256 + b }

  lemma PushInjective(h: nat, a: Byte, i: nat, b: Byte)
    ensures Push(h, a) == Push(i, b) <==> h == i && a == b
  {
  }

  function MACKey(m: MacBytes): Mac {
    Push(Push(Push(Push(Push(m.b0, m.b1), m.b2), m.b3), m.b4), m.b5)
  }

  /** Distinct MACs never share a map key. */
  lemma MACKeyInjective(a: MacBytes, b: MacBytes)
    ensures MACKey(a) == MACKey(b) <==> a == b
  {
    hide Push;
    PushInjective(a.b0, a.b1, b.b0, b.b1);
    var a2, b2 := Push(a.b0, a.b1), Push(b.b0, b.b1);
    PushInjective(a2, a.b2, b2, b.b2);
    var a3, b3 := Push(a2, a.b2), Push(b2, b.b2);
    PushInjective(a3, a.b3, b3, b.b3);
    var a4, b4 := Push(a3, a.b3), Push(b3, b.b3);
    PushInjective(a4, a.b4, b4, b.b4);
    PushInjective(Push(a4, a.b4), a.b5, Push(b4, b.b4), b.b5);
  }

  // ---------------------------------------------------------------------
  // mac_tenant_map values: an Amphora flag over a 31-bit tenant id
  // ---------------------------------------------------------------------

  const TENANT_AMPHORA_FLAG := 0x8000_0000

  /** tenantID | flag, for any u32 tenantID. */
  function TenantValue(tenantID: nat, isAmphora: bool): nat {
    if isAmphora && tenantID < TENANT_AMPHORA_FLAG then tenantID + TENANT_AMPHORA_FLAG else tenantID
  }

  function TenantIdOf(value: nat): nat { value % TENANT_AMPHORA_FLAG }

  predicate HasAmphoraFlag(value: nat) { (value / TENANT_AMPHORA_FLAG) % 2 == 1 }

  /** The packing loses nothing exactly when the id leaves the top bit free. */
  lemma TenantValueRoundTrip(tenantID: nat, isAmphora: bool)
    requires tenantID < 0x1_0000_0000
    ensures tenantID < TENANT_AMPHORA_FLAG <==>
              TenantIdOf(TenantValue(tenantID, isAmphora)) == tenantID
    ensures tenantID < TENANT_AMPHORA_FLAG ==> HasAmphoraFlag(TenantValue(tenantID, isAmphora)) == isAmphora
  {
  }
}
