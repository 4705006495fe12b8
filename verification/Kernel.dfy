/** The kernel's telemetry_map as userspace sees it: entries that can be read and
    whose delete may fail. */
module Kernel {
  import opened Bpf

  class KernelFlows {
    var flows: map<FlowKey, FlowMetrics>
    /** Entries the kernel currently refuses to delete. */
    var broken: set<FlowKey>

    /** Idempotent: deleting an entry already gone is no error. */
    method Delete(key: FlowKey) returns (ok: bool)
      modifies this`flows
      ensures ok <==> key !in broken
      ensures flows == if ok then old(flows) - {key} else old(flows)
    {
      ok := key !in broken;
      if ok {
        flows := flows - {key};
      }
    }
  }
}
