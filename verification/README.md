# Lachesis billing model

Lachesis meters tenant network traffic: a kernel classifier counts packets per flow, and an agent turns
the cumulative kernel counters into cumulative per-tenant series. This project models the agent's
billing core and the classifier in Dafny and proves what the design promises about them.

- **Ledger** (`Amounts`, `Billing`, `State`, `Series`): delta math over entry-identity stamps, the four
  maps of the global state changed in place, folds into the settled accumulators, prunes, and the value
  of every exposed series as a function of the ledger and of the labels in force.
- **Drains** (`Sink`, `Unresolved`, `Kernel`, `Pressure`): the buffer of flows whose VM is unknown, late
  binding, expiry, cap eviction, and the watermark reliever with its size-k heap.
- **Whole runs** (`Runs`, `Conservation`, `Attribution`, `RestartRuns`): a state machine over packets,
  ticks, MAC learning, ghosting, router swaps, ghost sweeps, prunes, clean shutdowns and restarts. No
  series decreases; no byte is lost or counted twice; every series rises by exactly what is booked under
  its label.
- **Re-attribution** (`Reconcile`, `Metadata`, `Interner`): the passes that change labels, each moving no
  series, with the kernel's MAC keys inside the userspace ones at every single write.
- **Classification** (`Neutron`, `StaticRoutes`, `TrieBuilder`, `TrieOrder`, `Trie`, `LpmKeys`,
  `KernelWriter`, `ColdStart`, `Classify`, `Ip`, `Bpf`): the snapshot becomes trie
  rows, a MAC map and an Amphora set; rows are written in full or as a delta; a two-pass longest-prefix
  lookup (longest match, section 5.1 of RFC 4632) classifies.
- **Scheduling and durability** (`Kick`, `Wal`, `WalRuns`, `Restart`, `Agent`): the debounced kick loop,
  the snapshot rotation under failures, crashes and power losses, and the restart that folds what
  changed owner while the agent was down.
- **Exposition** (`Collector`): the five aggregation families and how the tiers agree.

Components that change state are classes or methods proved against a specification function of the
same name; the properties are lemmas about those functions. Map iteration order is left open
everywhere: a result holds for every order. A missing series counts as zero.

## Conditions the results carry

- `Conservation.ExactlyOnce` is for runs below the buffer's cap, with every kernel delete succeeding, no
  reliever victim still buffered after the drain, and no swept MAC with a buffered flow. `Runs`, by
  contrast, allows failing deletes, evictions over the cap and any drained readings at all.
- `Capture` keeps the first stamp and compares magnitudes (`internal/unresolved/buffer.go:115-120`), so a
  kernel entry re-created while its flow is buffered may be under-counted;
  `Sink.RecreatedWhileBuffered` says exactly when, and `Sink.RecreatedUndercounts` gives a case.
- The trie diff is taken from the last committed rows (`internal/reconcile/reconcile.go:386`). A row that
  landed in a failed pass and is wanted by no later target stays (`Trie.AbandonedRowLingers`);
  `Trie.ReachesTargetIff` gives the exact kernels from which a pass reaches its target, and
  `Trie.CommitsIff` those from which it can be committed. The two differ: deleting an absent row is an
  error (`internal/kernelwriter/delta.go:136-151`), so once one delete of a pass worked and another failed,
  every retry of that target fails and is never committed (`Trie.FailedDeleteStalls`), and the steps after
  the trie in a reconcile pass (`internal/reconcile/reconcile.go:270-277`) wait with it.
- A MAC newly learned must not be the all-zero one, where the "unknown" rows live. `DesiredMACs` does not
  exclude it; `Runs.LearnInvisibleIff` says exactly when learning a MAC, any MAC, moves no series.
- Code and documentation disagree on one point, and the model follows the code. The text has an
  OVN-synthesized DHCP answer from a subnet's gateway classify INFRA through its global host row
  (`docs/architecture/trie-construction.md:298-303`); the lookup reads the tenant's rows first
  (`bpf/telemetry.c:348-360`), and the tenant's own subnet row contains the gateway.
  `Classify.InfraRowDecidesIff` says when the host row decides, `Classify.OwnGatewayIsNotInfra` and
  `Classify.OwnGatewayExample` when it does not.
- A kick's maximum wait runs from the moment the loop receives it; while a pass is in progress the kick
  sits in the channel (`internal/reconcile/reconcile.go:222-232`).
- The wire form keeps a settled bucket only if its external-network label is not empty. A router whose
  external network is missing from the snapshot gets an empty label
  (`internal/neutron/externalnet.go:189-193`); `Restart.WireRoundTrip` is an if-and-only-if, and
  `RestartRuns` assumes named routers.
- A power loss may undo directory changes made since the last directory sync, in order, newest first;
  file contents are durable once synced (`internal/wal/wal.go:9-11`).

## Model

| member | source | states |
|---|---|---|
| Amounts.GroupFoldStep | internal/state/state.go:184-214 | Visiting one more row credits exactly one bucket: an accumulation loop ends the same whatever order the map is walked in. |
| Amounts.GroupFoldSum | internal/metrics/collector.go:349-357 | Over any class of labels, accumulation adds to the buckets exactly the sum of the entries so labelled. |
| Amounts.SumAgree | internal/metrics/collector.go:292-327 | A series depends only on its non-zero rows. |
| Billing.TotalIsSumOfLastReadings | internal/state/state.go:74-112 | A row's total is the sum, over kernel entry lifetimes, of the last reading of each. |
| Billing.ScheduleIndependence | internal/state/state.go:74-112 | Two drain schedules that agree on the last reading of every lifetime book the same total. |
| Billing.SkippedDrain | internal/state/state.go:165-172 | Skipping any drain but the last of a lifetime leaves a valid history and changes no total. |
| Billing.AbsorbWithinLifetime | internal/state/state.go:95-104 | Within one lifetime total and baseline move together, whatever the row held before. |
| Billing.CrashRecoveryExact | internal/state/state.go:280-311 | Restoring a row as of any earlier flush and applying the next drain books what the uninterrupted run books, also when the restored stamp is 0. |
| State.GlobalState.constructor | internal/state/state.go:58-65 | Starts with four empty maps. |
| State.GlobalState.ApplyDelta | internal/state/state.go:74-112 | In place: exactly one row changes, by the delta rule of the ledger. |
| State.GlobalState.Add | internal/state/state.go:120-134 | In place: totals added without touching the baseline. |
| State.GlobalState.Resolve | internal/state/state.go:142-156 | In place: a buffered total merged into the row, the buffer's baseline taken over. |
| State.GlobalState.Settle | internal/state/state.go:180-219 | The loop over rows ends at the order-free fold: each resolvable row credited once to its tenant and, if it has one, its server bucket, then evicted or rebased; the count returned is the rows folded. |
| State.GlobalState.FoldOne | internal/state/state.go:190-213 | One row of that loop. |
| State.GlobalState.PruneServerSettled | internal/state/state.go:355-366 | Exactly the buckets of listed servers remain; the count returned is the difference. |
| State.GlobalState.PruneTenantSettled | internal/state/state.go:375-395 | Dead tenants' buckets move up, summed, into the total absorber; the rest is untouched. |
| State.GlobalState.ReleaseOne | internal/state/state.go:380-392 | One bucket of that loop. |
| Series.FoldIsInvisible | internal/state/state.go:180-219 | A fold that books rows under the labels they were exposed with, followed by any relabelling of the folded or empty rows, moves no total, tenant or server series. |
| Series.AttributionChangeInvisible | internal/reconcile/mac.go:135-199 | Folding a live MAC's history and then re-binding it to any attribution moves no series. |
| Series.RelabelledRowsAreFolded | internal/reconcile/routers.go:36-62 | Every row whose label differs between the old and the new router map is among the rows folded. |
| Series.RouterSwapInvisible | internal/reconcile/routers.go:31-69 | Replacing the router map by any other moves no series. |
| Series.GhostSweepInvisible | internal/gc/ghost.go:235-259 | Folding and evicting swept VMs' rows, then dropping their metadata, moves no series. |
| Series.SameLabels | internal/metadata/resolver.go:47-58 | Relabelling only empty rows moves no series. |
| Series.GrowthRaises | internal/scraper/scraper.go:163-165 | Rows that only appear or grow lower no series. |
| Series.PruneServersKeeps | internal/state/state.go:355-366 | Pruning servers moves no total or tenant series, nor a listed server's. |
| Series.PruneTenantsKeeps | internal/state/state.go:375-395 | Pruning tenants moves no total or server series, nor a listed tenant's. |
| Sink.WithoutRemoves | internal/unresolved/buffer.go:203-212 | Unlinking a flow from the duplicate-free LRU list removes exactly it. |
| Sink.CaptureBelowCap | internal/unresolved/buffer.go:103-114 | Below the cap a first capture evicts nothing. |
| Sink.EvictOverCapValid | internal/unresolved/buffer.go:169-181 | Cap eviction keeps map and LRU list over the same flows, each once. |
| Sink.AbsorbReadingValid | internal/unresolved/classifier.go:45-52 | So does absorbing any reading. |
| Sink.CapturesTrackKernel | internal/unresolved/buffer.go:115-121 | However often a flow is captured, the buffer holds its latest kernel count, once. |
| Sink.LateBindingCountsOnce | internal/unresolved/classifier.go:45-52 | Captures, then binding, then drains leave the row at the latest kernel count, every other row and the buffer as they were: nothing credited to "unknown". |
| Sink.RecreatedWhileBuffered | internal/unresolved/buffer.go:115-120 | A re-created entry is counted exactly if and only if each counter restarts below its baseline or had none. |
| Sink.RecreatedUndercounts | internal/unresolved/buffer.go:115-120 | A concrete case where it is not: 350 bytes booked as 250. |
| Unresolved.Buffer.constructor | internal/unresolved/buffer.go:82-96 | Starts with no buffered flow. |
| Unresolved.Buffer.Capture | internal/unresolved/buffer.go:103-122 | In place: map, list, ledger and kernel after a capture, cap eviction included. |
| Unresolved.Buffer.EvictOverCap | internal/unresolved/buffer.go:169-181 | In place: least recently captured flows leave until the cap holds. |
| Unresolved.Buffer.FoldOne | internal/unresolved/buffer.go:187-212 | In place: one flow booked to its unknown row, unlinked, and its kernel entry deleted if the delete works. |
| Unresolved.Buffer.Sweep | internal/unresolved/buffer.go:131-144 | Exactly the expired flows, or on shutdown all, leave; the kernel is reset unless shutting down. |
| Unresolved.Buffer.Resolve | internal/unresolved/buffer.go:151-160 | In place: a buffered flow becomes its row's, and the answer says whether there was one. |
| Unresolved.Scraper.Absorb | internal/unresolved/classifier.go:45-52 | In place: known VMs bind and take delta math, unknown ones are buffered. |
| Unresolved.Scraper.AbsorbAll | internal/scraper/scraper.go:163-165 | Every drained reading is absorbed once, in some order. |
| Unresolved.Scraper.Tick | internal/scraper/scraper.go:151-187 | A tick drains, absorbs, expires and relieves in this order, the relieved flows being the oldest of the drained and as many as the marks ask for; a failed drain changes nothing. |
| Kernel.KernelFlows.Delete | internal/unresolved/buffer.go:203-212 | Removes at most the one entry, and reports whether it could. |
| Runs.StepKeepsRows | internal/unresolved/classifier.go:45-52 | Every step keeps each live row an unknown row, a known VM's, or empty. |
| Runs.LearnIsInvisible | internal/reconcile/mac.go:135-182 | Learning a MAC other than the all-zero one, new or changed, moves no series of a reachable ledger. |
| Runs.LearnInvisibleIff | internal/reconcile/mac.go:75-104 | First learning a MAC, any MAC, moves no series if and only if every row of it keeps its label or holds nothing. |
| Runs.StepNeverLowers | internal/state/state.go:180-219 | No step of any kind lowers a series it spares. |
| Runs.RunNeverLowers | internal/reconcile/reconcile.go:290-321 | Nor does any run of steps. |
| Runs.SeriesNeverDecrease | internal/metrics/collector.go:257-373 | From any reachable state over any further run: no total series decreases, nor the unknown tenant's, nor a tenant or server series while its owner stays on the lists pruned by. |
| Conservation.ExactlyOnce | internal/scraper/scraper.go:151-187 | Live rows, tenant-settled, total-settled and buffer together equal the sum, over all kernel entry lifetimes, of the last drained count. |
| Conservation.KnownReading | internal/state/state.go:74-112 | Absorbing a known VM's reading adds exactly what its lifetime grew since it was last drained. |
| Conservation.UnknownReading | internal/unresolved/buffer.go:103-122 | So does buffering an unknown VM's. |
| Conservation.FoldOutAllBalance | internal/unresolved/buffer.go:131-144 | Folding flows out of the buffer moves amounts and loses none. |
| Conservation.SettleConserves | internal/state/state.go:180-219 | A fold under any owners, in either mode, conserves the books. |
| Conservation.PruneConserves | internal/state/state.go:375-395 | A tenant prune conserves the books. |
| Conservation.TickDrainsAll | internal/scraper/scraper.go:151-187 | After a tick, every entry still in the kernel has its current count as its last drained one. |
| Conservation.ShutdownKeepsBooks | internal/scraper/scraper.go:117-147 | The shutdown sweep empties the buffer and loses nothing. |
| Conservation.ShutdownExact | internal/agent/walflush.go:34-61 | After an exact run and a clean shutdown the books equal the last drained counts with nothing left in the buffer. |
| Attribution.KnownReadingRaises | internal/state/state.go:74-112 | A known VM's reading raises exactly the series of its row, by what the buffer held back plus what its lifetime newly counted. |
| Attribution.UnknownReadingHolds | internal/unresolved/buffer.go:103-122 | An unknown VM's raises none and leaves that amount in the buffer. |
| Attribution.FoldOutAllRaises | internal/unresolved/buffer.go:131-144 | Folding flows out raises exactly the series of their "unknown" rows, by their buffered totals. |
| Attribution.TickRaises | internal/scraper/scraper.go:151-187 | Over an exact tick each series rises by exactly what was due of the drained flows, and of the expired ones, booked under its label. |
| Reconcile.MacTables.Insert | internal/reconcile/mac.go:191-199 | One userspace write, recorded. |
| Reconcile.MacTables.Delete | internal/gc/ghost.go:255-259 | One userspace delete, recorded. |
| Reconcile.MacTables.UpdateKernel | internal/reconcile/mac.go:191-199 | One kernel write, recorded; it may fail. |
| Reconcile.MacTables.DeleteKernel | internal/gc/ghost.go:202-213 | One kernel delete, recorded; it may fail. |
| Reconcile.Reconciler.InsertMAC | internal/reconcile/mac.go:191-199 | Userspace before kernel: kernel keys inside userspace keys after each write, whether or not the kernel write lands. |
| Reconcile.Reconciler.LearnOne | internal/reconcile/mac.go:135-182 | One desired MAC: inserted, re-attributed after its fold, revived, or left alone; no series moves. |
| Reconcile.Reconciler.LearnMACs | internal/reconcile/mac.go:135-155 | A whole learn pass ends with the desired attributions, the others kept; the kernel holds the packed value of every MAC inserted or changed whose write landed, else what it held; no series moves; inclusion holds at every single write. |
| Reconcile.Reconciler.GhostGoneMACs | internal/reconcile/mac.go:208-223 | Exactly the live MACs that left start their grace, earlier deadlines stand; no series moves; inclusion holds. |
| Reconcile.Reconciler.ReconcileRouterMACs | internal/reconcile/routers.go:31-69 | The diff finds exactly the changed interfaces, the map is replaced, and no series moves. |
| Reconcile.DiffRouters | internal/reconcile/routers.go:36-49 | The two diff loops find exactly the changed, vanished and new interface MACs. |
| Reconcile.GhostSweeper.DeleteKernelMACs | internal/gc/ghost.go:202-213 | Exactly the MACs whose kernel delete worked are swept further. |
| Reconcile.GhostSweeper.EvictResidualFlows | internal/gc/ghost.go:219-229 | Exactly the swept VMs' deletable kernel flows go, and are counted. |
| Reconcile.GhostSweeper.DeleteUserspace | internal/gc/ghost.go:255-259 | Userspace last, so inclusion holds at every delete. |
| Reconcile.GhostSweeper.Sweep | internal/gc/ghost.go:156-164 | A whole sweep: exactly the expired MACs the kernel let go leave all maps, rows folded and evicted, no series moves, inclusion at every write. |
| Interner.TenantInterner.Intern | internal/metadata/interner.go:36-50 | Ids are stable, injective and non-zero; 0 is the empty project. |
| Interner.ValidIsGood | internal/metadata/interner.go:36-50 | Two projects never share an id. |
| Bpf.MACKeyInjective | internal/bpf/abi.go:29-33 | Two MACs share a map key only if they are equal. |
| Bpf.TenantValueRoundTrip | internal/bpf/schema.go:245-257 | Id and Amphora flag survive the packing exactly when the id is below 2^31. |
| Ip.MaskedUnique | internal/bpf/abi.go:48-59 | A masked prefix of given length containing an address is the address masked to it. |
| LpmKeys.StoredInverts | internal/bpf/abi.go:53-58 | Writing back what was read in native order gives the same bytes, on either kind of host. |
| LpmKeys.LpmKeyInjective | internal/bpf/abi.go:48-59 | Two rows share a kernel key only if tenant and prefix are equal, whatever the host byte order. |
| LpmKeys.MatchesIffContains | internal/bpf/abi.go:38-59 | The leading prefixlen bits of a row's key bytes agree with a probe's if and only if the tenant is the same and the prefix contains the address: what wire byte order is for. |
| LpmKeys.ProbeIsLookup | bpf/telemetry.c:337-360 | A longest-prefix probe of the byte-encoded map answers exactly what lookup over the rows does. |
| Trie.LookupIsLongest | bpf/telemetry.c:337-360 | Lookup returns a containing row with none longer, and a miss means none contains the address. |
| Trie.MoreRowsLonger | internal/kernelwriter/delta.go:56-68 | With more keys a match is never shorter. |
| Trie.SafeInBetween | internal/kernelwriter/delta.go:69-154 | Between two row sets each lookup matches an old or a new row, at least as long as the shorter of its old and new matches. |
| Trie.DeltaReachesTarget | internal/kernelwriter/delta.go:69-154 | A pass with no failed write ends exactly at the new rows. |
| Trie.RetryReachesTarget | internal/kernelwriter/delta.go:126-133 | A failed upsert deletes nothing and is reported; a successful retry of the same target reaches it. |
| Trie.ReachesTargetIff | internal/kernelwriter/delta.go:69-154 | From an arbitrary kernel the rows reach the target if and only if no stray row lingers and every row taken for unchanged is there. |
| Trie.CommitsIff | internal/reconcile/reconcile.go:385-396 | A pass can be committed if and only if no write it makes fails and every row it has to delete is there. |
| Trie.FailedDeleteStalls | internal/kernelwriter/delta.go:136-151 | After a pass whose upserts landed and some of whose deletes failed, the m-th retry has the target rows but is committed only if it is the first and no delete had worked. |
| Trie.PassStaysBetween | internal/kernelwriter/delta.go:69-154 | Any pass, whichever writes fail, from between the old and new rows ends between them. |
| Trie.AbandonedRowLingers | internal/reconcile/reconcile.go:385-396 | A concrete row that survives a failed pass and a successful later one. |
| KernelWriter.KernelTrie.Update | internal/kernelwriter/delta.go:103-118 | One row written, recorded; it may fail. |
| KernelWriter.KernelTrie.Delete | internal/kernelwriter/delta.go:136-151 | One row deleted, recorded; it fails on an absent row. |
| KernelWriter.IndexRows | internal/kernelwriter/delta.go:81-98 | The index of a row list is what writing it in order leaves, duplicates included. |
| KernelWriter.WriteSubnetZoneTrie | internal/kernelwriter/writer.go:94-124 | Every row that can be written is, in order, and counted; into an empty map with no failure that is exactly the rows. |
| KernelWriter.ApplyTrieDelta | internal/kernelwriter/delta.go:69-154 | Final rows, reported failure and counts of a delta pass, whatever writes fail; every kernel state after a single write lies midway. |
| KernelWriter.UpsertAll | internal/kernelwriter/delta.go:103-133 | Every upsert that can land does, whatever failed before it. |
| KernelWriter.DeleteGone | internal/kernelwriter/delta.go:135-151 | Exactly the deletable rows no longer wanted go. |
| KernelWriter.MidwayIsBetween | internal/kernelwriter/delta.go:69-154 | Every midway state of a pass or of any retry lies between the old and the new rows, so SafeInBetween applies to it. |
| StaticRoutes.BestRouteIsLongest | internal/neutron/resolve.go:280-294 | The route chosen covers the destination and no covering route is longer. |
| StaticRoutes.LpmMatchRoute | internal/neutron/resolve.go:280-294 | The scan returns that route. |
| StaticRoutes.AnchorSubnet | internal/neutron/resolve.go:179-194 | The scan returns the first attached subnet containing the nexthop. |
| StaticRoutes.ResolveAtNextRouter | internal/neutron/resolve.go:213-260 | The scan collects the attached networks other than the one entered; one owner resolves, several are reported. |
| StaticRoutes.ResolveStaticRouteZone | internal/neutron/resolve.go:86-175 | The trace loop returns the specified outcome, along a path of distinct routers. |
| StaticRoutes.NeverTwice | internal/neutron/resolve.go:86-175 | No router is entered twice. |
| StaticRoutes.EnoughHopsNeverExhaust | internal/neutron/resolve.go:86-175 | Hops left plus routers visited exceeding the routers known, the limit is never reached. |
| StaticRoutes.NoHopExhaustion | internal/neutron/resolve.go:86-175 | So a limit of at least the number of routers is never exhausted. |
| StaticRoutes.MoreHopsSameAnswer | internal/neutron/resolve.go:86-175 | Raising the limit never changes an answer that was not hop-exhausted. |
| StaticRoutes.AnswersAreReal | internal/neutron/resolve.go:86-175 | A resolved zone implies a real chain of longest-match route hops ending at an attached subnet covering the destination, all such subnets having one owner, or at a compute port. |
| StaticRoutes.NewIndex | internal/neutron/resolve.go:32-76 | The index files every router of the snapshot under its own id. |
| StaticRoutes.IndexExact | internal/neutron/resolve.go:32-76 | The last router, subnet and network of every id, each router's interface subnets in port order, the last port at every address, and the limit given unless below 1. |
| TrieBuilder.Builder.constructor | internal/neutron/trie.go:67-86 | The tenants are exactly the projects owning a network, port or router. |
| TrieBuilder.Builder.EmitCatchall | internal/neutron/trie.go:107-112 | Adds the global catchall exactly when there is a tenant. |
| TrieBuilder.Builder.EmitOwnedSubnets | internal/neutron/trie.go:119-134 | Adds exactly the subnets of networks a tenant owns alone, as its own. |
| TrieBuilder.Builder.EmitSharedSubnets | internal/neutron/trie.go:140-147 | Adds exactly the shared subnets, globally. |
| TrieBuilder.Builder.EmitInfraPrefixes | internal/neutron/trie.go:151-159 | Adds exactly the infrastructure host rows, globally. |
| TrieBuilder.Builder.EmitExtraRoutes | internal/neutron/trie.go:166-201 | Adds exactly one row per usable static route, with its traced zone. |
| TrieBuilder.Builder.BuildTrie | internal/neutron/trie.go:33-42 | The five steps produce every documented row and no other, in order. |
| TrieBuilder.NoRowIsMiss | internal/neutron/trie.go:107-201 | No row carries MISS. |
| TrieOrder.SortEntries | internal/neutron/trie.go:350-364 | The rows in order of tenant, prefix and zone, none lost or added. |
| TrieOrder.SortedZonesAscend | internal/neutron/trie.go:350-364 | So of the rows of one tenant and prefix the one with the highest zone code is written last. |
| Classify.AmphoraLBOwners | internal/neutron/octavia.go:61-79 | Exactly the amphora load balancers with id and owner, the last of each id. |
| Classify.AmphoraBindings | internal/neutron/octavia.go:108-124 | Exactly the instances of live Amphorae of those, the last Amphora of each. |
| Classify.AmphoraDataPorts | internal/neutron/octavia.go:129-142 | Exactly the ports of those instances that do not hold the management address, the last of each id. |
| Classify.AmphoraOwnerByPort | internal/neutron/octavia.go:44-48 | Every port named serves a load balancer of the owner named; every port of a live Amphora that is no management port is named. |
| Classify.DesiredMACs | internal/reconcile/mac.go:75-104 | Exactly the admitted MACs, each attributed as its last port says, Amphora data ports to the load balancer's owner. |
| Classify.LastWithIsLast | internal/reconcile/mac.go:75-104 | The port that decides a MAC's attribution is the last admitted one carrying it. |
| Classify.AmphoraBaseIPs | internal/neutron/octavia.go:198-218 | Exactly the IPv4 fixed addresses of Amphora data ports, under their owners. |
| Classify.BothTapsAgree | bpf/telemetry.c:310-336 | A frame between two known MACs gets one zone at both taps. |
| Classify.Segment2IsInfra | bpf/telemetry.c:310-336 | A frame between an admitted Amphora data port alone with its MAC, using one of its own addresses, and any known VM is INFRA at both taps, for ids below 2^31. |
| Classify.CatchallHolds | internal/neutron/trie.go:107-112 | Once a tenant exists the global rows match every address. |
| Classify.MatchNeverMiss | internal/neutron/trie.go:33-42 | No match against rows built from a snapshot is MISS. |
| Classify.KnownVmNeverMisses | bpf/telemetry.c:310-361 | For every snapshot, a frame of a VM in the MAC map written from it never classifies as MISS over the trie built from it. |
| Classify.TenantMatch | bpf/telemetry.c:348-352 | A tenant's rows match an address if and only if one of its entries contains it, with the zone of one of its entries. |
| Classify.InfraMatch | bpf/telemetry.c:353-360 | An infrastructure address matches its host row: INFRA, unless a shared subnet is that host and sorts after. |
| Classify.InfraRowDecidesIff | bpf/telemetry.c:348-360 | With an unknown peer MAC, an infrastructure address classifies INFRA if and only if no row of the VM's tenant contains it and no shared subnet is that one host. |
| Classify.OwnGatewayIsNotInfra | docs/architecture/trie-construction.md:298-303 | The gateway of a subnet the VM's tenant owns alone never classifies INFRA for that VM, against what the text says of DHCP answers. |
| Classify.OwnGatewayExample | docs/architecture/trie-construction.md:298-303 | A snapshot with the documented 10.0.1.0/24 and 10.0.1.1: whatever its rows' order and its tenant's id, SAME_TENANT. |
| ColdStart.MacPairs | internal/kernelwriter/writer.go:53-67 | The collecting loop: exactly the MACs with a project, each with its packed value. |
| ColdStart.WriteAll | internal/kernelwriter/writer.go:69-85 | The writing loop: everything that can be written is, a failure stops nothing, and the count is of the writes that landed. |
| ColdStart.WriteMacTenantMap | internal/kernelwriter/writer.go:38-85 | Into an empty map with no failure: exactly the attributed MACs with their packed values. |
| ColdStart.WriteAmphoraBaseIPs | internal/kernelwriter/writer.go:139-170 | Every owned base address that can be written is, nothing is removed, and count and failure say exactly which. |
| ColdStart.PushSnapshot | internal/agent/coldstart_linux.go:177-205 | Join, MAC map, trie and base addresses of one snapshot, written to empty maps with no failure, are in the relation every classification result assumes. |
| ColdStart.PushAll | internal/agent/coldstart_linux.go:177-205 | The three writers in turn, the first failure ending the cold start. |
| Pressure.RootIsNewest | internal/gc/pressure.go:143-153 | The heap's root is its newest flow. |
| Pressure.SiftUp | internal/gc/pressure.go:110-130 | Push restores the heap and keeps the entries. |
| Pressure.SiftDown | internal/gc/pressure.go:110-130 | Fix at the root restores the heap and keeps the entries. |
| Pressure.SelectOldest | internal/gc/pressure.go:110-130 | min(k, n) distinct flows, none newer than any left behind. |
| Pressure.PressureReliever.Relieve | internal/gc/pressure.go:64-101 | One pass: the flag, the number of victims, that they are the oldest, what the kernel holds after, and, over its own flows with nothing broken, how many it leaves. |
| Pressure.PressureReliever.EvictAll | internal/gc/pressure.go:84-96 | The count is of the deletes that worked, and exactly those are gone. |
| Pressure.EvictsIffHighSinceLow | internal/gc/pressure.go:64-82 | A pass evicts if and only if the high mark was exceeded since the population was last at or below low. |
| Pressure.DrainsToLow | internal/gc/pressure.go:64-101 | From any pass that relieves, a cycle under way or the high mark just exceeded, with no new flow and every delete succeeding, low is reached after ceil((n - low) / cap) passes, not before, and never undershot. |
| Collector.MetricsCollector.Aggregate | internal/metrics/collector.go:257-268 | The five loops leave the five families of the snapshot. |
| Collector.MetricsCollector.AggregateLiveRows | internal/metrics/collector.go:292-327 | One pass over the rows accumulates four families at once. |
| Collector.Accumulate | internal/metrics/collector.go:334-373 | A bucket loop ends at the order-free accumulation. |
| Collector.FamiliesAreSeries | internal/metrics/collector.go:257-373 | What the families hold for a series is the value all other results speak of. |
| Collector.TotalTierAgrees | internal/metrics/collector.go:349-373 | Total equals tenants summed plus total-settled. |
| Collector.ServerTierAgrees | internal/metrics/collector.go:334-344 | Server equals its ports summed plus server-settled. |
| Collector.ProtoTierAgrees | internal/metrics/schema.go:58-68 | The protocol family summed over protocol equals the port family summed over zone and external network. |
| Kick.KickLoop.Kick | internal/reconcile/reconcile.go:178-184 | Never blocks; fills the one-slot channel or coalesces. |
| Kick.KickLoop.Receive | internal/reconcile/reconcile.go:214-238 | One select turn: channel, timer, deadline and pass after it. |
| Kick.KickLoop.Run | internal/reconcile/reconcile.go:194-243 | The loop refines the event machine for any order of events. |
| Kick.KickIsCarried | internal/reconcile/reconcile.go:216-233 | A kick is carried by a later pass, the channel, or, between passes only, the timer. |
| Kick.NoKickLost | internal/reconcile/reconcile.go:178-243 | Every kick is followed by a pass that starts after it, or is still buffered or armed. |
| Kick.PassesAtMostKicks | internal/reconcile/reconcile.go:214-238 | Kick passes, done or owed, never outnumber kicks. |
| Kick.TimerExact | internal/reconcile/reconcile.go:229-233 | The timer is due at the earlier of the last debounced kick's window end and the first waiting kick's receipt plus the maximum wait. |
| Kick.DueByDeadline | internal/reconcile/reconcile.go:229-236 | So a waiting pass is due by that deadline however many kicks follow and however the window is retuned, and once due an idle loop may start it. |
| Wal.WalFiles.Save | internal/wal/wal.go:113-146 | Which file steps are through for each failing stage; on success the primary holds the snapshot and the backup the previous primary. |
| Wal.WalFiles.Quarantine | internal/wal/wal.go:248-256 | Moves the primary aside if there is one; an absent one is no failure, a failing rename changes nothing. |
| WalRuns.SaveIsARun | internal/wal/wal.go:113-146 | A Save stopped at any stage leaves the directory the run machine reaches. |
| WalRuns.StepKeepsInv | internal/wal/wal.go:113-146 | Every file step, failure, crash, power loss and boot keeps a recent save loadable from every directory state a power loss could restore. |
| WalRuns.RecentLoads | internal/wal/wal.go:212-242 | Such a directory loads a recent save. |
| WalRuns.LoadNeverLosesASave | internal/wal/wal.go:212-242 | After a first completed save, over any run: Load returns the last completed save or a later attempt, never empty, error or refusal; with no attempt since, exactly that save. |
| WalRuns.NewerIsNeverTouched | internal/wal/wal.go:212-223 | A refused newer snapshot is never rotated away. |
| Restart.RestoreInvertsListing | internal/state/state.go:280-311 | Restoring a map listed in any order gives the map back. |
| Restart.WireRoundTrip | internal/wal/wal.go:285-429 | The wire form loses nothing if and only if every owner is named or absent and every bucket label is non-empty. |
| Restart.Encode | internal/wal/wal.go:54-98 | Every record and bucket in its wire form. |
| Restart.Decode | internal/wal/wal.go:309-429 | Every wire entry back, the legacy tenant section included. |
| Restart.SeedInvertsFlush | internal/agent/walflush.go:190-201 | A boot seeds exactly the ledger that was flushed. |
| Restart.ChangedOwnersExact | internal/agent/walflush.go:107-119 | Exactly the rows whose named owner no longer resolves the same are folded, under the recorded owner. |
| Restart.RestartInvisible | internal/agent/walflush.go:98-127 | Whatever changed while the agent was down, every series restarts exactly where the flush left it. |
| Series.GhostFoldInvisible | internal/agent/walflush.go:63-87 | Folding lingering ghosts at shutdown moves no series. |
| Restart.RebaseKeepsTheBooks | internal/state/state.go:206-212 | A rebased row's next drain adds what it would have added before the fold. |
| Agent.Agent.SettleLingeringGhosts | internal/agent/walflush.go:71-87 | The collecting loop and fold equal the fold of exactly the ghosts, counted; no series moves. |
| Agent.Agent.FlushWAL | internal/agent/walflush.go:135-148 | The file written is a flush of the ledger under the labels in force; a failing stage leaves the steps before it. |
| Agent.Agent.SettleChangedOwners | internal/agent/walflush.go:107-127 | The collecting loop and fold equal the specified boot fold, counted. |
| Agent.Agent.RestoreFromWAL | internal/agent/walflush.go:159-222 | Boots unless the snapshot is newer; restores and folds what it loaded, else starts empty; quarantines an unusable primary; carries or stamps the reset epoch. |
| RestartRuns.FlushIsWireSafe | internal/agent/walflush.go:135-148 | A flush of a ledger with named labels survives the wire unchanged. |
| RestartRuns.StepKeepsNamed | internal/metadata/routers.go:92-100 | Every step keeps every settled label named. |
| RestartRuns.LifeNeverLowers | internal/agent/walflush.go:159-222 | The next boot exposes exactly what the flush exposed, no less than what the life began with. |
| RestartRuns.NeverBelowAnyFlush | internal/agent/walflush.go:34-61 | Over any number of lives from an empty start, ended by a crash or by a clean shutdown, no spared series ever falls below what any earlier boot exposed. |

## Left out

- Counters are natural numbers: wrap-around of 64-bit counters is not modelled.
- Interned ids are unbounded; results that need ids below 2^31 say so.
- A MAC address is its packed number; its bytes appear only in `Bpf.MACKeyInjective`.
- Runs.LearnIsInvisible: assumes the MAC is not all-zero; `Runs.LearnInvisibleIff` has the exact condition for any MAC.
- Reconcile.Reconciler.LearnOne: assumes the same, since rows of the all-zero MAC are the "unknown" ones.
- Reconcile.Reconciler.LearnMACs: assumes the same of the whole desired map.
- CIDR, address, MAC and JSON texts: the model starts from parsed values, an unparseable one being absent; case-insensitive provider and status comparisons are booleans of the snapshot.
- IPv6, ARP and the frame parsing around the lookup in `bpf/telemetry.c`; per-CPU counter slots; a full kernel map refusing an insert.
- `ExternalNetworkByPort` and `RouterExtMACs` (`internal/neutron/externalnet.go`): their results are inputs.
- TrieOrder.SortEntries: orders prefixes by number where the source orders their text; equal rows fall together either way.
- The ambiguity and cycle reports of a build, and how often a row is repeated in it: `TrieBuilder.Builder.BuildTrie` states which rows are built and their order.
- Watermarks are integers; the guard for a reliever without a map size is not modelled.
- Failing kernel operations: which keys fail is fixed for the duration of one pass.
- Drains interleaved inside a fold and its re-bind, or inside a sweep: the code gives no exactness there. Sweep and learn passes do not overlap.
- Locks, sharding, the boot sequencer, timers other than the kick timer, shutdown of the reconcile loop.
- A row left by a VM forgotten over a restart keeps a baseline the buffer later ignores; the conservation result starts from an empty state and has no restarts, while the monotonicity result over several lives includes them.
- `RestartRuns` takes the flush a boot loads as the end of a life; which flush that is on disk is the subject of `WalRuns`.
- Netlink, TC attachment, BPF loading, the OpenStack clients, Kafka, HTTP, configuration, metric emission and logging: input, output and presentation.
