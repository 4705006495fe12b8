/** The whole agent as a state machine: kernel counters, scrape ticks, and the
    re-attribution protocols, over every interleaving of their steps. */
module Runs {
  import opened Amounts
  import opened Bpf
  import opened Options
  import opened Metadata
  import opened Billing
  import opened S = Sink
  import opened Series

  /** One kernel entry lifetime. */
  datatype Lifetime = Lifetime(key: FlowKey, stamp: nat)

  /** drained is history only: the last drained count of every lifetime. clock is
      the latest kernel time any stamp was taken at. */
  datatype World = World(sink: S.Sink, env: Env, drained: map<Lifetime, Amount>, clock: nat)

  function Init(): World { World(S.Sink(Empty(), map[], [], map[]), Env(map[], map[]), map[], 0) }

  datatype Step =
    | Packet(key: FlowKey, bytes: nat, at: nat)
    | Tick(buf: map<FlowKey, FlowMetrics>, keys: seq<FlowKey>, expired: seq<FlowKey>, victims: set<FlowKey>, t: Knobs)
    | Learn(mac: Mac, want: TenantMeta)
    | MarkGhost(mac: Mac, until: nat)
    | SwapRouters(desired: map<Mac, string>)
    | SweepGhosts(swept: set<Mac>, failed: set<FlowKey>)
    | PruneServerList(servers: set<string>)
    | PruneTenantList(projects: set<string>)
    | FlushBuffer(keys: seq<FlowKey>, t: Knobs)
    | SettleGhosts

  /** What any step needs. No Neutron port is taken to carry the all-zero MAC (see
      LearnInvisibleIff). The last two steps are a clean shutdown's: every buffered
      flow folded out, then every lingering ghost's rows. */
  ghost predicate Enabled(w: World, st: Step) {
    match st
    case Packet(k, _, at) => at > w.clock
    case Tick(buf, keys, expired, victims, t) => IsTick(w.sink, w.env.meta, buf, keys, expired, victims, t)
    case Learn(mac, want) => mac != 0 && want.deleteAt == None
    case MarkGhost(mac, _) => mac in w.env.meta
    case SwapRouters(_) => true
    case SweepGhosts(swept, _) => forall m :: m in swept ==> m in w.env.meta && w.env.meta[m].deleteAt.Some?
    case PruneServerList(_) => true
    case PruneTenantList(_) => true
    case FlushBuffer(keys, _) => w.sink.Valid() && S.NoDup(keys) && forall k :: k in keys <==> k in w.sink.entries
    case SettleGhosts => true
  }

  /** The kernel counting one packet: the entry grows, or a fresh one is stamped. */
  function Counted(kernel: map<FlowKey, FlowMetrics>, k: FlowKey, bytes: nat, at: nat): map<FlowKey, FlowMetrics> {
    if k in kernel then kernel[k := FlowMetrics(kernel[k].count.Plus(Amount(bytes, 1)), at, kernel[k].createdNs)]
    else kernel[k := FlowMetrics(Amount(bytes, 1), at, at)]
  }

  ghost function DrainedAfter(drained: map<Lifetime, Amount>, buf: map<FlowKey, FlowMetrics>,
                              keys: seq<FlowKey>): map<Lifetime, Amount>
    requires forall k :: k in keys ==> k in buf
  {
    if keys == [] then drained
    else
      var k := keys[|keys| - 1];
      DrainedAfter(drained, buf, keys[..|keys| - 1])[Lifetime(k, buf[k].createdNs) := buf[k].count]
  }

  /** The ledger once a MAC is learned: its history is folded first if its
      attribution changes. */
  ghost function LearnedLedger(l: Ledger, env: Env, mac: Mac, want: TenantMeta): Ledger {
    if mac in env.meta && !env.meta[mac].SameAttribution(want)
    then Settle(l, SettleRebase, SettleResolver(env.routers, PickMac(mac, env.meta[mac])))
    else l
  }

  ghost function Learned(w: World, mac: Mac, want: TenantMeta): World {
    w.(sink := w.sink.(ledger := LearnedLedger(w.sink.ledger, w.env, mac, want)),
       env := w.env.(meta := w.env.meta[mac := want]))
  }

  ghost function Swept(w: World, swept: set<Mac>, failed: set<FlowKey>): World {
    w.(sink := w.sink.(
         ledger := Settle(w.sink.ledger, SettleEvict, SettleResolver(w.env.routers, PickSwept(w.env.meta, swept))),
         kernel := map k | k in w.sink.kernel && (VMMAC(k) !in swept || k in failed) :: w.sink.kernel[k]),
       env := w.env.(meta := w.env.meta - swept))
  }

  /** The whole buffer folded out, the kernel left alone. */
  ghost function Flushed(w: World, keys: seq<FlowKey>, t: Knobs): World
    requires w.sink.Valid() && S.NoDup(keys) && forall k :: k in keys ==> k in w.sink.entries
  {
    w.(sink := FoldOutAll(w.sink, keys, false, t))
  }

  ghost function GhostsSettled(w: World): World {
    w.(sink := w.sink.(ledger := Settle(w.sink.ledger, SettleRebase,
                                        SettleResolver(w.env.routers, PickGhosts(w.env.meta)))))
  }

  ghost function Next(w: World, st: Step): World
    requires Enabled(w, st)
  {
    match st
    case Packet(k, bytes, at) =>
      w.(sink := w.sink.(kernel := Counted(w.sink.kernel, k, bytes, at)), clock := at)
    case Tick(buf, keys, expired, victims, t) =>
      w.(sink := TickResult(w.sink, w.env.meta, buf, keys, expired, victims, t),
         drained := DrainedAfter(w.drained, buf, keys))
    case Learn(mac, want) => Learned(w, mac, want)
    case MarkGhost(mac, until) =>
      w.(env := w.env.(meta := w.env.meta[mac := w.env.meta[mac].(deleteAt := Some(until))]))
    case SwapRouters(desired) =>
      var changed := ChangedRouters(w.env.routers, desired);
      w.(sink := w.sink.(ledger := Settle(w.sink.ledger, SettleRebase,
                                          SettleResolver(w.env.routers, PickRouted(w.env.meta, changed)))),
         env := w.env.(routers := desired))
    case SweepGhosts(swept, failed) => Swept(w, swept, failed)
    case PruneServerList(servers) =>
      if servers == {} then w else w.(sink := w.sink.(ledger := PruneServers(w.sink.ledger, servers)))
    case PruneTenantList(projects) =>
      if projects == {} then w
      else w.(sink := w.sink.(ledger := PruneTenants(w.sink.ledger, projects + {UNKNOWN_TENANT})))
    case FlushBuffer(keys, t) => Flushed(w, keys, t)
    case SettleGhosts => GhostsSettled(w)
  }

  ghost predicate ValidRun(w: World, steps: seq<Step>)
    decreases |steps|
  {
    steps == [] || (Enabled(w, steps[0]) && ValidRun(Next(w, steps[0]), steps[1..]))
  }

  ghost function Exec(w: World, steps: seq<Step>): World
    requires ValidRun(w, steps)
    decreases |steps|
  {
    if steps == [] then w else Exec(Next(w, steps[0]), steps[1..])
  }

  ghost predicate Reachable(w: World) {
    exists steps :: ValidRun(Init(), steps) && Exec(Init(), steps) == w
  }

  // ---------------------------------------------------------------------
  // Every live row is an "unknown" row, belongs to a known VM, or holds nothing
  // ---------------------------------------------------------------------

  ghost predicate RowsKnown(counts: map<FlowKey, Counter>, meta: map<Mac, TenantMeta>) {
    && 0 !in meta
    && forall k :: k in counts ==> VMMAC(k) in meta || VMMAC(k) == 0 || counts[k].total.count == ZERO
  }

  ghost predicate RowInv(w: World) {
    w.sink.Valid() && RowsKnown(w.sink.ledger.counts, w.env.meta)
  }

  /** Only live rows changed, and none shrank; any row gained or changed is known
      or "unknown". */
  ghost predicate LedgerGrows(l: Ledger, l': Ledger, meta: map<Mac, TenantMeta>) {
    && RowsGrow(l.counts, l'.counts) && l' == l.(counts := l'.counts)
    && forall k :: k in l'.counts ==>
         VMMAC(k) in meta || VMMAC(k) == 0 || (k in l.counts && l'.counts[k] == l.counts[k])
  }

  lemma FoldOutGrows(w: S.Sink, k: FlowKey, delKernel: bool, t: Knobs, meta: map<Mac, TenantMeta>)
    requires k in w.entries
    ensures LedgerGrows(w.ledger, FoldOut(w, k, delKernel, t).ledger, meta)
  {
  }

  lemma GrowsTrans(a: Ledger, b: Ledger, c: Ledger, meta: map<Mac, TenantMeta>)
    requires LedgerGrows(a, b, meta) && LedgerGrows(b, c, meta)
    ensures LedgerGrows(a, c, meta)
  {
  }

  lemma {:induction false} EvictOverCapGrows(w: S.Sink, t: Knobs, meta: map<Mac, TenantMeta>)
    requires w.Valid()
    ensures LedgerGrows(w.ledger, EvictOverCap(w, t).ledger, meta)
    decreases |w.order|
  {
    if |w.entries| > t.cap && w.order != [] {
      hide FoldOut, LedgerGrows;
      var k := w.order[|w.order| - 1];
      FoldOutValid(w, k, true, t);
      FoldOutGrows(w, k, true, t, meta);
      EvictOverCapGrows(FoldOut(w, k, true, t), t, meta);
      GrowsTrans(w.ledger, FoldOut(w, k, true, t).ledger, EvictOverCap(w, t).ledger, meta);
    }
  }

  lemma AbsorbReadingGrows(w: S.Sink, meta: map<Mac, TenantMeta>, k: FlowKey, raw: FlowMetrics, t: Knobs)
    requires w.Valid()
    ensures LedgerGrows(w.ledger, AbsorbReading(w, meta, k, raw, t).ledger, meta)
  {
    if VMMAC(k) !in meta && k !in w.entries {
      EvictOverCapGrows(Admitted(w, k, raw, t), t, meta);
    }
  }

  lemma {:induction false} AbsorbDrainGrows(w: S.Sink, meta: map<Mac, TenantMeta>, buf: map<FlowKey, FlowMetrics>,
                                            keys: seq<FlowKey>, t: Knobs)
    requires w.Valid() && forall k :: k in keys ==> k in buf
    ensures LedgerGrows(w.ledger, AbsorbDrain(w, meta, buf, keys, t).ledger, meta)
  {
    if keys != [] {
      hide AbsorbReading, LedgerGrows;
      var n := |keys| - 1;
      var w1 := AbsorbDrain(w, meta, buf, keys[..n], t);
      AbsorbDrainGrows(w, meta, buf, keys[..n], t);
      AbsorbReadingGrows(w1, meta, keys[n], buf[keys[n]], t);
      GrowsTrans(w.ledger, w1.ledger, AbsorbDrain(w, meta, buf, keys, t).ledger, meta);
    }
  }

  lemma {:induction false} FoldOutAllGrows(w: S.Sink, keys: seq<FlowKey>, delKernel: bool, t: Knobs,
                                           meta: map<Mac, TenantMeta>)
    requires w.Valid() && NoDup(keys) && forall k :: k in keys ==> k in w.entries
    ensures LedgerGrows(w.ledger, FoldOutAll(w, keys, delKernel, t).ledger, meta)
  {
    if keys != [] {
      hide FoldOut, LedgerGrows;
      var n := |keys| - 1;
      assert keys == keys[..n] + [keys[n]];
      var w1 := FoldOutAll(w, keys[..n], delKernel, t);
      FoldOutAllGrows(w, keys[..n], delKernel, t, meta);
      FoldOutGrows(w1, keys[n], delKernel, t, meta);
      GrowsTrans(w.ledger, w1.ledger, FoldOutAll(w, keys, delKernel, t).ledger, meta);
    }
  }

  lemma TickGrows(w: S.Sink, meta: map<Mac, TenantMeta>, buf: map<FlowKey, FlowMetrics>, keys: seq<FlowKey>,
                  expired: seq<FlowKey>, victims: set<FlowKey>, t: Knobs)
    requires IsTick(w, meta, buf, keys, expired, victims, t)
    ensures var w' := TickResult(w, meta, buf, keys, expired, victims, t);
            w'.Valid() && LedgerGrows(w.ledger, w'.ledger, meta)
  {
    hide AbsorbDrain, FoldOutAll;
    AbsorbDrainGrows(w, meta, buf, keys, t);
    FoldOutAllGrows(AbsorbDrain(w, meta, buf, keys, t), expired, true, t, meta);
  }

  // ---------------------------------------------------------------------
  // No series decreases
  // ---------------------------------------------------------------------

  /** A prune spares a series while its tenant or server is on the list (or the
      list is empty, hence untrusted); nothing else can lower one. */
  predicate Spares(st: Step, s: Series) {
    match st
    case PruneServerList(servers) => s.Server? && servers != {} ==> s.server.server in servers
    case PruneTenantList(projects) =>
      s.Tenant? && projects != {} ==> s.tenant.tenant in projects || s.tenant.tenant == UNKNOWN_TENANT
    case _ => true
  }

  ghost function Exposed(w: World, s: Series): Amount { Value(w.sink.ledger, w.env, s) }

  /** Every step keeps the row invariant. */
  lemma StepKeepsRows(w: World, st: Step)
    requires RowInv(w) && Enabled(w, st)
    ensures RowInv(Next(w, st))
  {
    hide TickResult, FoldOutAll, GroupFold;
    if st.Tick? {
      hide IsTick;
      TickGrows(w.sink, w.env.meta, st.buf, st.keys, st.expired, st.victims, st.t);
    } else if st.FlushBuffer? {
      FoldOutAllGrows(w.sink, st.keys, false, st.t, w.env.meta);
    }
  }

  /** A drain, an expiry, an eviction or the shutdown sweep only raises series;
      learning, ghosting, sweeping, swapping routers and folding ghosts move none; a
      prune moves none it spares. */
  lemma StepNeverLowers(w: World, st: Step, s: Series)
    requires RowInv(w) && Enabled(w, st) && Spares(st, s)
    ensures Exposed(w, s).AtMost(Exposed(Next(w, st), s))
    ensures !st.Tick? && !st.FlushBuffer? ==> Exposed(Next(w, st), s) == Exposed(w, s)
  {
    hide TickResult, FoldOutAll, IsTick, Settle, PruneServers, PruneTenants, Value, ChangedRouters;
    var l, env := w.sink.ledger, w.env;
    match st
    case Packet(_, _, _) =>
    case Tick(buf, keys, expired, victims, t) =>
      TickGrows(w.sink, env.meta, buf, keys, expired, victims, t);
      GrowthRaises(l, Next(w, st).sink.ledger, env, s);
    case Learn(mac, want) =>
      LearnIsInvisible(l, env, mac, want, s);
    case MarkGhost(mac, until) => SameLabels(l, env, Next(w, st).env, s);
    case SwapRouters(desired) => RouterSwapInvisible(l, env, desired, s);
    case SweepGhosts(swept, failed) => GhostSweepInvisible(l, env, swept, s);
    case PruneServerList(servers) =>
      if servers != {} { PruneServersKeeps(l, servers, env, s); }
    case PruneTenantList(projects) =>
      if projects != {} { PruneTenantsKeeps(l, projects + {UNKNOWN_TENANT}, env, s); }
    case FlushBuffer(keys, t) =>
      FoldOutAllGrows(w.sink, keys, false, t, env.meta);
      GrowthRaises(l, Next(w, st).sink.ledger, env, s);
    case SettleGhosts => GhostFoldInvisible(l, env, s);
  }

  /** A new MAC, or an unchanged attribution, re-labels no existing row; a changed
      one is folded first. */
  lemma LearnIsInvisible(l: Ledger, env: Env, mac: Mac, want: TenantMeta, s: Series)
    requires RowsKnown(l.counts, env.meta) && mac != 0
    ensures Value(LearnedLedger(l, env, mac, want), env.(meta := env.meta[mac := want]), s) == Value(l, env, s)
  {
    hide Value, Settle;
    if mac in env.meta && !env.meta[mac].SameAttribution(want) {
      AttributionChangeInvisible(l, env, mac, want, s);
    } else {
      SameLabels(l, env, env.(meta := env.meta[mac := want]), s);
    }
  }

  /** Exactly when first learning a MAC, any MAC, moves no series: every row of that
      MAC keeps its label, or holds nothing. Rows of an unknown VM do hold nothing,
      save those of the all-zero MAC, where the "unknown" amounts live. */
  lemma LearnInvisibleIff(l: Ledger, env: Env, mac: Mac, want: TenantMeta)
    requires mac !in env.meta
    ensures var env' := env.(meta := env.meta[mac := want]);
            (forall s :: Value(LearnedLedger(l, env, mac, want), env', s) == Value(l, env, s)) <==>
            forall k :: k in l.counts && VMMAC(k) == mac ==>
                  RowOwner(env', k) == RowOwner(env, k) || l.counts[k].total.count == ZERO
  {
    hide Value, RowOwner;
    var env' := env.(meta := env.meta[mac := want]);
    OtherLabels(env, mac, want);
    if forall k :: k in l.counts && VMMAC(k) == mac ==>
          RowOwner(env', k) == RowOwner(env, k) || l.counts[k].total.count == ZERO {
      forall s ensures Value(l, env', s) == Value(l, env, s) {
        SameLabels(l, env, env', s);
      }
    } else {
      var k :| k in l.counts && VMMAC(k) == mac && RowOwner(env', k) != RowOwner(env, k)
          && l.counts[k].total.count != ZERO;
      var s := LearnMoves(l, env, mac, want, k);
    }
  }

  lemma OtherLabels(env: Env, mac: Mac, want: TenantMeta)
    ensures forall k :: VMMAC(k) != mac ==> RowOwner(env.(meta := env.meta[mac := want]), k) == RowOwner(env, k)
  {
  }

  /** Series move with the sums of their live rows. */
  lemma LiveMoves(l: Ledger, env: Env, env': Env, s: Series)
    requires Sum(Live(l.counts, env, s)) != Sum(Live(l.counts, env', s))
    ensures Value(l, env', s) != Value(l, env, s)
  {
    hide Sum, Live, Absorbed;
  }

  /** A non-empty relabelled row leaves its old tenant series, or else joins a
      server series, and nothing makes up for it. */
  lemma LearnMoves(l: Ledger, env: Env, mac: Mac, want: TenantMeta, k: FlowKey) returns (s: Series)
    requires mac !in env.meta && k in l.counts && VMMAC(k) == mac && l.counts[k].total.count != ZERO
    requires RowOwner(env.(meta := env.meta[mac := want]), k) != RowOwner(env, k)
    ensures Value(l, env.(meta := env.meta[mac := want]), s) != Value(l, env, s)
  {
    var env' := env.(meta := env.meta[mac := want]);
    OtherLabels(env, mac, want);
    UnknownLabels(env, mac);
    hide RowOwner, Value;
    if TenantKeyOf(k, RowOwner(env', k)) != TenantKeyOf(k, UNKNOWN_OWNER) {
      s := Tenant(TenantKeyOf(k, UNKNOWN_OWNER));
      TenantLeft(l.counts, env, env', mac, k);
    } else {
      s := Server(ServerKeyOf(k, RowOwner(env', k)));
      ServerJoined(l.counts, env, env', mac, k);
    }
    LiveMoves(l, env, env', s);
  }

  const UNKNOWN_OWNER := Owner(UNKNOWN_TENANT, NO_EXTERNAL_NETWORK, "")

  lemma UnknownLabels(env: Env, mac: Mac)
    requires mac !in env.meta
    ensures forall k :: VMMAC(k) == mac ==> RowOwner(env, k) == UNKNOWN_OWNER
  {
  }

  /** env' relabels rows of mac only, which env has unknown. */
  ghost predicate Relabels(env: Env, env': Env, mac: Mac) {
    && (forall k :: VMMAC(k) != mac ==> RowOwner(env', k) == RowOwner(env, k))
    && (forall k :: VMMAC(k) == mac ==> RowOwner(env, k) == UNKNOWN_OWNER)
  }

  lemma TenantLeft(counts: map<FlowKey, Counter>, env: Env, env': Env, mac: Mac, k: FlowKey)
    requires Relabels(env, env', mac) && k in counts && VMMAC(k) == mac && counts[k].total.count != ZERO
    requires TenantKeyOf(k, RowOwner(env', k)) != TenantKeyOf(k, UNKNOWN_OWNER)
    ensures var s := Tenant(TenantKeyOf(k, UNKNOWN_OWNER)); Sum(Live(counts, env, s)) != Sum(Live(counts, env', s))
  {
    hide RowOwner, Sum;
    var s := Tenant(TenantKeyOf(k, UNKNOWN_OWNER));
    StrictlyLess(Live(counts, env', s), Live(counts, env, s), k);
  }

  lemma ServerJoined(counts: map<FlowKey, Counter>, env: Env, env': Env, mac: Mac, k: FlowKey)
    requires Relabels(env, env', mac) && k in counts && VMMAC(k) == mac && counts[k].total.count != ZERO
    requires TenantKeyOf(k, RowOwner(env', k)) == TenantKeyOf(k, UNKNOWN_OWNER) && RowOwner(env', k) != UNKNOWN_OWNER
    ensures var s := Server(ServerKeyOf(k, RowOwner(env', k))); Sum(Live(counts, env, s)) != Sum(Live(counts, env', s))
  {
    hide RowOwner, Sum;
    var s := Server(ServerKeyOf(k, RowOwner(env', k)));
    StrictlyLess(Live(counts, env, s), Live(counts, env', s), k);
  }

  lemma LearnKeepsRows(l: Ledger, env: Env, mac: Mac, want: TenantMeta)
    requires RowsKnown(l.counts, env.meta) && mac != 0
    ensures RowsKnown(LearnedLedger(l, env, mac, want).counts, env.meta[mac := want])
  {
    hide GroupFold;
  }

  lemma {:induction false} RunNeverLowers(w: World, steps: seq<Step>, s: Series)
    requires RowInv(w) && ValidRun(w, steps)
    requires forall st :: st in steps ==> Spares(st, s)
    ensures RowInv(Exec(w, steps))
    ensures Exposed(w, s).AtMost(Exposed(Exec(w, steps), s))
    decreases |steps|
  {
    if steps != [] {
      hide Next, Enabled, RowInv, Exposed, Spares;
      StepKeepsRows(w, steps[0]);
      StepNeverLowers(w, steps[0], s);
      RunNeverLowers(Next(w, steps[0]), steps[1..], s);
    }
  }

  lemma ReachableRows(w: World)
    requires Reachable(w)
    ensures RowInv(w)
  {
    var steps :| ValidRun(Init(), steps) && Exec(Init(), steps) == w;
    RowsOfRun(Init(), steps);
  }

  lemma {:induction false} RowsOfRun(w: World, steps: seq<Step>)
    requires RowInv(w) && ValidRun(w, steps)
    ensures RowInv(Exec(w, steps))
    decreases |steps|
  {
    if steps != [] {
      hide Next, Enabled, RowInv;
      StepKeepsRows(w, steps[0]);
      RowsOfRun(Next(w, steps[0]), steps[1..]);
    }
  }

  /** From any reachable state, over any further run whatever the kernel reports:
      no total series decreases, nor the "unknown" tenant's, nor a tenant or
      server series while its tenant or server stays on the lists pruned by. */
  lemma SeriesNeverDecrease(w: World, steps: seq<Step>, s: Series)
    requires Reachable(w) && ValidRun(w, steps)
    requires match s
             case Total(_) => true
             case Tenant(t) => t.tenant == UNKNOWN_TENANT ||
                               forall st :: st in steps && st.PruneTenantList? && st.projects != {} ==>
                                     t.tenant in st.projects
             case Server(v) => forall st :: st in steps && st.PruneServerList? && st.servers != {} ==>
                   v.server in st.servers
    ensures Exposed(w, s).AtMost(Exposed(Exec(w, steps), s))
  {
    hide Exposed, Exec, ValidRun, RowInv;
    ReachableRows(w);
    RunNeverLowers(w, steps, s);
  }
}
