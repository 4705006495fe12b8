/** The exposed billing series, as functions of the ledger and of the labels in
    force, and what folds, prunes and growth do to them. */
module Series {
  import opened Amounts
  import opened Bpf
  import opened Options
  import opened Metadata
  import opened Billing

  datatype Series = Total(total: TotalKey) | Tenant(tenant: TenantKey) | Server(server: ServerKey)

  function OwnerOf(a: Attribution): Owner { Owner(a.tenant, a.externalNetwork, a.serverId) }

  /** The owner the Collector would label row k with. */
  function RowOwner(env: Env, k: FlowKey): Owner { OwnerOf(Resolve(env, k)) }

  /** Does a row labelled o count towards series s? */
  predicate InSeries(k: FlowKey, o: Owner, s: Series) {
    match s
    case Total(t) => ToTotal()(TenantKeyOf(k, o)) == t
    case Tenant(t) => TenantKeyOf(k, o) == t
    case Server(v) => o.server != "" && ServerKeyOf(k, o) == v
  }

  ghost function Live(counts: map<FlowKey, Counter>, env: Env, s: Series): map<FlowKey, Amount> {
    map k | k in counts && InSeries(k, RowOwner(env, k), s) :: counts[k].total.count
  }

  ghost function TotalIs(t: TotalKey): TenantKey -> bool { k => ToTotal()(k) == t }

  /** What the settled accumulators contribute to a series. */
  ghost function Absorbed(l: Ledger, s: Series): Amount {
    match s
    case Total(t) => Sum(Keep(l.tenantSettled, TotalIs(t))).Plus(Get(l.totalSettled, t))
    case Tenant(t) => Get(l.tenantSettled, t)
    case Server(v) => Get(l.serverSettled, v)
  }

  /** The value a scrape exposes for series s. */
  ghost function Value(l: Ledger, env: Env, s: Series): Amount {
    Sum(Live(l.counts, env, s)).Plus(Absorbed(l, s))
  }

  // ---------------------------------------------------------------------
  // Folding is invisible
  // ---------------------------------------------------------------------

  /** Every folded row is folded under the label it was exposed with, and every
      other row keeps its label from env to env', or holds nothing. */
  ghost predicate FoldsUnderLabels(counts: map<FlowKey, Counter>, resolve: FlowKey -> Option<Owner>, env: Env,
                                   env': Env) {
    forall k :: k in counts ==>
      match resolve(k)
      case Some(o) => o == RowOwner(env, k)
      case None => RowOwner(env', k) == RowOwner(env, k) || counts[k].total.count == ZERO
  }

  ghost function FoldedIn(counts: map<FlowKey, Counter>, resolve: FlowKey -> Option<Owner>, env: Env,
                          s: Series): map<FlowKey, Amount> {
    map k | k in counts && resolve(k).Some? && InSeries(k, RowOwner(env, k), s) :: counts[k].total.count
  }

  ghost function KeptIn(counts: map<FlowKey, Counter>, resolve: FlowKey -> Option<Owner>, env: Env,
                        s: Series): map<FlowKey, Amount> {
    map k | k in counts && resolve(k).None? && InSeries(k, RowOwner(env, k), s) :: counts[k].total.count
  }

  lemma LiveSplits(counts: map<FlowKey, Counter>, resolve: FlowKey -> Option<Owner>, env: Env, s: Series)
    ensures Sum(Live(counts, env, s)) == Sum(FoldedIn(counts, resolve, env,
                                                      s)).Plus(Sum(KeptIn(counts, resolve, env, s)))
  {
    hide Sum;
    SumSplit(Live(counts, env, s), FoldedIn(counts, resolve, env, s), KeptIn(counts, resolve, env, s));
  }

  /** What is live after a fold is exactly the rows it did not touch. */
  lemma LiveAfterFold(counts: map<FlowKey, Counter>, mode: SettleMode, resolve: FlowKey -> Option<Owner>, env: Env,
                      env': Env, s: Series)
    requires FoldsUnderLabels(counts, resolve, env, env')
    ensures Sum(Live(SettledCounts(counts, mode, resolve), env', s)) == Sum(KeptIn(counts, resolve, env, s))
  {
    hide Sum, RowOwner, InSeries;
    var live := Live(SettledCounts(counts, mode, resolve), env', s);
    var kept := KeptIn(counts, resolve, env, s);
    forall k ensures Get(live, k) == Get(kept, k) {
      if k in counts && resolve(k).None? {
        assert RowOwner(env', k) == RowOwner(env, k) || counts[k].total.count == ZERO;
      }
    }
    SumAgree(live, kept);
  }

  /** The accumulators gain, in each series, exactly the folded rows of that series. */
  lemma AbsorbedByFold(l: Ledger, mode: SettleMode, resolve: FlowKey -> Option<Owner>, env: Env, env': Env, s: Series)
    requires FoldsUnderLabels(l.counts, resolve, env, env')
    ensures Absorbed(Settle(l, mode, resolve), s) == Absorbed(l, s).Plus(Sum(FoldedIn(l.counts, resolve, env, s)))
  {
    FoldedLabels(l.counts, resolve, env, env', s);
    hide Sum, GroupFold, RowOwner, FoldsUnderLabels, FoldedIn, Labelled, Keep, Folded, FoldedServers;
    match s
    case Total(t) =>
      GroupFoldSum(l.tenantSettled, Folded(l.counts, resolve), ByTenant(resolve), TotalIs(t));
      PlusSwap(Sum(Keep(l.tenantSettled, TotalIs(t))), Sum(FoldedIn(l.counts, resolve, env, s)),
               Get(l.totalSettled, t));
    case Tenant(t) =>
      GroupFoldGet(l.tenantSettled, Folded(l.counts, resolve), ByTenant(resolve), t);
    case Server(v) =>
      GroupFoldGet(l.serverSettled, FoldedServers(l.counts, resolve), ByServer(resolve), v);
  }

  lemma FoldedLabels(counts: map<FlowKey, Counter>, resolve: FlowKey -> Option<Owner>, env: Env, env': Env, s: Series)
    requires FoldsUnderLabels(counts, resolve, env, env')
    ensures match s
            case Total(t) =>
              Keep(Folded(counts, resolve), Via(ByTenant(resolve), TotalIs(t))) == FoldedIn(counts, resolve, env, s)
            case Tenant(t) =>
              Labelled(Folded(counts, resolve), ByTenant(resolve), t) == FoldedIn(counts, resolve, env, s)
            case Server(v) =>
              Labelled(FoldedServers(counts, resolve), ByServer(resolve), v) == FoldedIn(counts, resolve, env, s)
  {
    hide RowOwner;
  }

  /** A fold followed by any change of labels that leaves the unfolded rows alone
      moves no total, tenant or server series. */
  lemma FoldIsInvisible(l: Ledger, mode: SettleMode, resolve: FlowKey -> Option<Owner>, env: Env, env': Env, s: Series)
    requires FoldsUnderLabels(l.counts, resolve, env, env')
    ensures Value(Settle(l, mode, resolve), env', s) == Value(l, env, s)
  {
    hide Sum, Live, KeptIn, FoldedIn, SettledCounts, GroupFold, Absorbed, Value, FoldsUnderLabels;
    LiveSplits(l.counts, resolve, env, s);
    LiveAfterFold(l.counts, mode, resolve, env, env', s);
    AbsorbedByFold(l, mode, resolve, env, env', s);
    FoldBalance(l, Settle(l, mode, resolve), env, env', s,
                Sum(FoldedIn(l.counts, resolve, env, s)), Sum(KeptIn(l.counts, resolve, env, s)));
  }

  lemma FoldBalance(l: Ledger, l': Ledger, env: Env, env': Env, s: Series, f: Amount, kept: Amount)
    requires Sum(Live(l.counts, env, s)) == f.Plus(kept)
    requires Sum(Live(l'.counts, env', s)) == kept
    requires Absorbed(l', s) == Absorbed(l, s).Plus(f)
    ensures Value(l', env', s) == Value(l, env, s)
  {
  }

  // ---------------------------------------------------------------------
  // The re-attribution protocols
  // ---------------------------------------------------------------------

  function PickMac(mac: Mac, was: TenantMeta): FlowKey -> Option<TenantMeta> {
    (k: FlowKey) => if VMMAC(k) != mac then None else Some(was)
  }

  /** Changing what a MAC is attributed to, its history first folded under the
      old attribution, moves no series. */
  lemma AttributionChangeInvisible(l: Ledger, env: Env, mac: Mac, want: TenantMeta, s: Series)
    requires mac in env.meta
    ensures Value(Settle(l, SettleRebase, SettleResolver(env.routers, PickMac(mac, env.meta[mac]))),
                  env.(meta := env.meta[mac := want]), s)
            == Value(l, env, s)
  {
    hide Settle, Value;
    FoldIsInvisible(l, SettleRebase, SettleResolver(env.routers, PickMac(mac, env.meta[mac])), env,
                    env.(meta := env.meta[mac := want]), s);
  }

  /** Interface MACs whose label changed, disappeared or is new. */
  ghost function ChangedRouters(was: map<Mac, string>, desired: map<Mac, string>): set<Mac> {
    set m | m in was.Keys + desired.Keys && !(m in was && m in desired && was[m] == desired[m])
  }

  function PickRouted(meta: map<Mac, TenantMeta>, changed: set<Mac>): FlowKey -> Option<TenantMeta> {
    (k: FlowKey) =>
      if k.dstZone != External || PeerMAC(k) !in changed then None
      else if VMMAC(k) in meta then Some(meta[VMMAC(k)]) else None
  }

  /** Every row whose label differs between the two router maps rides a changed
      interface MAC, towards EXTERNAL, from a known VM: it is among those folded. */
  lemma RelabelledRowsAreFolded(env: Env, desired: map<Mac, string>, k: FlowKey)
    requires RowOwner(env, k) != RowOwner(env.(routers := desired), k)
    ensures PickRouted(env.meta, ChangedRouters(env.routers, desired))(k).Some?
  {
  }

  lemma RouterSwapInvisible(l: Ledger, env: Env, desired: map<Mac, string>, s: Series)
    ensures Value(Settle(l, SettleRebase, SettleResolver(env.routers,
                                                         PickRouted(env.meta, ChangedRouters(env.routers, desired)))),
                  env.(routers := desired), s)
            == Value(l, env, s)
  {
    hide Settle, Value, ChangedRouters;
    var resolve := SettleResolver(env.routers, PickRouted(env.meta, ChangedRouters(env.routers, desired)));
    var env' := env.(routers := desired);
    forall k | k in l.counts && resolve(k).None?
      ensures RowOwner(env', k) == RowOwner(env, k)
    {
      if RowOwner(env', k) != RowOwner(env, k) {
        RelabelledRowsAreFolded(env, desired, k);
      }
    }
    FoldIsInvisible(l, SettleRebase, resolve, env, env', s);
  }

  function PickSwept(meta: map<Mac, TenantMeta>, swept: set<Mac>): FlowKey -> Option<TenantMeta> {
    (k: FlowKey) => if VMMAC(k) in swept && VMMAC(k) in meta then Some(meta[VMMAC(k)]) else None
  }

  /** Dropping swept MACs, their rows first folded and evicted, moves no series. */
  lemma GhostSweepInvisible(l: Ledger, env: Env, swept: set<Mac>, s: Series)
    ensures Value(Settle(l, SettleEvict, SettleResolver(env.routers, PickSwept(env.meta, swept))),
                  env.(meta := env.meta - swept), s)
            == Value(l, env, s)
  {
    hide Settle, Value;
    FoldIsInvisible(l, SettleEvict, SettleResolver(env.routers, PickSwept(env.meta, swept)), env,
                    env.(meta := env.meta - swept), s);
  }

  function PickGhosts(meta: map<Mac, TenantMeta>): FlowKey -> Option<TenantMeta> {
    (k: FlowKey) => if VMMAC(k) in meta && meta[VMMAC(k)].deleteAt.Some? then Some(meta[VMMAC(k)]) else None
  }

  /** Folding lingering ghosts' rows under their labels moves no series. */
  lemma GhostFoldInvisible(l: Ledger, env: Env, s: Series)
    ensures Value(Settle(l, SettleRebase, SettleResolver(env.routers, PickGhosts(env.meta))), env, s) ==
            Value(l, env, s)
  {
    hide Value, Settle;
    FoldIsInvisible(l, SettleRebase, SettleResolver(env.routers, PickGhosts(env.meta)), env, env, s);
  }

  /** A series only depends on the ledger and on the labels of the rows that hold
      something. */
  lemma SameLabels(l: Ledger, env: Env, env': Env, s: Series)
    requires forall k :: k in l.counts ==> RowOwner(env', k) == RowOwner(env, k) || l.counts[k].total.count == ZERO
    ensures Value(l, env', s) == Value(l, env, s)
  {
    hide RowOwner, Sum, InSeries;
    var was, now := Live(l.counts, env, s), Live(l.counts, env', s);
    forall k ensures Get(was, k) == Get(now, k) {
      if k in l.counts {
        assert RowOwner(env', k) == RowOwner(env, k) || l.counts[k].total.count == ZERO;
      }
    }
    SumAgree(was, now);
  }

  // ---------------------------------------------------------------------
  // Growth and prunes
  // ---------------------------------------------------------------------

  /** Rows only gained, or grew. */
  ghost predicate RowsGrow(a: map<FlowKey, Counter>, b: map<FlowKey, Counter>) {
    forall k :: k in a ==> k in b && a[k].total.count.AtMost(b[k].total.count)
  }

  lemma GrowthRaises(l: Ledger, l': Ledger, env: Env, s: Series)
    requires RowsGrow(l.counts, l'.counts) && l' == l.(counts := l'.counts)
    ensures Value(l, env, s).AtMost(Value(l', env, s))
  {
    hide RowOwner, Sum;
    SumMono(Live(l.counts, env, s), Live(l'.counts, env, s));
  }

  /** The server tier may drop only series of servers that left the Nova list. */
  lemma PruneServersKeeps(l: Ledger, alive: set<string>, env: Env, s: Series)
    requires s.Server? ==> s.server.server in alive
    ensures Value(PruneServers(l, alive), env, s) == Value(l, env, s)
  {
  }

  /** The total tier never notices a tenant prune; a tenant series of a live
      project does not either. */
  lemma PruneTenantsKeeps(l: Ledger, alive: set<string>, env: Env, s: Series)
    requires s.Tenant? ==> s.tenant.tenant in alive
    ensures Value(PruneTenants(l, alive), env, s) == Value(l, env, s)
  {
    hide Sum, Live, GroupFold;
    var l' := PruneTenants(l, alive);
    if s.Total? {
      var t := s.total;
      var all, gone, left := Keep(l.tenantSettled, TotalIs(t)), Labelled(DeadTenants(l, alive), ToTotal(), t),
          Keep(l'.tenantSettled, TotalIs(t));
      GroupFoldGet(l.totalSettled, DeadTenants(l, alive), ToTotal(), t);
      SumSplit(all, gone, left);
      PruneBalance(Sum(gone), Sum(left), Get(l.totalSettled, t));
    }
  }

  lemma PruneBalance(gone: Amount, left: Amount, settled: Amount)
    ensures left.Plus(settled.Plus(gone)) == gone.Plus(left).Plus(settled)
  {
  }
}
