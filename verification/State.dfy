/** GlobalState: the four maps, changed in place. Each method is proved against
    the ledger function of the same name; the two loops against the order-free
    closed forms. */
module State {
  import opened Amounts
  import opened Bpf
  import opened Options
  import opened Metadata
  import opened Billing

  class GlobalState {
    var counts: map<FlowKey, Counter>
    var tenantSettled: map<TenantKey, Amount>
    var serverSettled: map<ServerKey, Amount>
    var totalSettled: map<TotalKey, Amount>

    ghost function Abs(): Ledger
      reads this
    {
      Ledger(counts, tenantSettled, serverSettled, totalSettled)
    }

    constructor ()
      ensures Abs() == Empty()
    {
      counts, tenantSettled, serverSettled, totalSettled := map[], map[], map[], map[];
    }

    method ApplyDelta(key: FlowKey, raw: FlowMetrics)
      modifies this
      ensures Abs() == Billing.ApplyDelta(old(Abs()), key, raw)
    {
      if key !in counts {
        counts := counts[key := Counter(raw, raw)];
        return;
      }
      var c := counts[key];
      var total, last := c.total, c.lastRaw;
      if last.createdNs == 0 {
        // Identity unknown: fall back to the value guard for one observation.
        total := total.(count := AddDelta(total.count, last.count, raw.count));
      } else if raw.createdNs != last.createdNs {
        // Another entry occupies the key: it counted raw from zero.
        total := total.(count := total.count.Plus(raw.count));
      } else {
        total := total.(count := AddDelta(total.count, last.count, raw.count));
      }
      if raw.lastSeenNs > total.lastSeenNs {
        total := total.(lastSeenNs := raw.lastSeenNs);
      }
      last := FlowMetrics(raw.count, raw.lastSeenNs, raw.createdNs);
      counts := counts[key := Counter(total, last)];
    }

    method Add(key: FlowKey, m: FlowMetrics)
      modifies this
      ensures Abs() == AddTotal(old(Abs()), key, m)
    {
      if key !in counts {
        counts := counts[key := Counter(m, NO_METRICS)];
        return;
      }
      var c := counts[key];
      var total := c.total.(count := c.total.count.Plus(m.count));
      if m.lastSeenNs > total.lastSeenNs {
        total := total.(lastSeenNs := m.lastSeenNs);
      }
      counts := counts[key := c.(total := total)];
    }

    method Resolve(key: FlowKey, total: FlowMetrics, lastRaw: FlowMetrics)
      modifies this
      ensures Abs() == ResolveRow(old(Abs()), key, total, lastRaw)
    {
      if key !in counts {
        counts := counts[key := Counter(total, lastRaw)];
        return;
      }
      var t := counts[key].total;
      t := t.(count := t.count.Plus(total.count));
      if total.lastSeenNs > t.lastSeenNs {
        t := t.(lastSeenNs := total.lastSeenNs);
      }
      counts := counts[key := Counter(t, lastRaw)];
    }

    method Settle(mode: SettleMode, resolve: FlowKey -> Option<Owner>) returns (folded: nat)
      modifies this
      ensures Abs() == Billing.Settle(old(Abs()), mode, resolve)
      ensures folded == |Folded(old(counts), resolve)|
    {
      hide PartlySettled, Billing.Settle, Part, Folded, FoldRow;
      ghost var l0, rows := Abs(), Folded(counts, resolve);
      var todo := counts.Keys;
      ghost var done: set<FlowKey> := {};
      folded := 0;
      SettleStart(l0, mode, resolve);
      while todo != {}
        invariant todo <= l0.counts.Keys && done == l0.counts.Keys - todo
        invariant Abs() == PartlySettled(l0, mode, resolve, done)
        invariant folded == |Part(rows, done)|
        decreases |todo|
      {
        var k :| k in todo;
        SettleStep(l0, mode, resolve, done, k);
        var owner := resolve(k);
        if owner.Some? {
          FoldOne(mode, k, owner.value);
          folded := folded + 1;
        }
        todo := todo - {k};
        done := done + {k};
      }
      SettleEnd(l0, mode, resolve, done);
    }

    /** The body of Settle's loop for one resolvable row. */
    method FoldOne(mode: SettleMode, k: FlowKey, owner: Owner)
      requires k in counts
      modifies this
      ensures Abs() == FoldRow(old(Abs()), mode, k, owner)
    {
      var c := counts[k];
      tenantSettled := Credit(tenantSettled, TenantKeyOf(k, owner), c.total.count);
      if owner.server != "" {
        serverSettled := Credit(serverSettled, ServerKeyOf(k, owner), c.total.count);
      }
      if mode == SettleEvict {
        counts := counts - {k};
      } else {
        counts := counts[k := Rebased(c)];
      }
    }

    method PruneServerSettled(alive: set<string>) returns (dropped: nat)
      modifies this
      ensures Abs() == PruneServers(old(Abs()), alive)
      ensures dropped == |old(serverSettled)| - |serverSettled|
    {
      dropped := 0;
      var todo := serverSettled.Keys;
      while todo != {}
        invariant todo <= serverSettled.Keys <= old(serverSettled).Keys
        invariant forall k :: k in serverSettled ==> serverSettled[k] == old(serverSettled)[k]
        invariant forall k :: k in old(serverSettled) && (k in todo || k.server in alive) ==> k in serverSettled
        invariant forall k :: k in serverSettled && k !in todo ==> k.server in alive
        invariant counts == old(counts) && tenantSettled == old(tenantSettled) && totalSettled == old(totalSettled)
        invariant dropped == |old(serverSettled)| - |serverSettled|
        decreases |todo|
      {
        var k :| k in todo;
        if k.server !in alive {
          ghost var before := serverSettled;
          serverSettled := serverSettled - {k};
          assert serverSettled.Keys == before.Keys - {k};
          dropped := dropped + 1;
        }
        todo := todo - {k};
      }
      assert serverSettled == PruneServers(old(Abs()), alive).serverSettled;
    }

    method PruneTenantSettled(alive: set<string>) returns (dropped: nat)
      modifies this
      ensures Abs() == PruneTenants(old(Abs()), alive)
      ensures dropped == |DeadTenants(old(Abs()), alive)|
    {
      hide PartlyPruned, PruneTenants, Part, DeadTenants, ReleaseBucket;
      ghost var l0, dead := Abs(), DeadTenants(Abs(), alive);
      dropped := 0;
      var todo := tenantSettled.Keys;
      ghost var done: set<TenantKey> := {};
      PruneStart(l0, alive);
      while todo != {}
        invariant todo <= l0.tenantSettled.Keys && done == l0.tenantSettled.Keys - todo
        invariant Abs() == PartlyPruned(l0, alive, done)
        invariant dropped == |Part(dead, done)|
        decreases |todo|
      {
        var k :| k in todo;
        PruneStep(l0, alive, done, k);
        if k.tenant !in alive {
          ReleaseOne(k);
          dropped := dropped + 1;
        }
        todo := todo - {k};
        done := done + {k};
      }
      PruneEnd(l0, alive, done);
    }

    /** The body of PruneTenantSettled's loop for one dead bucket. */
    method ReleaseOne(k: TenantKey)
      requires k in tenantSettled
      modifies this
      ensures Abs() == ReleaseBucket(old(Abs()), k)
    {
      totalSettled := Credit(totalSettled, TotalKey(k.extNet, k.zone, k.dir), tenantSettled[k]);
      tenantSettled := tenantSettled - {k};
    }
  }

  function FoldRow(l: Ledger, mode: SettleMode, k: FlowKey, o: Owner): Ledger
    requires k in l.counts
  {
    var a := l.counts[k].total.count;
    Ledger(
      if mode == SettleEvict then l.counts - {k} else l.counts[k := Rebased(l.counts[k])],
      Credit(l.tenantSettled, TenantKeyOf(k, o), a),
      if o.server != "" then Credit(l.serverSettled, ServerKeyOf(k, o), a) else l.serverSettled,
      l.totalSettled)
  }

  function ReleaseBucket(l: Ledger, k: TenantKey): Ledger
    requires k in l.tenantSettled
  {
    l.(tenantSettled := l.tenantSettled - {k},
       totalSettled := Credit(l.totalSettled, TotalKey(k.extNet, k.zone, k.dir), l.tenantSettled[k]))
  }

  // ---------------------------------------------------------------------
  // Loop bookkeeping: the part of a map already visited
  // ---------------------------------------------------------------------

  ghost function Part<K(!new)>(m: map<K, Amount>, done: set<K>): map<K, Amount> {
    map k | k in m && k in done :: m[k]
  }

  lemma PartStep<K(!new)>(m: map<K, Amount>, done: set<K>, k: K)
    requires k !in done
    ensures k in m ==> Part(m, done + {k}) == Part(m, done)[k := m[k]] && |Part(m, done + {k})| == |Part(m, done)| + 1
    ensures k !in m ==> Part(m, done + {k}) == Part(m, done)
  {
  }

  ghost function PartlyFolded(rows: map<FlowKey, Counter>, mode: SettleMode, resolve: FlowKey -> Option<Owner>,
                              done: set<FlowKey>): map<FlowKey, Counter>
  {
    if mode == SettleEvict then map k | k in rows && (k !in done || resolve(k).None?) :: rows[k]
    else map k | k in rows :: if k in done && resolve(k).Some? then Rebased(rows[k]) else rows[k]
  }

  /** A fold that has visited exactly the rows in done. */
  ghost function PartlySettled(l: Ledger, mode: SettleMode, resolve: FlowKey -> Option<Owner>,
                               done: set<FlowKey>): Ledger {
    Ledger(
      PartlyFolded(l.counts, mode, resolve, done),
      GroupFold(l.tenantSettled, Part(Folded(l.counts, resolve), done), ByTenant(resolve)),
      GroupFold(l.serverSettled, Part(FoldedServers(l.counts, resolve), done), ByServer(resolve)),
      l.totalSettled)
  }

  lemma SettleStart(l: Ledger, mode: SettleMode, resolve: FlowKey -> Option<Owner>)
    ensures PartlySettled(l, mode, resolve, {}) == l
    ensures |Part(Folded(l.counts, resolve), {})| == 0
  {
    hide GroupFold;
    GroupFoldEmpty(l.tenantSettled, ByTenant(resolve));
    GroupFoldEmpty(l.serverSettled, ByServer(resolve));
    assert Part(Folded(l.counts, resolve), {}) == map[] && Part(FoldedServers(l.counts, resolve), {}) == map[];
    assert PartlyFolded(l.counts, mode, resolve, {}) == l.counts;
  }

  lemma SettleStep(l: Ledger, mode: SettleMode, resolve: FlowKey -> Option<Owner>, done: set<FlowKey>, k: FlowKey)
    requires k in l.counts && k !in done
    ensures var p, p' := PartlySettled(l, mode, resolve, done), PartlySettled(l, mode, resolve, done + {k});
            && k in p.counts
            && p' == match resolve(k)
                     case None => p
                     case Some(o) => FoldRow(p, mode, k, o)
    ensures |Part(Folded(l.counts, resolve), done + {k})| ==
            |Part(Folded(l.counts, resolve), done)| + if resolve(k).Some? then 1 else 0
  {
    hide GroupFold;
    var rows, rowsS := Folded(l.counts, resolve), FoldedServers(l.counts, resolve);
    PartStep(rows, done, k);
    PartStep(rowsS, done, k);
    PartlyFoldedStep(l.counts, mode, resolve, done, k);
    if resolve(k).Some? {
      GroupFoldStep(l.tenantSettled, Part(rows, done), ByTenant(resolve), k, rows[k]);
      if k in rowsS {
        GroupFoldStep(l.serverSettled, Part(rowsS, done), ByServer(resolve), k, rowsS[k]);
      }
    }
  }

  lemma SettleEnd(l: Ledger, mode: SettleMode, resolve: FlowKey -> Option<Owner>, done: set<FlowKey>)
    requires done == l.counts.Keys
    ensures PartlySettled(l, mode, resolve, done) == Billing.Settle(l, mode, resolve)
    ensures Part(Folded(l.counts, resolve), done) == Folded(l.counts, resolve)
  {
    hide GroupFold;
    assert Part(Folded(l.counts, resolve), done) == Folded(l.counts, resolve);
    assert Part(FoldedServers(l.counts, resolve), done) == FoldedServers(l.counts, resolve);
    assert PartlyFolded(l.counts, mode, resolve, done) == SettledCounts(l.counts, mode, resolve);
  }

  lemma PartlyFoldedStep(rows: map<FlowKey, Counter>, mode: SettleMode, resolve: FlowKey -> Option<Owner>,
                         done: set<FlowKey>, k: FlowKey)
    requires k in rows && k !in done
    ensures var p, p' := PartlyFolded(rows, mode, resolve, done), PartlyFolded(rows, mode, resolve, done + {k});
            && k in p && p[k] == rows[k]
            && p' == (if resolve(k).None? then p else if mode == SettleEvict then p - {k} else p[k := Rebased(rows[k])])
  {
  }

  /** A tenant prune that has visited exactly the buckets in done. */
  ghost function PartlyPruned(l: Ledger, alive: set<string>, done: set<TenantKey>): Ledger {
    l.(tenantSettled := map k | k in l.tenantSettled && (k !in done || k.tenant in alive) :: l.tenantSettled[k],
       totalSettled := GroupFold(l.totalSettled, Part(DeadTenants(l, alive), done), ToTotal()))
  }

  lemma PruneStart(l: Ledger, alive: set<string>)
    ensures PartlyPruned(l, alive, {}) == l
    ensures |Part(DeadTenants(l, alive), {})| == 0
  {
    hide GroupFold;
    GroupFoldEmpty(l.totalSettled, ToTotal());
    assert Part(DeadTenants(l, alive), {}) == map[];
    assert PartlyPruned(l, alive, {}).tenantSettled == l.tenantSettled;
  }

  lemma PruneStep(l: Ledger, alive: set<string>, done: set<TenantKey>, k: TenantKey)
    requires k in l.tenantSettled && k !in done
    ensures var p, p' := PartlyPruned(l, alive, done), PartlyPruned(l, alive, done + {k});
            && k in p.tenantSettled
            && p' == if k.tenant in alive then p else ReleaseBucket(p, k)
    ensures |Part(DeadTenants(l, alive), done + {k})| ==
            |Part(DeadTenants(l, alive), done)| + if k.tenant in alive then 0 else 1
  {
    hide GroupFold;
    var dead := DeadTenants(l, alive);
    PartStep(dead, done, k);
    var p, p' := PartlyPruned(l, alive, done), PartlyPruned(l, alive, done + {k});
    if k.tenant in alive {
      assert p'.tenantSettled == p.tenantSettled;
    } else {
      GroupFoldStep(l.totalSettled, Part(dead, done), ToTotal(), k, dead[k]);
      assert p'.tenantSettled == p.tenantSettled - {k};
    }
  }

  lemma PruneEnd(l: Ledger, alive: set<string>, done: set<TenantKey>)
    requires done == l.tenantSettled.Keys
    ensures PartlyPruned(l, alive, done) == PruneTenants(l, alive)
    ensures Part(DeadTenants(l, alive), done) == DeadTenants(l, alive)
  {
    hide GroupFold;
    assert Part(DeadTenants(l, alive), done) == DeadTenants(l, alive);
    assert PartlyPruned(l, alive, done).tenantSettled == PruneTenants(l, alive).tenantSettled;
  }
}
