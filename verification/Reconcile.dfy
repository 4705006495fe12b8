/** The passes that change attribution: learning and ghosting MACs, swapping the
    router map, sweeping ghosts. Each pass moves no series, and at every single
    write the kernel's MACs stay among the userspace ones. */
module Reconcile {
  import opened Bpf
  import opened Options
  import opened Metadata
  import opened Billing
  import opened State
  import opened Series
  import opened Interner
  import opened Kernel
  import Runs

  datatype Keys = Keys(kernel: set<Mac>, user: set<Mac>)

  /** The userspace metadata map and the kernel mac_tenant_map it mirrors. */
  class MacTables {
    var user: map<Mac, TenantMeta>
    var kernel: map<Mac, nat>
    /** MACs whose kernel writes and deletes currently fail. */
    var stuck: set<Mac>
    /** The key sets after every single write. */
    ghost var history: seq<Keys>

    ghost predicate Safe()
      reads this
    {
      && kernel.Keys <= user.Keys
      && forall i :: 0 <= i < |history| ==> history[i].kernel <= history[i].user
    }

    method Insert(mac: Mac, meta: TenantMeta)
      modifies this`user, this`history
      ensures user == old(user)[mac := meta]
      ensures history == old(history) + [Keys(kernel.Keys, user.Keys)]
    {
      user := user[mac := meta];
      history := history + [Keys(kernel.Keys, user.Keys)];
    }

    method Delete(mac: Mac)
      modifies this`user, this`history
      ensures user == old(user) - {mac}
      ensures history == old(history) + [Keys(kernel.Keys, user.Keys)]
    {
      user := user - {mac};
      history := history + [Keys(kernel.Keys, user.Keys)];
    }

    method UpdateKernel(mac: Mac, value: nat) returns (ok: bool)
      modifies this`kernel, this`history
      ensures ok <==> mac !in stuck
      ensures kernel == if ok then old(kernel)[mac := value] else old(kernel)
      ensures history == old(history) + [Keys(kernel.Keys, user.Keys)]
    {
      ok := mac !in stuck;
      if ok {
        kernel := kernel[mac := value];
      }
      history := history + [Keys(kernel.Keys, user.Keys)];
    }

    /** Idempotent, like its flow counterpart. */
    method DeleteKernel(mac: Mac) returns (ok: bool)
      modifies this`kernel, this`history
      ensures ok <==> mac !in stuck
      ensures kernel == if ok then old(kernel) - {mac} else old(kernel)
      ensures history == old(history) + [Keys(kernel.Keys, user.Keys)]
    {
      ok := mac !in stuck;
      if ok {
        kernel := kernel - {mac};
      }
      history := history + [Keys(kernel.Keys, user.Keys)];
    }
  }

  /** No series differs between two moments. */
  ghost predicate SameSeries(l: Ledger, env: Env, l': Ledger, env': Env) {
    forall s :: Value(l', env', s) == Value(l, env, s)
  }

  class Reconciler {
    const tables: MacTables
    const state: GlobalState
    const interner: TenantInterner
    var routers: map<Mac, string>

    constructor (tables: MacTables, state: GlobalState, interner: TenantInterner)
      ensures this.tables == tables && this.state == state && this.interner == interner && routers == map[]
    {
      this.tables, this.state, this.interner, routers := tables, state, interner, map[];
    }

    ghost function CurrentEnv(): Env
      reads this, tables
    {
      Env(tables.user, routers)
    }

    ghost predicate Valid()
      reads this, tables, state, interner
    {
      tables.Safe() && interner.Valid() && Runs.RowsKnown(state.counts, tables.user)
    }

    /** Userspace first, then kernel; a failed kernel write is only logged. */
    method InsertMAC(mac: Mac, meta: TenantMeta)
      requires tables.Safe() && interner.Valid()
      modifies tables`user, tables`kernel, tables`history, interner
      ensures tables.Safe() && interner.Valid()
      ensures tables.user == old(tables.user)[mac := meta.(deleteAt := None)]
      ensures meta.projectId == "" || meta.projectId in interner.forward
      ensures forall p :: p in old(interner.forward) ==>
                p in interner.forward && interner.forward[p] == old(interner.forward)[p]
      ensures tables.kernel ==
              if mac in tables.stuck then old(tables.kernel)
              else old(tables.kernel)[mac := TenantValue(interner.IdOf(meta.projectId), meta.isAmphora)]
      ensures old(tables.history) <= tables.history
    {
      tables.Insert(mac, meta.(deleteAt := None));
      var id := interner.Intern(meta.projectId);
      var _ := tables.UpdateKernel(mac, TenantValue(id, meta.isAmphora));
    }

    /** The loop body of learnMACs for one desired MAC. */
    method LearnOne(mac: Mac, want: TenantMeta) returns (inserted: bool, changed: bool)
      requires Valid() && mac != 0
      modifies tables`user, tables`kernel, tables`history, interner, state
      ensures Valid()
      ensures tables.user == old(tables.user)[mac := want.(deleteAt := None)]
      ensures inserted == (mac !in old(tables.user))
      ensures changed == (mac in old(tables.user) && old(tables.user)[mac] != want.(deleteAt := None))
      ensures (inserted || changed) && mac !in tables.stuck ==>
                && (want.projectId == "" || want.projectId in interner.forward)
                && tables.kernel == old(tables.kernel)[mac := TenantValue(interner.IdOf(want.projectId),
                   want.isAmphora)]
      ensures !(inserted || changed) || mac in tables.stuck ==> tables.kernel == old(tables.kernel)
      ensures forall p :: p in old(interner.forward) ==>
                p in interner.forward && interner.forward[p] == old(interner.forward)[p]
      ensures old(tables.history) <= tables.history
      ensures SameSeries(old(state.Abs()), old(CurrentEnv()), state.Abs(), CurrentEnv())
    {
      hide Value, Settle, Runs.RowsKnown;
      inserted, changed := false, false;
      ghost var l0, env0 := state.Abs(), CurrentEnv();
      ghost var want' := want.(deleteAt := None);
      Runs.LearnKeepsRows(l0, env0, mac, want');
      forall s ensures Value(Runs.LearnedLedger(l0, env0, mac, want'), env0.(meta := env0.meta[mac := want']), s) ==
          Value(l0, env0, s) {
        Runs.LearnIsInvisible(l0, env0, mac, want', s);
      }
      if mac !in tables.user {
        InsertMAC(mac, want);
        inserted := true;
      } else {
        var cur := tables.user[mac];
        if !cur.SameAttribution(want) {
          // Settle history under the old attribution first.
          var _ := state.Settle(SettleRebase, SettleResolver(routers, PickMac(mac, cur)));
          InsertMAC(mac, want);
          changed := true;
        } else if cur.deleteAt != None {
          // A ghost came back within its grace, same attribution.
          InsertMAC(mac, want);
          changed := true;
        }
      }
      assert tables.user == env0.meta[mac := want'];
      assert state.Abs() == Runs.LearnedLedger(l0, env0, mac, want');
    }

    /** learnMACs: every desired MAC ends attributed as desired and not a ghost;
        whatever was folded on the way, no series moved. */
    method LearnMACs(desired: map<Mac, TenantMeta>) returns (inserted: set<Mac>, changed: set<Mac>)
      requires Valid() && 0 !in desired
      modifies tables`user, tables`kernel, tables`history, interner, state
      ensures Valid()
      ensures tables.user == Learnt(old(tables.user), desired, desired.Keys)
      ensures inserted == desired.Keys - old(tables.user).Keys
      ensures changed == ChangedMacs(old(tables.user), desired, desired.Keys)
      ensures KernelLearnt(tables.kernel, old(tables.kernel), inserted + changed - tables.stuck, desired,
                           interner.forward)
      ensures old(tables.history) <= tables.history
      ensures SameSeries(old(state.Abs()), old(CurrentEnv()), state.Abs(), CurrentEnv())
    {
      hide Learning, SameSeries, Runs.RowsKnown, Learnt, ChangedMacs, KernelLearnt;
      inserted, changed := {}, {};
      ghost var l0, env0, kernel0, history0 := state.Abs(), CurrentEnv(), tables.kernel, tables.history;
      var todo := desired.Keys;
      ghost var done: set<Mac> := {};
      LearningStart(desired);
      while todo != {}
        invariant todo <= desired.Keys && done == desired.Keys - todo
        invariant Learning(l0, env0, kernel0, history0, desired, done, inserted, changed)
        decreases |todo|
      {
        var mac :| mac in todo;
        inserted, changed := LearnNext(l0, env0, kernel0, history0, desired, done, mac, inserted, changed);
        todo := todo - {mac};
        done := done + {mac};
      }
      assert done == desired.Keys;
      LearningEnd(l0, env0, kernel0, history0, desired, inserted, changed);
    }

    lemma LearningStart(desired: map<Mac, TenantMeta>)
      requires Valid()
      ensures Learning(state.Abs(), CurrentEnv(), tables.kernel, tables.history, desired, {}, {}, {})
    {
    }

    lemma LearningEnd(l0: Ledger, env0: Env, kernel0: map<Mac, nat>, history0: seq<Keys>,
                      desired: map<Mac, TenantMeta>, inserted: set<Mac>, changed: set<Mac>)
      requires Learning(l0, env0, kernel0, history0, desired, desired.Keys, inserted, changed)
      ensures Valid() && history0 <= tables.history
      ensures tables.user == Learnt(env0.meta, desired, desired.Keys)
      ensures inserted == desired.Keys - env0.meta.Keys
      ensures changed == ChangedMacs(env0.meta, desired, desired.Keys)
      ensures KernelLearnt(tables.kernel, kernel0, inserted + changed - tables.stuck, desired, interner.forward)
      ensures SameSeries(l0, env0, state.Abs(), CurrentEnv())
    {
    }

    /** learnMACs having dealt with the MACs in done, from ledger l0 and
        labels env0. */
    ghost predicate Learning(l0: Ledger, env0: Env, kernel0: map<Mac, nat>, history0: seq<Keys>,
                             desired: map<Mac, TenantMeta>, done: set<Mac>, inserted: set<Mac>, changed: set<Mac>)
      reads this, tables, state, interner
    {
      && Valid() && done <= desired.Keys && history0 <= tables.history
      && tables.user == Learnt(env0.meta, desired, done)
      && inserted == done - env0.meta.Keys && inserted + changed <= done
      && changed == ChangedMacs(env0.meta, desired, done)
      && KernelLearnt(tables.kernel, kernel0, inserted + changed - tables.stuck, desired, interner.forward)
      && SameSeries(l0, env0, state.Abs(), CurrentEnv())
    }

    method LearnNext(ghost l0: Ledger, ghost env0: Env, ghost kernel0: map<Mac, nat>, ghost history0: seq<Keys>,
                     desired: map<Mac, TenantMeta>, ghost done: set<Mac>, mac: Mac,
                     inserted0: set<Mac>, changed0: set<Mac>)
      returns (inserted: set<Mac>, changed: set<Mac>)
      requires mac in desired && mac !in done && 0 !in desired
      requires Learning(l0, env0, kernel0, history0, desired, done, inserted0, changed0)
      modifies tables`user, tables`kernel, tables`history, interner, state
      ensures Learning(l0, env0, kernel0, history0, desired, done + {mac}, inserted, changed)
    {
      hide SameSeries, Runs.RowsKnown, Learnt, ChangedMacs, KernelLearnt, TenantValue;
      inserted, changed := inserted0, changed0;
      ghost var l1, env1, kernel1, ids1 := state.Abs(), CurrentEnv(), tables.kernel, interner.forward;
      LearntStep(env0.meta, desired, done, mac);
      var ins, chg := LearnOne(mac, desired[mac]);
      SameSeriesTrans(l0, env0, l1, env1, state.Abs(), CurrentEnv());
      if ins {
        inserted := inserted + {mac};
      }
      if chg {
        changed := changed + {mac};
      }
      KernelLearntStep(tables.kernel, kernel1, kernel0, inserted0 + changed0 - tables.stuck, desired, ids1,
                       interner.forward, mac,
                       (ins || chg) && mac !in tables.stuck);
      assert inserted + changed - tables.stuck ==
             (inserted0 + changed0 - tables.stuck) + if (ins || chg) && mac !in tables.stuck then {mac} else {};
    }

    /** ghostGoneMACs: every live entry that left desired starts its grace; ghosts
        keep the deadline they had. */
    method GhostGoneMACs(desired: map<Mac, TenantMeta>, until: nat) returns (ghosted: nat, live: nat)
      requires Valid()
      modifies tables`user, tables`history
      ensures Valid()
      ensures tables.user == Ghosted(old(tables.user), GoneMacs(old(tables.user), desired), until)
      ensures old(tables.history) <= tables.history
      ensures ghosted == |GoneMacs(old(tables.user), desired)| && live == |LiveMacs(old(tables.user))|
      ensures SameSeries(state.Abs(), old(CurrentEnv()), state.Abs(), CurrentEnv())
    {
      hide SameSeries, GoneMacs, LiveMacs, Ghosted, Runs.RowsKnown;
      ghost var user0 := tables.user;
      GhostedNone(user0, until);
      var gone := GoneMacs(tables.user, desired);
      live, ghosted := |LiveMacs(tables.user)|, |gone|;
      GoneAreHeld(tables.user, desired);
      var todo := gone;
      assert gone - todo == {};
      while todo != {}
        invariant todo <= gone && tables.Safe() && old(tables.history) <= tables.history
        invariant tables.user == Ghosted(user0, gone - todo, until)
        decreases |todo|
      {
        var m :| m in todo;
        assert gone - (todo - {m}) == (gone - todo) + {m};
        GhostedStep(user0, gone - todo, m, until);
        tables.Insert(m, tables.user[m].(deleteAt := Some(until)));
        todo := todo - {m};
      }
      assert gone - todo == gone;
      GhostedSame(state.Abs(), Env(user0, routers), gone, until);
    }

    /** reconcileRouterMACs: rows riding a changed interface are folded under the
        label of the map not yet swapped, then the map is replaced. */
    method ReconcileRouterMACs(desired: map<Mac, string>) returns (changedMacs: nat)
      requires Valid()
      modifies this`routers, state
      ensures Valid()
      ensures routers == desired
      ensures changedMacs == |ChangedRouters(old(routers), desired)|
      ensures SameSeries(old(state.Abs()), old(CurrentEnv()), state.Abs(), CurrentEnv())
    {
      hide SameSeries, Settle, ChangedRouters, Runs.RowsKnown;
      var changed := DiffRouters(routers, desired);
      changedMacs := |changed|;
      ghost var l0, env0 := state.Abs(), CurrentEnv();
      if changed == {} {
        NothingChanged(routers, desired);
        SameSeriesRefl(l0, env0);
        return;
      }
      SwapSeries(l0, env0, desired);
      RebaseRows(l0, SettleResolver(routers, PickRouted(tables.user, changed)), tables.user);
      var _ := state.Settle(SettleRebase, SettleResolver(routers, PickRouted(tables.user, changed)));
      routers := desired;
    }
  }

  /** The two diff loops: desired against published, then published against desired. */
  method DiffRouters(was: map<Mac, string>, desired: map<Mac, string>) returns (changed: set<Mac>)
    ensures changed == ChangedRouters(was, desired)
  {
    changed := {};
    var todo := desired.Keys;
    while todo != {}
      invariant todo <= desired.Keys
      invariant forall m :: m in changed <==> m in desired && m !in todo && !(m in was && was[m] == desired[m])
      decreases |todo|
    {
      var m :| m in todo;
      if m !in was || was[m] != desired[m] {
        changed := changed + {m};
      }
      todo := todo - {m};
    }
    todo := was.Keys;
    while todo != {}
      invariant todo <= was.Keys
      invariant forall m :: m in changed <==>
                  (m in desired && !(m in was && was[m] == desired[m])) || (m in was && m !in todo && m !in desired)
      decreases |todo|
    {
      var m :| m in todo;
      if m !in desired {
        changed := changed + {m};
      }
      todo := todo - {m};
    }
  }

  /** The userspace map once the MACs in done are attributed as desired. */
  /** The kernel holds the packed attribution of every MAC in written, and is
      otherwise as it was. */
  ghost predicate KernelLearnt(now: map<Mac, nat>, was: map<Mac, nat>, written: set<Mac>,
                               desired: map<Mac, TenantMeta>, ids: map<string, nat>) {
    && (forall m: Mac :: m in written ==> m in desired && m in now && IsValueOf(now[m], desired[m], ids))
    && (forall m: Mac :: m !in written ==> (m in now <==> m in was) && (m in now ==> now[m] == was[m]))
  }

  ghost predicate IsValueOf(v: nat, meta: TenantMeta, ids: map<string, nat>) {
    if meta.projectId == "" then v == TenantValue(TENANT_ID_UNSET, meta.isAmphora)
    else meta.projectId in ids && v == TenantValue(ids[meta.projectId], meta.isAmphora)
  }

  lemma KernelLearntStep(now: map<Mac, nat>, mid: map<Mac, nat>, was: map<Mac, nat>, written: set<Mac>,
                         desired: map<Mac, TenantMeta>,
                         ids: map<string, nat>, ids': map<string, nat>, mac: Mac, landed: bool)
    requires KernelLearnt(mid, was, written, desired, ids) && mac in desired && mac !in written
    requires forall p :: p in ids ==> p in ids' && ids'[p] == ids[p]
    requires landed ==> mac in now && now == mid[mac := now[mac]] && IsValueOf(now[mac], desired[mac], ids')
    requires !landed ==> now == mid
    ensures KernelLearnt(now, was, written + (if landed then {mac} else {}), desired, ids')
  {
    hide TenantValue;
  }

  ghost function Learnt(user: map<Mac, TenantMeta>, desired: map<Mac, TenantMeta>, done: set<Mac>): map<Mac, TenantMeta>
    requires done <= desired.Keys
  {
    map m | m in user.Keys + done :: if m in done then desired[m].(deleteAt := None) else user[m]
  }

  /** MACs of done already held under another attribution, or as ghosts. */
  ghost function ChangedMacs(user: map<Mac, TenantMeta>, desired: map<Mac, TenantMeta>, done: set<Mac>): set<Mac>
    requires done <= desired.Keys
  {
    set m | m in done && m in user && user[m] != desired[m].(deleteAt := None)
  }

  lemma LearntStep(user: map<Mac, TenantMeta>, desired: map<Mac, TenantMeta>, done: set<Mac>, mac: Mac)
    requires done <= desired.Keys && mac in desired && mac !in done
    ensures Learnt(user, desired, done + {mac}) == Learnt(user, desired, done)[mac := desired[mac].(deleteAt := None)]
    ensures mac in Learnt(user, desired, done) <==> mac in user
    ensures mac in user ==> Learnt(user, desired, done)[mac] == user[mac]
    ensures ChangedMacs(user, desired, done + {mac}) ==
            ChangedMacs(user, desired, done) + if mac in user
                && user[mac] != desired[mac].(deleteAt := None) then {mac} else {}
  {
  }

  function LiveMacs(user: map<Mac, TenantMeta>): set<Mac> {
    set m | m in user && user[m].deleteAt == None
  }

  function GoneMacs(user: map<Mac, TenantMeta>, desired: map<Mac, TenantMeta>): set<Mac> {
    set m | m in user && user[m].deleteAt == None && m !in desired
  }

  lemma GoneAreHeld(user: map<Mac, TenantMeta>, desired: map<Mac, TenantMeta>)
    ensures GoneMacs(user, desired) <= user.Keys
  {
  }

  ghost function Ghosted(user: map<Mac, TenantMeta>, gone: set<Mac>, until: nat): map<Mac, TenantMeta> {
    map m | m in user :: if m in gone then user[m].(deleteAt := Some(until)) else user[m]
  }

  lemma GhostedNone(user: map<Mac, TenantMeta>, until: nat)
    ensures Ghosted(user, {}, until) == user
  {
  }

  lemma GhostedStep(user: map<Mac, TenantMeta>, gone: set<Mac>, m: Mac, until: nat)
    requires m in user && m !in gone
    ensures var g := Ghosted(user, gone, until);
            m in g && g[m] == user[m] && Ghosted(user, gone + {m}, until) == g[m := user[m].(deleteAt := Some(until))]
  {
  }

  /** Ghosting re-labels nothing and forgets no MAC. */
  lemma GhostedSame(l: Ledger, env: Env, gone: set<Mac>, until: nat)
    requires Runs.RowsKnown(l.counts, env.meta)
    ensures var env' := env.(meta := Ghosted(env.meta, gone, until));
            SameSeries(l, env, l, env') && Runs.RowsKnown(l.counts, env'.meta)
  {
    Relabels(l, env, env.(meta := Ghosted(env.meta, gone, until)));
  }

  lemma SameSeriesRefl(l: Ledger, env: Env)
    ensures SameSeries(l, env, l, env)
  {
  }

  lemma NothingChanged(was: map<Mac, string>, desired: map<Mac, string>)
    requires ChangedRouters(was, desired) == {}
    ensures was == desired
  {
    assert forall m :: m in was.Keys + desired.Keys ==> m !in ChangedRouters(was, desired);
  }

  lemma SwapSeries(l: Ledger, env: Env, desired: map<Mac, string>)
    ensures SameSeries(l, env, Settle(l, SettleRebase, SettleResolver(env.routers,
            PickRouted(env.meta, ChangedRouters(env.routers, desired)))),
                       env.(routers := desired))
  {
    hide Value, Settle;
    forall s ensures Value(Settle(l, SettleRebase, SettleResolver(env.routers,
                                                                  PickRouted(env.meta,
                                                                      ChangedRouters(env.routers, desired)))),
                                                                          env.(routers := desired),
                                                                              s) == Value(l, env, s) {
      RouterSwapInvisible(l, env, desired, s);
    }
  }

  lemma RebaseRows(l: Ledger, resolve: FlowKey -> Option<Owner>, meta: map<Mac, TenantMeta>)
    requires Runs.RowsKnown(l.counts, meta)
    ensures Runs.RowsKnown(Settle(l, SettleRebase, resolve).counts, meta)
  {
  }

  lemma SameSeriesTrans(a: Ledger, ea: Env, b: Ledger, eb: Env, c: Ledger, ec: Env)
    requires SameSeries(a, ea, b, eb) && SameSeries(b, eb, c, ec)
    ensures SameSeries(a, ea, c, ec)
  {
  }

  class GhostSweeper {
    const tables: MacTables
    const flows: KernelFlows
    const state: GlobalState

    constructor (tables: MacTables, flows: KernelFlows, state: GlobalState)
      ensures this.tables == tables && this.flows == flows && this.state == state
    {
      this.tables, this.flows, this.state := tables, flows, state;
    }

    /** Kernel MACs first; only those whose delete worked are swept further. */
    method DeleteKernelMACs(expired: set<Mac>) returns (swept: set<Mac>)
      requires tables.Safe()
      modifies tables`kernel, tables`history
      ensures tables.Safe() && old(tables.history) <= tables.history && swept == expired - tables.stuck
      ensures tables.kernel == old(tables.kernel) - swept
    {
      swept := {};
      var todo := expired;
      while todo != {}
        invariant todo <= expired && tables.Safe() && old(tables.history) <= tables.history
        invariant swept == expired - todo - tables.stuck
        invariant tables.kernel == old(tables.kernel) - swept
        decreases |todo|
      {
        var m :| m in todo;
        var ok := tables.DeleteKernel(m);
        if ok {
          swept := swept + {m};
        }
        todo := todo - {m};
      }
    }

    /** Residual kernel flows of the swept VMs; those refusing stay behind. */
    method EvictResidualFlows(swept: set<Mac>) returns (deleted: nat)
      modifies flows`flows
      ensures flows.flows == map k | k in old(flows.flows) && (VMMAC(k) !in swept || k in flows.broken) ::
                old(flows.flows)[k]
      ensures deleted == |set k | k in old(flows.flows) && VMMAC(k) in swept && k !in flows.broken|
    {
      deleted := 0;
      var todo := set k | k in flows.flows && VMMAC(k) in swept;
      ghost var gone: set<FlowKey> := {};
      while todo != {}
        invariant forall k :: k in gone <==>
                    k in old(flows.flows) && VMMAC(k) in swept && k !in flows.broken && k !in todo
        invariant deleted == |gone|
        invariant forall k :: k in todo ==> k in flows.flows && VMMAC(k) in swept
        invariant flows.flows == map k | k in old(flows.flows)
                  && (VMMAC(k) !in swept || k in flows.broken || k in todo) :: old(flows.flows)[k]
        decreases |todo|
      {
        var k :| k in todo;
        var ok := flows.Delete(k);
        if ok {
          deleted := deleted + 1;
          gone := gone + {k};
        }
        todo := todo - {k};
      }
      assert gone == set k | k in old(flows.flows) && VMMAC(k) in swept && k !in flows.broken;
    }

    method DeleteUserspace(swept: set<Mac>)
      requires tables.Safe() && swept !! tables.kernel.Keys
      modifies tables`user, tables`history
      ensures tables.Safe() && old(tables.history) <= tables.history && tables.user == old(tables.user) - swept
    {
      var todo := swept;
      while todo != {}
        invariant todo <= swept && tables.Safe() && old(tables.history) <= tables.history
        invariant tables.user == old(tables.user) - (swept - todo)
        decreases |todo|
      {
        var m :| m in todo;
        tables.Delete(m);
        todo := todo - {m};
      }
    }

    /** Kernel MACs, residual flows, fold, userspace: in this order. */
    method Sweep(now: nat, routers: map<Mac, string>) returns (swept: set<Mac>)
      requires tables.Safe() && Runs.RowsKnown(state.counts, tables.user)
      modifies tables`user, tables`kernel, tables`history, flows`flows, state
      ensures tables.Safe() && Runs.RowsKnown(state.counts, tables.user)
      ensures swept == set m | m in old(tables.user) && HasExpired(old(tables.user)[m], now) && m !in tables.stuck
      ensures tables.user == old(tables.user) - swept
      ensures tables.kernel == old(tables.kernel) - swept && old(tables.history) <= tables.history
      ensures flows.flows == map k | k in old(flows.flows) && (VMMAC(k) !in swept || k in flows.broken) ::
                old(flows.flows)[k]
      ensures state.Abs() == Settle(old(state.Abs()), SettleEvict,
                                    SettleResolver(routers, PickSwept(old(tables.user), swept)))
      ensures SameSeries(old(state.Abs()), Env(old(tables.user), routers), state.Abs(), Env(tables.user, routers))
    {
      hide SameSeries, Settle, HasExpired, Runs.RowsKnown;
      ghost var l0, env0 := state.Abs(), Env(tables.user, routers);
      var expired := set m | m in tables.user && HasExpired(tables.user[m], now);
      swept := DeleteKernelMACs(expired);
      var _ := EvictResidualFlows(swept);
      var _ := state.Settle(SettleEvict, SettleResolver(routers, PickSwept(tables.user, swept)));
      DeleteUserspace(swept);
      SweepSeries(l0, env0, swept);
      EvictRows(l0, env0, swept);
    }
  }

  predicate HasExpired(m: TenantMeta, now: nat) { m.deleteAt.Some? && m.deleteAt.value <= now }

  lemma SweepSeries(l: Ledger, env: Env, swept: set<Mac>)
    ensures SameSeries(l, env, Settle(l, SettleEvict, SettleResolver(env.routers, PickSwept(env.meta, swept))),
                       env.(meta := env.meta - swept))
  {
    hide Value, Settle;
    forall s ensures Value(Settle(l, SettleEvict, SettleResolver(env.routers, PickSwept(env.meta, swept))),
                           env.(meta := env.meta - swept), s) == Value(l, env, s) {
      GhostSweepInvisible(l, env, swept, s);
    }
  }

  lemma EvictRows(l: Ledger, env: Env, swept: set<Mac>)
    requires Runs.RowsKnown(l.counts, env.meta)
    ensures Runs.RowsKnown(Settle(l, SettleEvict, SettleResolver(env.routers, PickSwept(env.meta, swept))).counts,
                           env.meta - swept)
  {
  }

  /** Two environments that label every row alike expose the same series. */
  lemma Relabels(l: Ledger, env: Env, env': Env)
    requires forall k :: k in l.counts ==> RowOwner(env', k) == RowOwner(env, k)
    ensures SameSeries(l, env, l, env')
  {
    hide Value, RowOwner;
    forall s ensures Value(l, env', s) == Value(l, env, s) {
      SameLabels(l, env, env', s);
    }
  }
}
