/** The agent's snapshot duties as it performs them, and a restart at any point of
    any run. */
module Agent {
  import opened Amounts
  import opened Bpf
  import opened Options
  import opened Metadata
  import opened Billing
  import opened State
  import opened Series
  import opened Wal
  import opened Restart
  import Runs

  /** Assign every pair in turn. */
  method Seed<K(!new, ==), V(!new)>(m: map<K, V>, s: seq<Pair<K, V>>) returns (r: map<K, V>)
    ensures r == Assigned(m, s)
  {
    r := m;
    var i := 0;
    while i < |s|
      invariant 0 <= i <= |s| && r == Assigned(m, s[..i])
    {
      assert s[..i + 1][..i] == s[..i];
      r := r[s[i].key := s[i].value];
      i := i + 1;
    }
    assert s[..i] == s;
  }

  /** w is a flush of l under env. */
  ghost predicate IsFlushWire(w: SnapshotWire, l: Ledger, env: Env, resetAt: int) {
    exists snap :: IsFlush(snap, l, env) && snap.countersResetAt == resetAt && Encodes(snap, w)
  }

  class Agent {
    const state: GlobalState
    const files: WalFiles<SnapshotWire>
    var meta: map<Mac, TenantMeta>
    var routers: map<Mac, string>
    var countersResetAt: int

    constructor (state: GlobalState, files: WalFiles<SnapshotWire>, meta: map<Mac, TenantMeta>,
                 routers: map<Mac, string>)
      ensures this.state == state && this.files == files && CurrentEnv() == Env(meta, routers) && countersResetAt == 0
    {
      this.state, this.files, this.meta, this.routers, countersResetAt := state, files, meta, routers, 0;
    }

    function CurrentEnv(): Env reads this { Env(meta, routers) }

    /** Before the final flush: no series moves, every row keeps its baseline. */
    method SettleLingeringGhosts() returns (folded: nat)
      modifies state
      ensures state.Abs() == Settle(old(state.Abs()), SettleRebase, SettleResolver(routers, PickGhosts(meta)))
      ensures folded == |Folded(old(state.counts), SettleResolver(routers, PickGhosts(meta)))|
      ensures forall s :: Value(state.Abs(), CurrentEnv(), s) == Value(old(state.Abs()), CurrentEnv(), s)
    {
      hide Settle, Value;
      ghost var l0 := state.Abs();
      var ghosts: map<Mac, TenantMeta> := map[];
      var todo := meta.Keys;
      while todo != {}
        invariant todo <= meta.Keys
        invariant forall m: Mac :: m in ghosts <==> m in meta && m !in todo && meta[m].deleteAt.Some?
        invariant forall m: Mac :: m in ghosts ==> ghosts[m] == meta[m]
        decreases |todo|
      {
        var m :| m in todo;
        if meta[m].deleteAt.Some? {
          ghosts := ghosts[m := meta[m]];
        }
        todo := todo - {m};
      }
      ghost var resolve := SettleResolver(routers, PickGhosts(meta));
      forall s ensures Value(Settle(l0, SettleRebase, resolve), CurrentEnv(), s) == Value(l0, CurrentEnv(), s) {
        GhostFoldInvisible(l0, CurrentEnv(), s);
      }
      if ghosts == map[] {
        SameResolver(ghosts);
        SettleNothing(l0, SettleRebase, resolve);
        return 0;
      }
      SameResolver(ghosts);
      SettleSame(l0, SettleRebase, SettleResolver(routers, PickKnown(ghosts)), resolve);
      folded := state.Settle(SettleRebase, SettleResolver(routers, PickKnown(ghosts)));
    }

    lemma SameResolver(ghosts: map<Mac, TenantMeta>)
      requires forall m: Mac :: m in ghosts <==> m in meta && meta[m].deleteAt.Some?
      requires forall m: Mac :: m in ghosts ==> ghosts[m] == meta[m]
      ensures forall k :: SettleResolver(routers, PickKnown(ghosts))(k) == SettleResolver(routers, PickGhosts(meta))(k)
    {
    }

    /** One snapshot of the ledger, each row stamped with its owner, saved. */
    method FlushWAL(fault: Option<Stage>) returns (err: Option<Stage>, ghost w: SnapshotWire)
      modifies files
      ensures err == fault
      ensures IsFlushWire(w, state.Abs(), CurrentEnv(), countersResetAt)
      ensures files.Files() == Replay(old(files.Files()),
                                      SaveActions(w)[..if fault.Some? then StepsBefore(fault.value) else 4])
      ensures err.None? ==> files.path == Snap(SCHEMA_VERSION, w)
    {
      hide Lists, Encodes, Replay;
      var rows := Entries(state.counts);
      var tenants := Entries(state.tenantSettled);
      var servers := Entries(state.serverSettled);
      var totals := Entries(state.totalSettled);
      var records := StampOwners(rows);
      var snap := Snapshot(records, tenants, servers, totals, countersResetAt);
      var wire := Encode(snap);
      w := wire;
      err := files.Save(wire, fault);
    }

    method StampOwners(rows: seq<Pair<FlowKey, Counter>>) returns (records: seq<Record>)
      ensures Rows(records) == rows
      ensures forall i :: 0 <= i < |records| ==> records[i].owner == OwnerOr(KnownOwner(CurrentEnv())(records[i].key))
    {
      records := [];
      var resolve := KnownOwner(CurrentEnv());
      for i := 0 to |rows|
        invariant |records| == i
        invariant forall j :: 0 <= j < i ==>
                    records[j] == Record(rows[j].key, rows[j].value, OwnerOr(resolve(rows[j].key)))
      {
        records := records + [Record(rows[i].key, rows[i].value, OwnerOr(resolve(rows[i].key)))];
      }
    }

    /** Fold every restored row whose owner changed while the agent was down. */
    method SettleChangedOwners(records: seq<Record>) returns (folded: nat)
      modifies state
      ensures state.Abs() == Settle(old(state.Abs()), SettleRebase, ByMap(ChangedOwners(records, CurrentEnv())))
      ensures folded == |Folded(old(state.counts), ByMap(ChangedOwners(records, CurrentEnv())))|
    {
      hide Settle;
      var resolve := KnownOwner(CurrentEnv());
      var changed: map<FlowKey, Owner> := map[];
      var i := 0;
      while i < |records|
        invariant 0 <= i <= |records| && changed == ChangedOwners(records[..i], CurrentEnv())
      {
        assert records[..i + 1][..i] == records[..i];
        var r := records[i];
        if r.owner.tenant != "" && resolve(r.key) != Some(r.owner) {
          changed := changed[r.key := r.owner];
        }
        i := i + 1;
      }
      assert records[..i] == records;
      if changed == map[] {
        SettleNothing(state.Abs(), SettleRebase, ByMap(changed));
        return 0;
      }
      folded := state.Settle(SettleRebase, ByMap(changed));
    }

    /** Seed the ledger before the first drain. Only a newer snapshot refuses to
        boot, and then nothing is touched; an unusable primary is quarantined; a
        reset epoch is stamped and flushed unless the snapshot carries one. */
    method RestoreFromWAL(now: int, quarantineFails: bool, fault: Option<Stage>) returns (booted: bool)
      requires state.Abs() == Empty()
      modifies this`countersResetAt, state, files
      ensures booted <==> Load(old(files.Files())) != RefusedNewer
      ensures !booted ==>
                files.Files() == old(files.Files()) && state.Abs() == Empty() && countersResetAt == old(countersResetAt)
      ensures var was := Load(old(files.Files()));
              booted ==>
                if was.FromPrimary? || was.FromBackup? then
                  exists snap :: Decodes(was.body, snap) && state.Abs() == Restored(snap, CurrentEnv())
                else state.Abs() == Empty()
      ensures var was := Load(old(files.Files()));
              var kept := (was.FromPrimary? || was.FromBackup?) && was.body.countersResetAt != 0;
              booted ==> countersResetAt == (if kept then was.body.countersResetAt else now)
      ensures var was := Load(old(files.Files()));
              (was.FromBackup? || was.Unreadable?) && !quarantineFails && old(files.path) != Missing ==>
                    files.quarantine == old(files.path)
      ensures var was := Load(old(files.Files()));
              booted && (was.FromPrimary? || was.FromBackup?) && was.body.countersResetAt != 0 ==>
                files.Files() == (if was.FromBackup? && !quarantineFails then Quarantined(old(files.Files()))
                                  else old(files.Files()))
      ensures var was := Load(old(files.Files()));
              booted && fault.None? && !((was.FromPrimary? || was.FromBackup?) && was.body.countersResetAt != 0) ==>
                files.path.Snap? && files.path.version == SCHEMA_VERSION
                    && IsFlushWire(files.path.body, state.Abs(), CurrentEnv(), now)
    {
      hide Load, Decodes, Restored, Replay, IsFlushWire;
      var res := Load(files.Files());
      if res == RefusedNewer {
        return false;
      }
      booted := true;
      if res.FromBackup? || res.Unreadable? {
        var _, _ := files.Quarantine(quarantineFails);
      }
      if res.FromPrimary? || res.FromBackup? {
        var snap := Decode(res.body);
        SeedAndSettle(snap);
        DecodedEpoch(res.body, snap);
        if snap.countersResetAt != 0 {
          countersResetAt := snap.countersResetAt;
          return;
        }
      }
      countersResetAt := now;
      StampFlush(fault);
    }

    method StampFlush(fault: Option<Stage>)
      modifies files
      ensures fault.None? ==>
                files.path.Snap? && files.path.version == SCHEMA_VERSION
                    && IsFlushWire(files.path.body, state.Abs(), CurrentEnv(), countersResetAt)
      ensures files.quarantine == old(files.quarantine)
    {
      hide IsFlushWire, Replay;
      ghost var dir0 := files.Files();
      var _, w := FlushWAL(fault);
      ReplayKeepsQuarantine(dir0, SaveActions(w)[..if fault.Some? then StepsBefore(fault.value) else 4]);
    }

    method SeedAndSettle(snap: Snapshot)
      requires state.Abs() == Empty()
      modifies state
      ensures state.Abs() == Restored(snap, CurrentEnv())
    {
      hide Settle;
      state.counts := Seed(state.counts, Rows(snap.records));
      state.tenantSettled := Seed(state.tenantSettled, snap.tenantSettled);
      state.serverSettled := Seed(state.serverSettled, snap.serverSettled);
      state.totalSettled := Seed(state.totalSettled, snap.totalSettled);
      assert state.Abs() == Seeded(snap);
      var _ := SettleChangedOwners(snap.records);
    }
  }

  lemma DecodedEpoch(w: SnapshotWire, snap: Snapshot)
    requires Decodes(w, snap)
    ensures snap.countersResetAt == w.countersResetAt
  {
  }

  lemma {:induction false} ReplayKeepsQuarantine<S>(d: Dir<S>, actions: seq<Action<S>>)
    ensures Replay(d, actions).quarantine == d.quarantine
    decreases |actions|
  {
    if actions != [] {
      ReplayKeepsQuarantine(Touch(d, actions[0]), actions[1..]);
    }
  }

  /** A fold depends only on what it resolves the rows to. */
  lemma SettleSame(l: Ledger, mode: SettleMode, r: FlowKey -> Option<Owner>, r': FlowKey -> Option<Owner>)
    requires forall k :: r(k) == r'(k)
    ensures Settle(l, mode, r) == Settle(l, mode, r') && Folded(l.counts, r) == Folded(l.counts, r')
  {
    hide GroupFold;
    assert Folded(l.counts, r) == Folded(l.counts, r');
    assert FoldedServers(l.counts, r) == FoldedServers(l.counts, r');
    assert SettledCounts(l.counts, mode, r) == SettledCounts(l.counts, mode, r');
    GroupFoldSame(l.tenantSettled, Folded(l.counts, r), ByTenant(r), ByTenant(r'));
    GroupFoldSame(l.serverSettled, FoldedServers(l.counts, r), ByServer(r), ByServer(r'));
  }

  lemma GroupFoldSame<K(!new), L(!new)>(buckets: map<L, Amount>, m: map<K, Amount>, f: K -> L, g: K -> L)
    requires forall k :: f(k) == g(k)
    ensures GroupFold(buckets, m, f) == GroupFold(buckets, m, g)
  {
    hide Sum;
    assert Labels(m, f) == Labels(m, g);
    forall l ensures Labelled(m, f, l) == Labelled(m, g, l) {
    }
  }
}
