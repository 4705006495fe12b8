/** The agent's side of the snapshot: what a flush writes, what a boot restores,
    and why a restart moves no series. */
module Restart {
  import opened Amounts
  import opened Bpf
  import opened Options
  import opened Metadata
  import opened Billing
  import opened State
  import opened Series
  import opened Wal
  import Runs

  // ---------------------------------------------------------------------
  // Maps as lists, in whatever order
  // ---------------------------------------------------------------------

  datatype Pair<+K, +V> = Pair(key: K, value: V)

  /** s lists m: every entry once, nothing else. */
  ghost predicate Lists<K(!new), V(!new)>(s: seq<Pair<K, V>>, m: map<K, V>) {
    && (forall i, j :: 0 <= i < j < |s| ==> s[i].key != s[j].key)
    && (forall i :: 0 <= i < |s| ==> s[i].key in m && m[s[i].key] == s[i].value)
    && (forall k :: k in m ==> exists i :: 0 <= i < |s| && s[i].key == k)
  }

  method Entries<K(!new, ==), V(!new)>(m: map<K, V>) returns (s: seq<Pair<K, V>>)
    ensures Lists(s, m)
  {
    s := [];
    var todo := m.Keys;
    while todo != {}
      invariant todo <= m.Keys
      invariant forall i, j :: 0 <= i < j < |s| ==> s[i].key != s[j].key
      invariant forall i :: 0 <= i < |s| ==> s[i].key in m && s[i].key !in todo && m[s[i].key] == s[i].value
      invariant forall k :: k in m && k !in todo ==> exists i :: 0 <= i < |s| && s[i].key == k
      decreases |todo|
    {
      var k :| k in todo;
      ghost var s0 := s;
      s := s + [Pair(k, m[k])];
      todo := todo - {k};
      forall j | j in m && j !in todo
        ensures exists i :: 0 <= i < |s| && s[i].key == j
      {
        if j == k {
          assert s[|s0|].key == j;
        } else {
          var i :| 0 <= i < |s0| && s0[i].key == j;
          assert s[i].key == j;
        }
      }
    }
  }

  /** Entries assigned one by one; a later duplicate overwrites. */
  function Assigned<K, V>(m: map<K, V>, s: seq<Pair<K, V>>): map<K, V> {
    if s == [] then m else Assigned(m, s[..|s| - 1])[s[|s| - 1].key := s[|s| - 1].value]
  }

  lemma {:induction false} AssignedHolds<K(!new), V(!new)>(s: seq<Pair<K, V>>)
    requires forall i, j :: 0 <= i < j < |s| ==> s[i].key != s[j].key
    ensures Lists(s, Assigned(map[], s))
  {
    if s != [] {
      var n := |s| - 1;
      var init := s[..n];
      AssignedHolds(init);
      var m := Assigned(map[], init);
      forall k | k in Assigned(map[], s)
        ensures exists i :: 0 <= i < |s| && s[i].key == k
      {
        if k in m {
          var i :| 0 <= i < n && init[i].key == k;
          assert s[i].key == k;
        } else {
          assert s[n].key == k;
        }
      }
    }
  }

  /** Listing a map and assigning the list into an empty one gives the map back. */
  lemma RestoreInvertsListing<K(!new), V(!new)>(s: seq<Pair<K, V>>, m: map<K, V>)
    requires Lists(s, m)
    ensures Assigned(map[], s) == m
  {
    AssignedHolds(s);
    var r := Assigned(map[], s);
    forall k | k in r ensures k in m && m[k] == r[k] {
      var i :| 0 <= i < |s| && s[i].key == k;
    }
    forall k | k in m ensures k in r {
      var i :| 0 <= i < |s| && s[i].key == k;
    }
  }

  // ---------------------------------------------------------------------
  // Records and their wire form
  // ---------------------------------------------------------------------

  /** owner is NOBODY when the row resolved to no VM at flush time. */
  datatype Record = Record(key: FlowKey, counter: Counter, owner: Owner)

  datatype Snapshot = Snapshot(
    records: seq<Record>, tenantSettled: seq<Pair<TenantKey, Amount>>, serverSettled: seq<Pair<ServerKey, Amount>>,
    totalSettled: seq<Pair<TotalKey, Amount>>, countersResetAt: int)

  datatype EntryWire = EntryWire(owner: Option<Owner>, key: FlowKey, total: FlowMetrics, lastRaw: FlowMetrics)

  /** legacySettled is where files up to version 3 keep the tenant buckets. */
  datatype SnapshotWire = SnapshotWire(
    globalState: seq<EntryWire>, tenantSettled: seq<Pair<TenantKey, Amount>>,
        serverSettled: seq<Pair<ServerKey, Amount>>,
    totalSettled: seq<Pair<TotalKey, Amount>>, countersResetAt: int, legacySettled: seq<Pair<TenantKey, Amount>>)

  function ToWire(r: Record): EntryWire {
    EntryWire(if r.owner.tenant != "" then Some(r.owner) else None, r.key, r.counter.total, r.counter.lastRaw)
  }

  function FromWire(e: EntryWire): Record {
    Record(e.key, Counter(e.total, e.lastRaw), match e.owner case Some(o) => o case None => NOBODY)
  }

  /** A bucket written before the label existed means "no external network". */
  function Sentinel(extNet: string): string { if extNet == "" then NO_EXTERNAL_NETWORK else extNet }

  function TenantBucket(b: Pair<TenantKey, Amount>): Pair<TenantKey, Amount> {
    b.(key := b.key.(extNet := Sentinel(b.key.extNet)))
  }

  function ServerBucket(b: Pair<ServerKey, Amount>): Pair<ServerKey, Amount> {
    b.(key := b.key.(extNet := Sentinel(b.key.extNet)))
  }

  function TotalBucket(b: Pair<TotalKey, Amount>): Pair<TotalKey, Amount> {
    b.(key := b.key.(extNet := Sentinel(b.key.extNet)))
  }

  /** Each element of out is f of its counterpart. */
  ghost predicate Maps<A(!new), B(!new)>(s: seq<A>, f: A -> B, out: seq<B>) {
    |out| == |s| && forall i :: 0 <= i < |s| ==> out[i] == f(s[i])
  }

  method Convert<A(!new), B(!new)>(s: seq<A>, f: A -> B) returns (out: seq<B>)
    ensures Maps(s, f, out)
  {
    out := [];
    for i := 0 to |s|
      invariant |out| == i && forall j :: 0 <= j < i ==> out[j] == f(s[j])
    {
      out := out + [f(s[i])];
    }
  }

  ghost predicate Encodes(snap: Snapshot, w: SnapshotWire) {
    && Maps(snap.records, ToWire, w.globalState)
    && w == SnapshotWire(w.globalState, snap.tenantSettled, snap.serverSettled, snap.totalSettled,
                         snap.countersResetAt, [])
  }

  method Encode(snap: Snapshot) returns (w: SnapshotWire)
    ensures Encodes(snap, w)
  {
    var entries := Convert(snap.records, ToWire);
    w := SnapshotWire(entries, snap.tenantSettled, snap.serverSettled, snap.totalSettled, snap.countersResetAt, []);
  }

  ghost predicate Decodes(w: SnapshotWire, snap: Snapshot) {
    && Maps(w.globalState, FromWire, snap.records)
    && Maps(if w.tenantSettled == [] then w.legacySettled else w.tenantSettled, TenantBucket, snap.tenantSettled)
    && Maps(w.serverSettled, ServerBucket, snap.serverSettled)
    && Maps(w.totalSettled, TotalBucket, snap.totalSettled)
    && snap.countersResetAt == w.countersResetAt
  }

  method Decode(w: SnapshotWire) returns (snap: Snapshot)
    ensures Decodes(w, snap)
  {
    var records := Convert(w.globalState, FromWire);
    var tenants := Convert(if w.tenantSettled == [] then w.legacySettled else w.tenantSettled, TenantBucket);
    var servers := Convert(w.serverSettled, ServerBucket);
    var totals := Convert(w.totalSettled, TotalBucket);
    snap := Snapshot(records, tenants, servers, totals, w.countersResetAt);
  }

  /** Every owner is named or absent, and every settled bucket has its label. */
  ghost predicate WireSafe(snap: Snapshot) {
    && (forall i :: 0 <= i < |snap.records| ==> snap.records[i].owner.tenant != "" || snap.records[i].owner == NOBODY)
    && (forall i :: 0 <= i < |snap.tenantSettled| ==> snap.tenantSettled[i].key.extNet != "")
    && (forall i :: 0 <= i < |snap.serverSettled| ==> snap.serverSettled[i].key.extNet != "")
    && (forall i :: 0 <= i < |snap.totalSettled| ==> snap.totalSettled[i].key.extNet != "")
  }

  /** The wire form loses nothing exactly when that holds. */
  lemma WireRoundTrip(snap: Snapshot, w: SnapshotWire, back: Snapshot)
    requires Encodes(snap, w) && Decodes(w, back)
    ensures back == snap <==> WireSafe(snap)
  {
  }

  // ---------------------------------------------------------------------
  // A flush and the boot that reads it
  // ---------------------------------------------------------------------

  function PickKnown(meta: map<Mac, TenantMeta>): FlowKey -> Option<TenantMeta> {
    (k: FlowKey) => if VMMAC(k) in meta then Some(meta[VMMAC(k)]) else None
  }

  /** The owner the Collector emits a row under, when its VM is known. */
  function KnownOwner(env: Env): FlowKey -> Option<Owner> { SettleResolver(env.routers, PickKnown(env.meta)) }

  function Rows(records: seq<Record>): seq<Pair<FlowKey, Counter>> {
    seq(|records|, i requires 0 <= i < |records| => Pair(records[i].key, records[i].counter))
  }

  /** snap is the ledger l, flushed under env. */
  ghost predicate IsFlush(snap: Snapshot, l: Ledger, env: Env) {
    && Lists(Rows(snap.records), l.counts)
    && (forall i :: 0 <= i < |snap.records| ==> snap.records[i].owner == OwnerOr(KnownOwner(env)(snap.records[i].key)))
    && Lists(snap.tenantSettled, l.tenantSettled)
    && Lists(snap.serverSettled, l.serverSettled)
    && Lists(snap.totalSettled, l.totalSettled)
  }

  /** The ledger a boot seeds from a snapshot. */
  function Seeded(snap: Snapshot): Ledger {
    Ledger(Assigned(map[], Rows(snap.records)), Assigned(map[], snap.tenantSettled),
           Assigned(map[], snap.serverSettled), Assigned(map[], snap.totalSettled))
  }

  lemma SeedInvertsFlush(snap: Snapshot, l: Ledger, env: Env)
    requires IsFlush(snap, l, env)
    ensures Seeded(snap) == l
  {
    hide Lists, Assigned;
    RestoreInvertsListing(Rows(snap.records), l.counts);
    RestoreInvertsListing(snap.tenantSettled, l.tenantSettled);
    RestoreInvertsListing(snap.serverSettled, l.serverSettled);
    RestoreInvertsListing(snap.totalSettled, l.totalSettled);
  }

  /** The record names an owner, and its row now resolves to another or to none. */
  predicate OwnerChanged(r: Record, env: Env) {
    r.owner.tenant != "" && KnownOwner(env)(r.key) != Some(r.owner)
  }

  function ChangedOwners(records: seq<Record>, env: Env): map<FlowKey, Owner> {
    if records == [] then map[]
    else
      var r := records[|records| - 1];
      var rest := ChangedOwners(records[..|records| - 1], env);
      if OwnerChanged(r, env) then rest[r.key := r.owner] else rest
  }

  function ByMap(owners: map<FlowKey, Owner>): FlowKey -> Option<Owner> {
    (k: FlowKey) => if k in owners then Some(owners[k]) else None
  }

  /** The ledger after a boot under env. */
  ghost function Restored(snap: Snapshot, env: Env): Ledger {
    Settle(Seeded(snap), SettleRebase, ByMap(ChangedOwners(snap.records, env)))
  }

  /** With one record per row: exactly the changed rows, under their recorded owner. */
  lemma {:induction false} ChangedOwnersExact(records: seq<Record>, env: Env, i: nat)
    requires i < |records| && forall p, q :: 0 <= p < q < |records| ==> records[p].key != records[q].key
    ensures ByMap(ChangedOwners(records, env))(records[i].key) ==
            if OwnerChanged(records[i], env) then Some(records[i].owner) else None
  {
    hide OwnerChanged;
    var n := |records| - 1;
    var init := records[..n];
    if i < n {
      ChangedOwnersExact(init, env, i);
    } else {
      AbsentUnchanged(init, env, records[n].key);
    }
  }

  lemma {:induction false} AbsentUnchanged(records: seq<Record>, env: Env, k: FlowKey)
    requires forall p :: 0 <= p < |records| ==> records[p].key != k
    ensures k !in ChangedOwners(records, env)
  {
    if records != [] {
      AbsentUnchanged(records[..|records| - 1], env, k);
    }
  }

  /** Every attribution names a project. */
  ghost predicate Attributed(meta: map<Mac, TenantMeta>) {
    forall m: Mac :: m in meta ==> meta[m].projectId != ""
  }

  /** What a boot does with a flushed row: fold it, under the label it had, exactly
      if its VM was known and it would now be labelled otherwise or not at all. */
  lemma RowAtBoot(snap: Snapshot, l: Ledger, env: Env, env': Env, k: FlowKey)
    requires IsFlush(snap, l, env) && Attributed(env.meta) && k in l.counts
    ensures ByMap(ChangedOwners(snap.records, env'))(k) ==
            if VMMAC(k) in env.meta && KnownOwner(env')(k) != Some(RowOwner(env, k)) then Some(RowOwner(env, k))
                else None
  {
    var rows := Rows(snap.records);
    var i :| 0 <= i < |rows| && rows[i].key == k;
    assert forall p :: 0 <= p < |rows| ==> rows[p].key == snap.records[p].key;
    ChangedOwnersExact(snap.records, env', i);
    OwnerAgain(env, k);
  }

  /** What the boot folds is what it must fold: rows whose label would differ. */
  lemma BootFoldsUnderLabels(snap: Snapshot, l: Ledger, env: Env, env': Env)
    requires IsFlush(snap, l, env) && Attributed(env.meta)
    requires Runs.RowsKnown(l.counts, env.meta) && 0 !in env'.meta
    ensures FoldsUnderLabels(l.counts, ByMap(ChangedOwners(snap.records, env')), env, env')
  {
    hide ChangedOwners, ByMap, KnownOwner, RowOwner, IsFlush;
    forall k | k in l.counts
      ensures match ByMap(ChangedOwners(snap.records, env'))(k)
              case Some(o) => o == RowOwner(env, k)
              case None => RowOwner(env', k) == RowOwner(env, k) || l.counts[k].total.count == ZERO
    {
      RowAtBoot(snap, l, env, env', k);
      OwnerAgain(env, k);
      OwnerAgain(env', k);
    }
  }

  lemma OwnerAgain(env: Env, k: FlowKey)
    ensures VMMAC(k) in env.meta ==>
              KnownOwner(env)(k) == Some(RowOwner(env, k)) && RowOwner(env, k).tenant == env.meta[VMMAC(k)].projectId
    ensures VMMAC(k) !in env.meta ==>
              KnownOwner(env)(k) == None && RowOwner(env, k) == Owner(UNKNOWN_TENANT, NO_EXTERNAL_NETWORK, "")
  {
  }

  /** A restart is invisible: whatever ports were deleted or reassigned, routers
      re-gatewayed or MACs learned while the agent was down, every series starts
      again exactly where the flush left it. */
  lemma RestartInvisible(snap: Snapshot, l: Ledger, env: Env, env': Env, s: Series)
    requires IsFlush(snap, l, env) && Attributed(env.meta)
    requires Runs.RowsKnown(l.counts, env.meta) && 0 !in env'.meta
    ensures Value(Restored(snap, env'), env', s) == Value(l, env, s)
  {
    SeedInvertsFlush(snap, l, env);
    hide IsFlush, Value, Settle, Seeded, FoldsUnderLabels;
    BootFoldsUnderLabels(snap, l, env, env');
    FoldIsInvisible(l, SettleRebase, ByMap(ChangedOwners(snap.records, env')), env, env', s);
  }

  /** A rebased row keeps its baseline: the next drain adds to it exactly what it
      would have added to the row before the fold. */
  lemma RebaseKeepsTheBooks(c: Counter, raw: FlowMetrics)
    ensures var kept, rebased := ApplyReading(Some(c), raw), ApplyReading(Some(Rebased(c)), raw);
            && rebased.total.count.Plus(c.total.count) == kept.total.count
            && rebased.lastRaw == kept.lastRaw
  {
  }

  lemma SettleNothing(l: Ledger, mode: SettleMode, resolve: FlowKey -> Option<Owner>)
    requires forall k :: k in l.counts ==> resolve(k) == None
    ensures Settle(l, mode, resolve) == l && Folded(l.counts, resolve) == map[]
  {
    hide GroupFold;
    assert Folded(l.counts, resolve) == map[];
    assert FoldedServers(l.counts, resolve) == map[];
    GroupFoldEmpty(l.tenantSettled, ByTenant(resolve));
    GroupFoldEmpty(l.serverSettled, ByServer(resolve));
    assert SettledCounts(l.counts, mode, resolve) == l.counts;
  }
}
