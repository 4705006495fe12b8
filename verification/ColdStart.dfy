/** Cold start: one snapshot turned into the three kernel maps, write by write. */
module ColdStart {
  import opened Bpf
  import opened Metadata
  import opened Ip
  import opened Interner
  import opened Neutron
  import opened Trie
  import opened TrieBuilder
  import opened KernelWriter
  import opened Classify
  import StaticRoutes
  import TrieOrder

  /** A kernel hash map some of whose keys cannot be written. */
  class KernelHash<K(==), V(==)> {
    var entries: map<K, V>
    var stuck: set<K>

    method Update(k: K, v: V) returns (ok: bool)
      modifies this`entries
      ensures ok <==> k !in stuck
      ensures entries == if ok then old(entries)[k := v] else old(entries)
    {
      ok := k !in stuck;
      if ok {
        entries := entries[k := v];
      }
    }
  }

  /** Ids only gained. */
  ghost predicate IdsGrow(ids: map<string, nat>, ids': map<string, nat>) {
    forall p :: p in ids ==> p in ids' && ids'[p] == ids[p]
  }

  /** Every attributed MAC with its packed value. */
  ghost predicate IsMacPairs(meta: map<Mac, TenantMeta>, todo: set<Mac>, ids: map<string, nat>, pairs: map<Mac, nat>) {
    && (forall m: Mac :: m in pairs <==> m in meta && m !in todo && meta[m].projectId != "")
    && (forall m: Mac :: m in pairs ==>
        meta[m].projectId in ids && pairs[m] == TenantValue(ids[meta[m].projectId], meta[m].isAmphora))
  }

  /** The collecting loop: the whole map is read before the first kernel write. */
  method MacPairs(meta: map<Mac, TenantMeta>, interner: TenantInterner) returns (pairs: map<Mac, nat>)
    requires interner.Valid()
    modifies interner
    ensures interner.Valid() && IdsGrow(old(interner.forward), interner.forward)
    ensures IsMacPairs(meta, {}, interner.forward, pairs)
  {
    pairs := map[];
    var todo := meta.Keys;
    while todo != {}
      invariant todo <= meta.Keys && interner.Valid() && IdsGrow(old(interner.forward), interner.forward)
      invariant IsMacPairs(meta, todo, interner.forward, pairs)
      decreases |todo|
    {
      var m :| m in todo;
      if meta[m].projectId != "" {
        var id := interner.Intern(meta[m].projectId);
        pairs := pairs[m := TenantValue(id, meta[m].isAmphora)];
      }
      todo := todo - {m};
    }
  }

  /** now is before with every pair written but those in todo or stuck. */
  ghost predicate Landed<K(!new), V(!new)>(now: map<K, V>, before: map<K, V>, pairs: map<K, V>, todo: set<K>,
                                           stuck: set<K>) {
    && (forall k :: k in now <==> k in before || (k in pairs && k !in todo && k !in stuck))
    && (forall k :: k in now ==> now[k] == if k in pairs && k !in todo && k !in stuck then pairs[k] else before[k])
  }

  lemma LandedStep<K(!new), V(!new)>(now: map<K, V>, before: map<K, V>, pairs: map<K, V>, todo: set<K>,
                                     stuck: set<K>, k: K)
    requires Landed(now, before, pairs, todo, stuck) && k in todo && k in pairs
    ensures Landed(if k in stuck then now else now[k := pairs[k]], before, pairs, todo - {k}, stuck)
  {
  }

  lemma LandedWhole<K(!new), V(!new)>(now: map<K, V>, pairs: map<K, V>, stuck: set<K>)
    requires Landed(now, map[], pairs, {}, stuck) && !exists k :: k in pairs && k in stuck
    ensures now == pairs
  {
  }

  /** The writing loop, over pairs in any order: a failed write stops nothing. */
  method WriteAll<K(!new, ==), V(!new, ==)>(kernel: KernelHash<K, V>, pairs: map<K, V>)
      returns (written: nat, failed: bool)
    modifies kernel`entries
    ensures failed <==> exists k :: k in pairs && k in kernel.stuck
    ensures written == |pairs.Keys - kernel.stuck|
    ensures Landed(kernel.entries, old(kernel.entries), pairs, {}, kernel.stuck)
  {
    written, failed := 0, false;
    var todo := pairs.Keys;
    ghost var done: set<K> := {};
    assert Landed(kernel.entries, kernel.entries, pairs, todo, kernel.stuck);
    hide Landed;
    while todo != {}
      invariant todo <= pairs.Keys
      invariant forall k :: k in done <==> k in pairs && k !in todo && k !in kernel.stuck
      invariant failed <==> exists k :: k in pairs && k !in todo && k in kernel.stuck
      invariant written == |done|
      invariant Landed(kernel.entries, old(kernel.entries), pairs, todo, kernel.stuck)
      decreases |todo|
    {
      var k :| k in todo;
      LandedStep(kernel.entries, old(kernel.entries), pairs, todo, kernel.stuck, k);
      var ok := kernel.Update(k, pairs[k]);
      if ok {
        written := written + 1;
        done := done + {k};
      } else {
        failed := true;
      }
      todo := todo - {k};
    }
    assert done == pairs.Keys - kernel.stuck;
  }

  /** Every attributed MAC that can be written is, with its tenant's id and marker. */
  method WriteMacTenantMap(kernel: KernelHash<Mac, nat>, meta: map<Mac, TenantMeta>, interner: TenantInterner)
    returns (written: nat, failed: bool, ghost pairs: map<Mac, nat>)
    requires interner.Valid()
    modifies kernel`entries, interner
    ensures interner.Valid() && IdsGrow(old(interner.forward), interner.forward)
    ensures IsMacPairs(meta, {}, interner.forward, pairs)
    ensures failed <==> exists m :: m in pairs && m in kernel.stuck
    ensures written == |pairs.Keys - kernel.stuck|
    ensures Landed(kernel.entries, old(kernel.entries), pairs, {}, kernel.stuck)
    ensures !failed && old(kernel.entries) == map[] ==> kernel.entries == pairs
  {
    hide IsMacPairs, Landed, IdsGrow;
    var ps := MacPairs(meta, interner);
    written, failed := WriteAll(kernel, ps);
    pairs := ps;
    if !failed && old(kernel.entries) == map[] {
      LandedWhole(kernel.entries, ps, kernel.stuck);
    }
  }

  /** The kernel keys of base addresses whose owner has an id. */
  ghost function BaseKeys(ips: seq<BaseIp>, ids: map<string, nat>): set<AmphoraKey> {
    set b | b in ips && b.projectId in ids :: AmphoraKey(ids[b.projectId], b.addr)
  }

  /** How many of the owned addresses can be written, a repeated one counting again. */
  ghost function WritableBases(ips: seq<BaseIp>, ids: map<string, nat>, stuck: set<AmphoraKey>): nat {
    if ips == [] then 0
    else
      var b := ips[|ips| - 1];
      WritableBases(ips[..|ips| - 1], ids, stuck)
      + if b.projectId in ids && AmphoraKey(ids[b.projectId], b.addr) !in stuck then 1 else 0
  }

  ghost predicate OwnersIn(ips: seq<BaseIp>, ids: map<string, nat>) {
    "" !in ids && forall b :: b in ips && b.projectId != "" ==> b.projectId in ids
  }

  /** now is before with every key written but those stuck, failed telling if any is. */
  ghost predicate KeysLanded(now: set<AmphoraKey>, before: set<AmphoraKey>, keys: set<AmphoraKey>,
                             stuck: set<AmphoraKey>, failed: bool) {
    now == before + (keys - stuck) && (failed <==> !(keys !! stuck))
  }

  /** The addresses so far, as the loop has them. */
  ghost predicate Basing(now: set<AmphoraKey>, before: set<AmphoraKey>, ips: seq<BaseIp>, ids: map<string, nat>,
                         stuck: set<AmphoraKey>,
                         written: nat, failed: bool) {
    && OwnersIn(ips, ids) && KeysLanded(now, before, BaseKeys(ips, ids), stuck, failed)
    && written == WritableBases(ips, ids, stuck)
  }

  lemma BasingNone(now: set<AmphoraKey>, ids: map<string, nat>, stuck: set<AmphoraKey>)
    requires "" !in ids
    ensures Basing(now, now, [], ids, stuck, 0, false)
  {
    assert BaseKeys([], ids) == {};
  }

  lemma {:induction false} WritableBasesStable(ips: seq<BaseIp>, ids: map<string, nat>, ids': map<string, nat>,
                                               stuck: set<AmphoraKey>)
    requires OwnersIn(ips, ids) && IdsGrow(ids, ids') && "" !in ids'
    ensures OwnersIn(ips, ids') && BaseKeys(ips, ids') == BaseKeys(ips, ids)
    ensures WritableBases(ips, ids', stuck) == WritableBases(ips, ids, stuck)
  {
    if ips != [] {
      var init := ips[..|ips| - 1];
      assert ips == init + [ips[|ips| - 1]];
      assert OwnersIn(init, ids);
      WritableBasesStable(init, ids, ids', stuck);
    }
    assert forall b :: b in ips && b.projectId in ids' ==> b.projectId in ids && ids'[b.projectId] == ids[b.projectId];
  }

  lemma BaseKeysSnoc(ips: seq<BaseIp>, b: BaseIp, ids: map<string, nat>)
    ensures BaseKeys(ips + [b], ids) ==
            BaseKeys(ips, ids) + if b.projectId in ids then {AmphoraKey(ids[b.projectId], b.addr)} else {}
  {
    var all := ips + [b];
    assert forall c :: c in all <==> c in ips || c == b;
    forall a | a in BaseKeys(ips, ids) ensures a in BaseKeys(all, ids) {
      var c :| c in ips && c.projectId in ids && a == AmphoraKey(ids[c.projectId], c.addr);
      assert c in all;
    }
    assert b in all;
  }

  lemma KeysLandedStep(now: set<AmphoraKey>, before: set<AmphoraKey>, keys: set<AmphoraKey>, stuck: set<AmphoraKey>,
                       failed: bool, k: AmphoraKey)
    requires KeysLanded(now, before, keys, stuck, failed)
    ensures KeysLanded(if k in stuck then now else now + {k}, before, keys + {k}, stuck, failed || k in stuck)
  {
  }

  lemma BasingStep(now: set<AmphoraKey>, before: set<AmphoraKey>, ips: seq<BaseIp>, b: BaseIp, ids: map<string, nat>,
                   ids': map<string, nat>,
                   stuck: set<AmphoraKey>, written: nat, failed: bool)
    requires Basing(now, before, ips, ids, stuck, written, failed) && IdsGrow(ids, ids') && "" !in ids'
    requires b.projectId == "" || b.projectId in ids'
    ensures b.projectId == "" ==> Basing(now, before, ips + [b], ids', stuck, written, failed)
    ensures b.projectId != "" ==>
              var k := AmphoraKey(ids'[b.projectId], b.addr);
              Basing(if k in stuck then now else now + {k}, before, ips + [b], ids', stuck,
                     written + (if k in stuck then 0 else 1), failed || k in stuck)
  {
    hide IdsGrow, BaseKeys, KeysLanded, WritableBases, OwnersIn;
    WritableBasesStable(ips, ids, ids', stuck);
    BaseKeysSnoc(ips, b, ids');
    WritableSnoc(ips, b, ids', stuck);
    if b.projectId != "" {
      KeysLandedStep(now, before, BaseKeys(ips, ids'), stuck, failed, AmphoraKey(ids'[b.projectId], b.addr));
    } else {
      assert BaseKeys(ips, ids') + {} == BaseKeys(ips, ids');
    }
  }

  lemma WritableSnoc(ips: seq<BaseIp>, b: BaseIp, ids: map<string, nat>, stuck: set<AmphoraKey>)
    requires OwnersIn(ips, ids) && (b.projectId == "" || b.projectId in ids)
    ensures OwnersIn(ips + [b], ids)
    ensures WritableBases(ips + [b], ids, stuck) == WritableBases(ips, ids, stuck)
            + if b.projectId != "" && AmphoraKey(ids[b.projectId], b.addr) !in stuck then 1 else 0
  {
    assert (ips + [b])[..|ips|] == ips;
  }

  lemma KeysLandedWhole(now: set<AmphoraKey>, keys: set<AmphoraKey>, stuck: set<AmphoraKey>)
    requires KeysLanded(now, {}, keys, stuck, false)
    ensures now == keys
  {
  }

  /** Every owned base address that can be written is, under its owner's id; nothing
      is ever removed. */
  method WriteAmphoraBaseIPs(kernel: KernelHash<AmphoraKey, bool>, ips: seq<BaseIp>, interner: TenantInterner)
    returns (written: nat, failed: bool)
    requires interner.Valid()
    modifies kernel`entries, interner
    ensures interner.Valid() && IdsGrow(old(interner.forward), interner.forward)
    ensures forall b :: b in ips && b.projectId != "" ==> b.projectId in interner.forward
    ensures KeysLanded(kernel.entries.Keys, old(kernel.entries.Keys), BaseKeys(ips, interner.forward), kernel.stuck,
                       failed)
    ensures written == WritableBases(ips, interner.forward, kernel.stuck)
    ensures !failed && old(kernel.entries) == map[] ==> kernel.entries.Keys == BaseKeys(ips, interner.forward)
  {
    hide BaseKeys, KeysLanded, WritableBases;
    written, failed := 0, false;
    var i := 0;
    BasingNone(kernel.entries.Keys, interner.forward, kernel.stuck);
    while i < |ips|
      invariant 0 <= i <= |ips| && interner.Valid() && IdsGrow(old(interner.forward), interner.forward)
      invariant Basing(kernel.entries.Keys, old(kernel.entries.Keys), ips[..i], interner.forward, kernel.stuck,
                       written, failed)
    {
      hide Basing;
      written, failed := WriteOne(kernel, old(kernel.entries.Keys), ips[..i], ips[i], interner, written, failed);
      assert ips[..i + 1] == ips[..i] + [ips[i]];
      i := i + 1;
    }
    assert ips[..i] == ips;
    if !failed && old(kernel.entries) == map[] {
      assert old(kernel.entries.Keys) == {};
      KeysLandedWhole(kernel.entries.Keys, BaseKeys(ips, interner.forward), kernel.stuck);
    }
  }

  /** The loop body for one address. */
  method WriteOne(kernel: KernelHash<AmphoraKey, bool>, ghost before: set<AmphoraKey>, ghost done: seq<BaseIp>,
                  b: BaseIp, interner: TenantInterner,
                  written0: nat, failed0: bool)
    returns (written: nat, failed: bool)
    requires interner.Valid() && Basing(kernel.entries.Keys, before, done, interner.forward, kernel.stuck, written0,
                                        failed0)
    modifies kernel`entries, interner
    ensures interner.Valid() && IdsGrow(old(interner.forward), interner.forward)
    ensures Basing(kernel.entries.Keys, before, done + [b], interner.forward, kernel.stuck, written, failed)
  {
    hide Basing;
    written, failed := written0, failed0;
    ghost var ids, keys0 := interner.forward, kernel.entries.Keys;
    if b.projectId == "" {
      BasingStep(keys0, before, done, b, ids, ids, kernel.stuck, written0, failed0);
      return;
    }
    var id := interner.Intern(b.projectId);
    BasingStep(keys0, before, done, b, ids, interner.forward, kernel.stuck, written0, failed0);
    var ok := kernel.Update(AmphoraKey(id, b.addr), true);
    if ok {
      assert kernel.entries.Keys == keys0 + {AmphoraKey(id, b.addr)};
      written := written + 1;
    } else {
      failed := true;
    }
  }

  /** The whole cold start over empty kernel maps: if no write failed, the maps are
      written from the snapshot in the sense every classification result assumes. */
  method PushSnapshot(snap: Snapshot, maxHops: int, macs: KernelHash<Mac, nat>, trie: KernelTrie,
                      amphora: KernelHash<AmphoraKey, bool>, interner: TenantInterner)
    returns (failed: bool, ghost byPort: map<string, string>, ghost desired: map<Mac, TenantMeta>,
             ghost ips: seq<BaseIp>, ghost entries: seq<TrieEntry>)
    requires interner.Valid() && macs.entries == map[] && trie.rows == map[] && amphora.entries == map[]
    modifies macs`entries, trie`rows, trie`history, amphora`entries, interner
    ensures forall id :: id in byPort ==> ServesFor(snap, id, byPort[id]) && byPort[id] != ""
    ensures IsDesired(snap, byPort, desired)
    ensures forall b :: b in ips <==> IsBaseIp(snap, byPort, b)
    ensures forall e :: e in entries <==> IsRow(snap, StaticRoutes.NewIndex(snap, maxHops), e)
    ensures TrieOrder.Sorted(entries)
    ensures macs.stuck == {} && trie.stuck == {} && amphora.stuck == {} ==> !failed
    ensures !failed ==>
              WrittenFrom(KernelMaps(macs.entries, amphora.entries.Keys, trie.rows), desired, ips, entries,
                          interner.forward)
  {
    hide IsDesired, IsBaseIp, IsRow, ServesFor, RowsOf, BaseKeys, OnAmphora, HasMgmtIp;
    var owners := AmphoraOwnerByPort(snap);
    var metas := DesiredMACs(snap, owners);
    var bases := AmphoraBaseIPs(snap, owners);
    var builder := new Builder(snap, maxHops);
    builder.BuildTrie();
    byPort, desired, ips, entries := owners, metas, bases, builder.entries;
    var rows := builder.entries;
    failed := PushAll(metas, rows, bases, macs, trie, amphora, interner);
  }

  /** The three writers in turn; each failure ends the cold start. */
  method PushAll(metas: map<Mac, TenantMeta>, rows: seq<TrieEntry>, bases: seq<BaseIp>, macs: KernelHash<Mac, nat>,
                 trie: KernelTrie,
                 amphora: KernelHash<AmphoraKey, bool>, interner: TenantInterner) returns (failed: bool)
    requires interner.Valid() && macs.entries == map[] && trie.rows == map[] && amphora.entries == map[]
    modifies macs`entries, trie`rows, trie`history, amphora`entries, interner
    ensures macs.stuck == {} && trie.stuck == {} && amphora.stuck == {} ==> !failed
    ensures !failed ==>
              WrittenFrom(KernelMaps(macs.entries, amphora.entries.Keys, trie.rows), metas, bases, rows,
                          interner.forward)
  {
    hide BaseKeys, RowsOf, WrittenFrom, IsMacPairs, GoodIds, Landed;
    var n, macFailed, pairs := WriteMacTenantMap(macs, metas, interner);
    if macFailed { return true; }
    ghost var ids1 := interner.forward;
    var m, trieFailed := WriteSubnetZoneTrie(trie, rows, interner);
    if trieFailed { return true; }
    ghost var ids2 := interner.forward;
    var a, baseFailed := WriteAmphoraBaseIPs(amphora, bases, interner);
    if baseFailed { return true; }
    RowsOfStable(rows, ids2, interner.forward);
    ValidIsGood(interner);
    AllWritten(metas, bases, rows, ids1, interner.forward, macs.entries, amphora.entries);
    return false;
  }

  lemma AllWritten(metas: map<Mac, TenantMeta>, bases: seq<BaseIp>, rows: seq<TrieEntry>, ids1: map<string, nat>,
                   ids: map<string, nat>,
                   macs: map<Mac, nat>, amphora: map<AmphoraKey, bool>)
    requires IsMacPairs(metas, {}, ids1, macs) && IdsGrow(ids1, ids) && GoodIds(ids) && Interned(rows, ids)
    requires forall b :: b in bases && b.projectId != "" ==> b.projectId in ids
    requires amphora.Keys == BaseKeys(bases, ids)
    ensures WrittenFrom(KernelMaps(macs, amphora.Keys, RowsOf(rows, ids)), metas, bases, rows, ids)
  {
    hide RowsOf, TenantValue, GoodIds, Interned;
  }
}
