/** The writers over the kernel trie: the whole-map write of cold start and the
    incremental pass of every reconcile. */
module KernelWriter {
  import opened Bpf
  import opened Interner
  import opened Trie

  class KernelTrie {
    var rows: Rows
    /** Rows whose writes and deletes currently fail. */
    var stuck: set<RowKey>
    /** The map after every single write or delete. */
    ghost var history: seq<Rows>

    method Update(k: RowKey, zone: ZoneCode) returns (ok: bool)
      modifies this`rows, this`history
      ensures ok <==> k !in stuck
      ensures rows == if ok then old(rows)[k := zone] else old(rows)
      ensures history == old(history) + [rows]
    {
      ok := k !in stuck;
      if ok {
        rows := rows[k := zone];
      }
      history := history + [rows];
    }

    /** Deleting an absent row is an error. */
    method Delete(k: RowKey) returns (ok: bool)
      modifies this`rows, this`history
      ensures ok <==> k !in stuck && k in old(rows)
      ensures rows == if ok then old(rows) - {k} else old(rows)
      ensures history == old(history) + [rows]
    {
      ok := k !in stuck && k in rows;
      if ok {
        rows := rows - {k};
      }
      history := history + [rows];
    }
  }

  datatype TrieDelta = TrieDelta(added: nat, changed: nat, removed: nat)

  /** More ids never change the rows already keyed. */
  lemma {:induction false} RowsOfStable(entries: seq<TrieEntry>, ids: map<string, nat>, ids': map<string, nat>)
    requires Interned(entries, ids)
    requires forall p :: p in ids ==> p in ids' && ids'[p] == ids[p]
    ensures Interned(entries, ids') && RowsOf(entries, ids') == RowsOf(entries, ids)
  {
    if entries != [] {
      RowsOfStable(entries[..|entries| - 1], ids, ids');
    }
  }

  /** The index loops of ApplyTrieDelta: rows by identity, tenants interned. */
  method IndexRows(entries: seq<TrieEntry>, interner: TenantInterner) returns (rows: Rows)
    requires interner.Valid()
    modifies interner
    ensures interner.Valid()
    ensures forall p :: p in old(interner.forward) ==>
              p in interner.forward && interner.forward[p] == old(interner.forward)[p]
    ensures Interned(entries, interner.forward) && rows == RowsOf(entries, interner.forward)
  {
    hide RowsOf;
    rows := map[];
    var i := 0;
    RowsOfNone(interner.forward);
    while i < |entries|
      invariant 0 <= i <= |entries| && interner.Valid()
      invariant forall p :: p in old(interner.forward) ==>
                  p in interner.forward && interner.forward[p] == old(interner.forward)[p]
      invariant Interned(entries[..i], interner.forward) && rows == RowsOf(entries[..i], interner.forward)
    {
      var e := entries[i];
      ghost var ids := interner.forward;
      var id := interner.Intern(e.tenantId);
      RowsOfStable(entries[..i], ids, interner.forward);
      RowsOfSnoc(entries[..i], e, interner.forward);
      assert entries[..i + 1] == entries[..i] + [e];
      rows := rows[RowKey(id, e.prefix) := e.zone];
      i := i + 1;
    }
    assert entries[..i] == entries;
  }

  lemma RowsOfNone(ids: map<string, nat>)
    ensures RowsOf([], ids) == map[]
  {
  }

  lemma RowsOfSnoc(entries: seq<TrieEntry>, e: TrieEntry, ids: map<string, nat>)
    requires Interned(entries, ids) && (e.tenantId == "" || e.tenantId in ids)
    ensures Interned(entries + [e], ids)
    ensures RowsOf(entries + [e], ids) == RowsOf(entries, ids)[KeyOf(e, ids) := e.zone]
  {
    assert (entries + [e])[..|entries|] == entries;
  }

  /** Rows written in order over rows0, those stuck left out. */
  ghost function WrittenOver(rows0: Rows, entries: seq<TrieEntry>, ids: map<string, nat>, stuck: set<RowKey>): Rows
    requires Interned(entries, ids)
  {
    if entries == [] then rows0
    else
      var e := entries[|entries| - 1];
      var prev := WrittenOver(rows0, entries[..|entries| - 1], ids, stuck);
      if KeyOf(e, ids) in stuck then prev else prev[KeyOf(e, ids) := e.zone]
  }

  /** How many of the rows can be written. */
  ghost function Writable(entries: seq<TrieEntry>, ids: map<string, nat>, stuck: set<RowKey>): nat
    requires Interned(entries, ids)
  {
    if entries == [] then 0
    else
      var e := entries[|entries| - 1];
      Writable(entries[..|entries| - 1], ids, stuck) + if KeyOf(e, ids) in stuck then 0 else 1
  }

  lemma {:induction false} WrittenOverStable(rows0: Rows, entries: seq<TrieEntry>, ids: map<string, nat>,
                                             ids': map<string, nat>, stuck: set<RowKey>)
    requires Interned(entries, ids)
    requires forall p :: p in ids ==> p in ids' && ids'[p] == ids[p]
    ensures Interned(entries, ids')
    ensures WrittenOver(rows0, entries, ids', stuck) == WrittenOver(rows0, entries, ids, stuck)
    ensures Writable(entries, ids', stuck) == Writable(entries, ids, stuck)
  {
    if entries != [] {
      WrittenOverStable(rows0, entries[..|entries| - 1], ids, ids', stuck);
    }
  }

  lemma WrittenOverSnoc(rows0: Rows, entries: seq<TrieEntry>, e: TrieEntry, ids: map<string, nat>, stuck: set<RowKey>)
    requires Interned(entries, ids) && (e.tenantId == "" || e.tenantId in ids)
    ensures Interned(entries + [e], ids)
    ensures var prev, k := WrittenOver(rows0, entries, ids, stuck), KeyOf(e, ids);
            WrittenOver(rows0, entries + [e], ids, stuck) == if k in stuck then prev else prev[k := e.zone]
    ensures Writable(entries + [e], ids, stuck) == Writable(entries, ids, stuck) + if KeyOf(e, ids) in stuck then 0
            else 1
  {
    assert (entries + [e])[..|entries|] == entries;
  }

  /** With nothing stuck and an empty map, every row is there and counted. */
  lemma {:induction false} WrittenWhole(entries: seq<TrieEntry>, ids: map<string, nat>, stuck: set<RowKey>)
    requires Interned(entries, ids)
    requires forall i :: 0 <= i < |entries| ==> KeyOf(entries[i], ids) !in stuck
    ensures WrittenOver(map[], entries, ids, stuck) == RowsOf(entries, ids)
            && Writable(entries, ids, stuck) == |entries|
  {
    if entries != [] {
      var init := entries[..|entries| - 1];
      assert forall i :: 0 <= i < |init| ==> init[i] == entries[i];
      WrittenWhole(init, ids, stuck);
    }
  }

  /** The rows so far, as the cold-start loop has them. */
  ghost predicate Writing(rows: Rows, rows0: Rows, entries: seq<TrieEntry>, ids: map<string, nat>,
                          stuck: set<RowKey>, written: nat, failed: bool) {
    && Interned(entries, ids)
    && rows == WrittenOver(rows0, entries, ids, stuck) && written == Writable(entries, ids, stuck)
    && (failed <==> exists j :: 0 <= j < |entries| && KeyOf(entries[j], ids) in stuck)
  }

  lemma WritingStep(rows: Rows, rows0: Rows, entries: seq<TrieEntry>, e: TrieEntry, ids: map<string, nat>,
                    ids': map<string, nat>,
                    stuck: set<RowKey>, written: nat, failed: bool)
    requires Writing(rows, rows0, entries, ids, stuck, written, failed)
    requires (forall p :: p in ids ==> p in ids' && ids'[p] == ids[p]) && (e.tenantId == "" || e.tenantId in ids')
    ensures var k := KeyOf(e, ids');
            Writing(if k in stuck then rows else rows[k := e.zone], rows0, entries + [e], ids', stuck,
                    written + (if k in stuck then 0 else 1), failed || k in stuck)
  {
    WrittenOverStable(rows0, entries, ids, ids', stuck);
    WrittenOverSnoc(rows0, entries, e, ids', stuck);
    var all, k := entries + [e], KeyOf(e, ids');
    assert all[|entries|] == e;
    assert forall j :: 0 <= j < |entries| ==> all[j] == entries[j] && KeyOf(all[j], ids') == KeyOf(entries[j], ids);
    hide WrittenOver, Writable;
  }

  lemma WritingNone(rows: Rows, ids: map<string, nat>, stuck: set<RowKey>)
    ensures Writing(rows, rows, [], ids, stuck, 0, false)
  {
  }

  /** The cold-start writer: rows written one by one over whatever the map holds, a
      failed write stopping nothing. */
  method WriteSubnetZoneTrie(trie: KernelTrie, entries: seq<TrieEntry>, interner: TenantInterner)
      returns (written: nat, failed: bool)
    requires interner.Valid()
    modifies trie`rows, trie`history, interner
    ensures interner.Valid()
    ensures forall p :: p in old(interner.forward) ==>
              p in interner.forward && interner.forward[p] == old(interner.forward)[p]
    ensures Interned(entries, interner.forward)
    ensures failed <==> exists i :: 0 <= i < |entries| && KeyOf(entries[i], interner.forward) in trie.stuck
    ensures trie.rows == WrittenOver(old(trie.rows), entries, interner.forward, trie.stuck)
    ensures written == Writable(entries, interner.forward, trie.stuck)
    ensures !failed ==> written == |entries|
    ensures !failed && old(trie.rows) == map[] ==> trie.rows == RowsOf(entries, interner.forward)
  {
    written, failed := 0, false;
    var i := 0;
    WritingNone(trie.rows, interner.forward, trie.stuck);
    hide Writing;
    while i < |entries|
      invariant 0 <= i <= |entries| && interner.Valid()
      invariant forall p :: p in old(interner.forward) ==>
                  p in interner.forward && interner.forward[p] == old(interner.forward)[p]
      invariant Writing(trie.rows, old(trie.rows), entries[..i], interner.forward, trie.stuck, written, failed)
    {
      var e := entries[i];
      ghost var ids := interner.forward;
      var id := interner.Intern(e.tenantId);
      WritingStep(trie.rows, old(trie.rows), entries[..i], e, ids, interner.forward, trie.stuck, written, failed);
      assert entries[..i + 1] == entries[..i] + [e];
      assert KeyOf(e, interner.forward) == RowKey(id, e.prefix);
      var ok := trie.Update(RowKey(id, e.prefix), e.zone);
      if ok {
        written := written + 1;
      } else {
        failed := true;
      }
      i := i + 1;
    }
    assert entries[..i] == entries;
    WritingDone(trie.rows, old(trie.rows), entries, interner.forward, trie.stuck, written, failed);
  }

  lemma WritingDone(rows: Rows, rows0: Rows, entries: seq<TrieEntry>, ids: map<string, nat>, stuck: set<RowKey>,
                    written: nat, failed: bool)
    requires Writing(rows, rows0, entries, ids, stuck, written, failed)
    ensures Interned(entries, ids)
    ensures failed <==> exists i :: 0 <= i < |entries| && KeyOf(entries[i], ids) in stuck
    ensures rows == WrittenOver(rows0, entries, ids, stuck) && written == Writable(entries, ids, stuck)
    ensures !failed ==> written == |entries|
    ensures !failed && rows0 == map[] ==> rows == RowsOf(entries, ids)
  {
    hide WrittenOver, Writable, RowsOf;
    if !failed {
      WrittenWhole(entries, ids, stuck);
    }
  }

  /** A kernel state some way through the upserts. */
  ghost predicate MidUpsert(rows0: Rows, o: Rows, n: Rows, k: Rows) {
    && rows0.Keys <= k.Keys
    && forall r :: r in k ==> (r in rows0 && k[r] == rows0[r]) || (r in Upserts(o, n) && k[r] == n[r])
  }

  /** A kernel state some way through the deletes, all upserts done. */
  ghost predicate MidDelete(rows0: Rows, o: Rows, n: Rows, k: Rows) {
    && Upserts(o, n) <= k.Keys && rows0.Keys - Gone(o, n) <= k.Keys
    && forall r :: r in k ==> (r in Upserts(o, n) && k[r] == n[r]) || (r in rows0 && k[r] == rows0[r])
  }

  ghost predicate Midway(rows0: Rows, o: Rows, n: Rows, k: Rows) {
    MidUpsert(rows0, o, n, k) || MidDelete(rows0, o, n, k)
  }

  /** From a kernel between the committed and the new rows, as the committed rows
      themselves are and as any failed pass leaves it, every state midway lies
      between them too: a first pass and all its retries are safe at every write. */
  lemma MidwayIsBetween(rows0: Rows, o: Rows, n: Rows, k: Rows)
    requires Between(rows0, o, n) && Midway(rows0, o, n, k)
    ensures Between(k, o, n)
  {
    if MidDelete(rows0, o, n, k) && !MidUpsert(rows0, o, n, k) {
      forall r | r in n
        ensures r in k
      {
        assert r in Upserts(o, n) || r in rows0.Keys - Gone(o, n);
      }
    }
  }

  /** Phase 1: every upsert, whatever failed before it. */
  method UpsertAll(trie: KernelTrie, o: Rows, n: Rows) returns (added: set<RowKey>, changed: set<RowKey>, failed: bool)
    modifies trie`rows, trie`history
    ensures trie.rows == Upserted(old(trie.rows), n, Upserts(o, n) - trie.stuck)
    ensures failed <==> !(Upserts(o, n) !! trie.stuck)
    ensures added == Upserts(o, n) - trie.stuck - o.Keys && changed == (Upserts(o, n) - trie.stuck) * o.Keys
    ensures old(trie.history) <= trie.history
    ensures forall i :: |old(trie.history)| <= i < |trie.history| ==> MidUpsert(old(trie.rows), o, n, trie.history[i])
  {
    hide Upserting, Upserts, Upserted, MidUpsert;
    ghost var rows0, history0 := trie.rows, trie.history;
    added, changed, failed := {}, {}, false;
    var todo := n.Keys;
    UpsertingStart(trie, o, n);
    while todo != {}
      invariant todo <= n.Keys
      invariant Upserting(trie, rows0, history0, o, n, todo, added, changed, failed)
      decreases |todo|
    {
      var k :| k in todo;
      added, changed, failed := UpsertNext(trie, rows0, history0, o, n, todo, k, added, changed, failed);
      todo := todo - {k};
    }
    UpsertingEnd(trie, rows0, history0, o, n, added, changed, failed);
  }

  lemma UpsertingStart(trie: KernelTrie, o: Rows, n: Rows)
    ensures Upserting(trie, trie.rows, trie.history, o, n, n.Keys, {}, {}, false)
  {
  }

  lemma UpsertingEnd(trie: KernelTrie, rows0: Rows, history0: seq<Rows>, o: Rows, n: Rows, added: set<RowKey>,
                     changed: set<RowKey>, failed: bool)
    requires Upserting(trie, rows0, history0, o, n, {}, added, changed, failed)
    ensures trie.rows == Upserted(rows0, n, Upserts(o, n) - trie.stuck)
    ensures failed <==> !(Upserts(o, n) !! trie.stuck)
    ensures added == Upserts(o, n) - trie.stuck - o.Keys && changed == (Upserts(o, n) - trie.stuck) * o.Keys
    ensures history0 <= trie.history
    ensures forall i :: |history0| <= i < |trie.history| ==> MidUpsert(rows0, o, n, trie.history[i])
  {
    hide Upserted, MidUpsert;
    UpsertsSplit(o, n, added, changed, trie.stuck);
  }

  /** Phase 1 with the new rows in todo still to visit. */
  ghost predicate Upserting(trie: KernelTrie, rows0: Rows, history0: seq<Rows>, o: Rows, n: Rows, todo: set<RowKey>,
                            added: set<RowKey>, changed: set<RowKey>, failed: bool)
    reads trie
  {
    && todo <= n.Keys && added + changed <= n.Keys
    && trie.rows == Upserted(rows0, n, added + changed)
    && (forall k :: k in added <==> k in n && k !in todo && k !in trie.stuck && k !in o)
    && (forall k :: k in changed <==> k in n && k !in todo && k !in trie.stuck && k in o && o[k] != n[k])
    && (failed <==> exists k :: k in n && k !in todo && k in trie.stuck && !(k in o && o[k] == n[k]))
    && history0 <= trie.history
    && forall i :: |history0| <= i < |trie.history| ==> MidUpsert(rows0, o, n, trie.history[i])
  }

  method UpsertNext(trie: KernelTrie, ghost rows0: Rows, ghost history0: seq<Rows>, o: Rows, n: Rows,
                    ghost todo: set<RowKey>, k: RowKey,
                    added0: set<RowKey>, changed0: set<RowKey>, failed0: bool)
    returns (added: set<RowKey>, changed: set<RowKey>, failed: bool)
    requires k in todo && k in n && Upserting(trie, rows0, history0, o, n, todo, added0, changed0, failed0)
    modifies trie`rows, trie`history
    ensures Upserting(trie, rows0, history0, o, n, todo - {k}, added, changed, failed)
  {
    hide Upserted, MidUpsert;
    added, changed, failed := added0, changed0, failed0;
    if !(k in o && o[k] == n[k]) {
      UpsertedStep(rows0, o, n, added + changed, k);
      var ok := trie.Update(k, n[k]);
      if !ok {
        failed := true;
      } else if k in o {
        assert added + (changed + {k}) == (added + changed) + {k};
        changed := changed + {k};
      } else {
        assert (added + {k}) + changed == (added + changed) + {k};
        added := added + {k};
      }
    }
  }

  lemma UpsertsSplit(o: Rows, n: Rows, added: set<RowKey>, changed: set<RowKey>, stuck: set<RowKey>)
    requires forall k :: k in added <==> k in n && k !in stuck && k !in o
    requires forall k :: k in changed <==> k in n && k !in stuck && k in o && o[k] != n[k]
    ensures added + changed == Upserts(o, n) - stuck
    ensures added == Upserts(o, n) - stuck - o.Keys && changed == (Upserts(o, n) - stuck) * o.Keys
    ensures !(Upserts(o, n) !! stuck) <==> exists k :: k in n && k in stuck && !(k in o && o[k] == n[k])
  {
  }

  /** One more upsert landing or failing, both leave a state midway. */
  lemma UpsertedStep(rows: Rows, o: Rows, n: Rows, s: set<RowKey>, k: RowKey)
    requires s <= n.Keys && k in n && !(k in o && o[k] == n[k])
    requires forall r :: r in s ==> !(r in o && o[r] == n[r])
    ensures Upserted(rows, n, s + {k}) == Upserted(rows, n, s)[k := n[k]]
    ensures MidUpsert(rows, o, n, Upserted(rows, n, s)) && MidUpsert(rows, o, n, Upserted(rows, n, s + {k}))
  {
  }

  /** Phase 2: every row that is no longer wanted. */
  method DeleteGone(trie: KernelTrie, o: Rows, n: Rows, ghost rows0: Rows) returns (removed: set<RowKey>, failed: bool)
    requires trie.rows == Upserted(rows0, n, Upserts(o, n))
    modifies trie`rows, trie`history
    ensures trie.rows == old(trie.rows) - (Gone(o, n) - trie.stuck)
    ensures removed == (Gone(o, n) - trie.stuck) * rows0.Keys
    ensures failed <==> exists k :: k in Gone(o, n) && (k in trie.stuck || k !in rows0)
    ensures old(trie.history) <= trie.history
    ensures forall i :: |old(trie.history)| <= i < |trie.history| ==> MidDelete(rows0, o, n, trie.history[i])
  {
    hide Deleting, MidDelete, Upserted;
    ghost var up, history0 := trie.rows, trie.history;
    removed, failed := {}, false;
    var todo := o.Keys;
    ghost var gone: set<RowKey> := {};
    DeletingStart(trie, rows0, o, n);
    while todo != {}
      invariant todo <= o.Keys
      invariant Deleting(trie, rows0, up, history0, o, n, todo, gone, removed, failed)
      decreases |todo|
    {
      var k :| k in todo;
      gone, removed, failed := DeleteNext(trie, rows0, up, history0, o, n, todo, k, gone, removed, failed);
      todo := todo - {k};
    }
    DeletingEnd(trie, rows0, up, history0, o, n, gone, removed, failed);
  }

  lemma DeletingStart(trie: KernelTrie, rows0: Rows, o: Rows, n: Rows)
    ensures Deleting(trie, rows0, trie.rows, trie.history, o, n, o.Keys, {}, {}, false)
  {
  }

  lemma DeletingEnd(trie: KernelTrie, rows0: Rows, up: Rows, history0: seq<Rows>, o: Rows, n: Rows,
                    gone: set<RowKey>, removed: set<RowKey>, failed: bool)
    requires Deleting(trie, rows0, up, history0, o, n, {}, gone, removed, failed)
    ensures trie.rows == up - (Gone(o, n) - trie.stuck)
    ensures removed == (Gone(o, n) - trie.stuck) * rows0.Keys
    ensures failed <==> exists k :: k in Gone(o, n) && (k in trie.stuck || k !in rows0)
    ensures history0 <= trie.history
    ensures forall i :: |history0| <= i < |trie.history| ==> MidDelete(rows0, o, n, trie.history[i])
  {
  }

  /** Phase 2 with the old rows in todo still to visit. */
  ghost predicate Deleting(trie: KernelTrie, rows0: Rows, up: Rows, history0: seq<Rows>, o: Rows, n: Rows,
                           todo: set<RowKey>,
                           gone: set<RowKey>, removed: set<RowKey>, failed: bool)
    reads trie
  {
    && todo <= o.Keys && trie.rows == up - gone
    && (forall k :: k in gone <==> k in o && k !in todo && k !in n && k !in trie.stuck)
    && (forall k :: k in removed <==> k in gone && k in rows0)
    && (failed <==> exists k :: k in o && k !in todo && k !in n && (k in trie.stuck || k !in rows0))
    && history0 <= trie.history
    && forall i :: |history0| <= i < |trie.history| ==> MidDelete(rows0, o, n, trie.history[i])
  }

  method DeleteNext(trie: KernelTrie, ghost rows0: Rows, ghost up: Rows, ghost history0: seq<Rows>, o: Rows, n: Rows,
                    ghost todo: set<RowKey>, k: RowKey, ghost gone0: set<RowKey>, removed0: set<RowKey>, failed0: bool)
    returns (ghost gone: set<RowKey>, removed: set<RowKey>, failed: bool)
    requires up == Upserted(rows0, n, Upserts(o, n)) && k in todo && k in o
    requires Deleting(trie, rows0, up, history0, o, n, todo, gone0, removed0, failed0)
    modifies trie`rows, trie`history
    ensures Deleting(trie, rows0, up, history0, o, n, todo - {k}, gone, removed, failed)
  {
    hide MidDelete, Upserted;
    gone, removed, failed := gone0, removed0, failed0;
    if k !in n {
      DeletedIsMid(rows0, o, n, gone, k);
      var ok := trie.Delete(k);
      if ok {
        removed := removed + {k};
      } else {
        failed := true;
      }
      if k !in trie.stuck {
        gone := gone + {k};
      }
      assert trie.rows == up - gone;
    }
  }

  lemma DeletedIsMid(rows: Rows, o: Rows, n: Rows, s: set<RowKey>, k: RowKey)
    requires s <= Gone(o, n) && k in o && k !in n && k !in s
    ensures var up := Upserted(rows, n, Upserts(o, n));
            && (k in up - s <==> k in rows)
            && MidDelete(rows, o, n, up - s) && MidDelete(rows, o, n, up - (s + {k}))
  {
  }

  /** ApplyTrieDelta: all upserts, then, unless one failed, all deletes. */
  method ApplyTrieDelta(trie: KernelTrie, oldEntries: seq<TrieEntry>, newEntries: seq<TrieEntry>,
                        interner: TenantInterner)
    returns (delta: TrieDelta, failed: bool)
    requires interner.Valid()
    modifies trie`rows, trie`history, interner
    ensures interner.Valid()
    ensures Interned(oldEntries, interner.forward) && Interned(newEntries, interner.forward)
    ensures var o, n := RowsOf(oldEntries, interner.forward), RowsOf(newEntries, interner.forward);
            && trie.rows == AfterDelta(old(trie.rows), o, n, trie.stuck)
            && failed == DeltaFails(old(trie.rows), o, n, trie.stuck)
            && delta == TrieDelta(|Upserts(o, n) - trie.stuck - o.Keys|, |(Upserts(o, n) - trie.stuck) * o.Keys|,
                                  if Upserts(o, n) !! trie.stuck
                                      then |(Gone(o, n) - trie.stuck) * old(trie.rows.Keys)| else 0)
            && old(trie.history) <= trie.history
            && forall i :: |old(trie.history)| <= i < |trie.history| ==> Midway(old(trie.rows), o, n, trie.history[i])
  {
    hide RowsOf, AfterDelta, DeltaFails, Midway, Upserts, Gone;
    var n := IndexRows(newEntries, interner);
    ghost var ids := interner.forward;
    var o := IndexRows(oldEntries, interner);
    RowsOfStable(newEntries, ids, interner.forward);
    delta, failed := ApplyRows(trie, o, n);
  }

  /** The two phases over indexed rows. */
  method ApplyRows(trie: KernelTrie, o: Rows, n: Rows) returns (delta: TrieDelta, failed: bool)
    modifies trie`rows, trie`history
    ensures trie.rows == AfterDelta(old(trie.rows), o, n, trie.stuck)
    ensures failed == DeltaFails(old(trie.rows), o, n, trie.stuck)
    ensures delta == TrieDelta(|Upserts(o, n) - trie.stuck - o.Keys|, |(Upserts(o, n) - trie.stuck) * o.Keys|,
                               if Upserts(o, n) !! trie.stuck then |(Gone(o, n) - trie.stuck) * old(trie.rows.Keys)|
                                   else 0)
    ensures old(trie.history) <= trie.history
    ensures forall i :: |old(trie.history)| <= i < |trie.history| ==> Midway(old(trie.rows), o, n, trie.history[i])
  {
    hide MidUpsert, MidDelete, Upserted, Upserts, Gone, AfterDelta, DeltaFails;
    ghost var rows0 := trie.rows;
    DeltaShape(rows0, o, n, trie.stuck);
    var added, changed, upsertFailed := UpsertAll(trie, o, n);
    if upsertFailed {
      return TrieDelta(|added|, |changed|, 0), true;
    }
    var removed, deleteFailed := DeleteGone(trie, o, n, rows0);
    return TrieDelta(|added|, |changed|, |removed|), deleteFailed;
  }

  /** A pass by phases. */
  lemma DeltaShape(rows: Rows, o: Rows, n: Rows, stuck: set<RowKey>)
    ensures !(Upserts(o, n) !! stuck) ==>
              DeltaFails(rows, o, n, stuck) && AfterDelta(rows, o, n, stuck) == Upserted(rows, n, Upserts(o, n) - stuck)
    ensures Upserts(o, n) !! stuck ==>
              && Upserts(o, n) - stuck == Upserts(o, n)
              && AfterDelta(rows, o, n, stuck) == Upserted(rows, n, Upserts(o, n)) - (Gone(o, n) - stuck)
              && (DeltaFails(rows, o, n, stuck) <==> exists k :: k in Gone(o, n) && (k in stuck || k !in rows))
  {
    assert Upserts(o, n) !! stuck ==> Upserts(o, n) - stuck == Upserts(o, n);
  }
}
