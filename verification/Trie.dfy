/** The kernel's longest-prefix trie, the full write and the incremental update. */
module Trie {
  import opened Bpf
  import opened Options
  import opened Ip
  import opened Interner

  /** One row's identity: interned tenant (0 for the global rows) and prefix. */
  datatype RowKey = RowKey(tid: nat, prefix: Prefix)

  type Rows = map<RowKey, ZoneCode>

  datatype TrieEntry = TrieEntry(tenantId: string, prefix: Prefix, zone: ZoneCode)

  // ---------------------------------------------------------------------
  // Longest-prefix lookup over one tenant's rows
  // ---------------------------------------------------------------------

  datatype Match = Match(bits: nat, zone: ZoneCode)

  /** The trie walk: the longest stored prefix of at most bits that holds a. */
  function LookupFrom(rows: Rows, tid: nat, a: Addr, bits: nat): Option<Match>
    requires bits <= 32
  {
    var k := RowKey(tid, MaskTo(a, bits));
    if k in rows then Some(Match(bits, rows[k]))
    else if bits == 0 then None
    else LookupFrom(rows, tid, a, bits - 1)
  }

  function Lookup(rows: Rows, tid: nat, a: Addr): Option<Match> { LookupFrom(rows, tid, a, 32) }

  ghost predicate AllMasked(rows: Rows) { forall k :: k in rows ==> IsMasked(k.prefix) }

  /** k is a row of tid that holds a. */
  ghost predicate Holds(rows: Rows, tid: nat, a: Addr, k: RowKey) {
    k in rows && k.tid == tid && Contains(k.prefix, a)
  }

  /** The walk finds a row exactly if one holds the address, and then the longest. */
  lemma LookupIsLongest(rows: Rows, tid: nat, a: Addr)
    requires AllMasked(rows)
    ensures Lookup(rows, tid, a).None? <==> forall k :: !Holds(rows, tid, a, k)
    ensures Lookup(rows, tid, a).Some? ==>
              var m := Lookup(rows, tid, a).value;
              && m.bits <= 32
              && Holds(rows, tid, a, RowKey(tid, MaskTo(a, m.bits))) && rows[RowKey(tid, MaskTo(a, m.bits))] == m.zone
              && forall k :: Holds(rows, tid, a, k) ==> k.prefix.bits <= m.bits
  {
    LookupFromIsLongest(rows, tid, a, 32);
  }

  lemma {:induction false} LookupFromIsLongest(rows: Rows, tid: nat, a: Addr, bits: nat)
    requires AllMasked(rows) && bits <= 32
    ensures var r := LookupFrom(rows, tid, a, bits);
            && (r.None? <==> forall k :: Holds(rows, tid, a, k) ==> k.prefix.bits > bits)
            && (r.Some? ==>
                  && r.value.bits <= bits
                  && Holds(rows, tid, a, RowKey(tid, MaskTo(a, r.value.bits)))
                  && rows[RowKey(tid, MaskTo(a, r.value.bits))] == r.value.zone
                  && forall k :: Holds(rows, tid, a, k) && k.prefix.bits <= bits ==> k.prefix.bits <= r.value.bits)
  {
    hide Contains, IsMasked, MaskTo;
    var at := RowKey(tid, MaskTo(a, bits));
    forall k | Holds(rows, tid, a, k) && k.prefix.bits == bits
      ensures k == at
    {
      MaskedUnique(k.prefix, a);
    }
    if at !in rows && bits > 0 {
      LookupFromIsLongest(rows, tid, a, bits - 1);
    }
  }

  /** How long a match is; no match is shorter than any. */
  function Len(m: Option<Match>): int { if m.None? then -1 else m.value.bits }

  /** More rows never shorten a match, and the match found is one of the rows. */
  lemma {:induction false} MoreRowsLonger(a: Rows, b: Rows, tid: nat, addr: Addr, bits: nat)
    requires bits <= 32 && a.Keys <= b.Keys
    ensures Len(LookupFrom(a, tid, addr, bits)) <= Len(LookupFrom(b, tid, addr, bits)) <= bits
  {
    hide MaskTo;
    if bits > 0 {
      MoreRowsLonger(a, b, tid, addr, bits - 1);
    }
  }

  lemma {:induction false} MatchIsARow(rows: Rows, tid: nat, addr: Addr, bits: nat)
    requires bits <= 32 && LookupFrom(rows, tid, addr, bits).Some?
    ensures var m := LookupFrom(rows, tid, addr, bits).value;
            m.bits <= bits && RowKey(tid, MaskTo(addr, m.bits)) in rows
                && rows[RowKey(tid, MaskTo(addr, m.bits))] == m.zone
  {
    hide MaskTo;
    if RowKey(tid, MaskTo(addr, bits)) !in rows {
      MatchIsARow(rows, tid, addr, bits - 1);
    }
  }

  // ---------------------------------------------------------------------
  // The full write and the incremental update, as values
  // ---------------------------------------------------------------------

  /** Every tenant named has an id. */
  ghost predicate Interned(entries: seq<TrieEntry>, ids: map<string, nat>) {
    forall i :: 0 <= i < |entries| ==> entries[i].tenantId == "" || entries[i].tenantId in ids
  }

  ghost function KeyOf(e: TrieEntry, ids: map<string, nat>): RowKey
    requires e.tenantId == "" || e.tenantId in ids
  {
    RowKey(if e.tenantId == "" then TENANT_ID_UNSET else ids[e.tenantId], e.prefix)
  }

  /** Rows written in order: of duplicates the last one stands. */
  ghost function RowsOf(entries: seq<TrieEntry>, ids: map<string, nat>): Rows
    requires Interned(entries, ids)
  {
    if entries == [] then map[]
    else
      var n := |entries| - 1;
      RowsOf(entries[..n], ids)[KeyOf(entries[n], ids) := entries[n].zone]
  }

  /** Rows that are new, or whose zone changed. */
  ghost function Upserts(o: Rows, n: Rows): set<RowKey> {
    set k | k in n && !(k in o && o[k] == n[k])
  }

  ghost function Gone(o: Rows, n: Rows): set<RowKey> { o.Keys - n.Keys }

  /** Kernel rows with the rows of s brought to their new zone. */
  ghost function Upserted(rows: Rows, n: Rows, s: set<RowKey>): Rows
    requires s <= n.Keys
  {
    map k | k in rows.Keys + s :: if k in s then n[k] else rows[k]
  }

  /** A pass over a kernel holding rows, writes to stuck failing: all upserts that
      can be done are; the deletes only if no upsert failed. */
  ghost function AfterDelta(rows: Rows, o: Rows, n: Rows, stuck: set<RowKey>): Rows {
    var up := Upserted(rows, n, Upserts(o, n) - stuck);
    if Upserts(o, n) !! stuck then up - (Gone(o, n) - stuck) else up
  }

  /** Whether such a pass reports an error; deleting an absent row is one. */
  ghost predicate DeltaFails(rows: Rows, o: Rows, n: Rows, stuck: set<RowKey>) {
    !(Upserts(o, n) !! stuck) || exists k :: k in Gone(o, n) && (k in stuck || k !in rows)
  }

  /** Every row of k is one of o or of n, and k has all of o's keys or all of n's. */
  ghost predicate Between(k: Rows, o: Rows, n: Rows) {
    && (o.Keys <= k.Keys || n.Keys <= k.Keys)
    && forall r :: r in k ==> (r in o && k[r] == o[r]) || (r in n && k[r] == n[r])
  }

  /** At a kernel state between two row sets each address of each tenant matches an
      old or a new row, at least as long as the shorter of its two proper matches:
      it never falls through to a shorter one in passing. */
  lemma SafeInBetween(k: Rows, o: Rows, n: Rows, tid: nat, a: Addr)
    requires Between(k, o, n)
    ensures Len(Lookup(k, tid, a)) >= if Len(Lookup(o, tid, a)) <= Len(Lookup(n, tid, a)) then Len(Lookup(o, tid, a))
            else Len(Lookup(n, tid, a))
    ensures Lookup(k, tid, a).Some? ==>
              var m := Lookup(k, tid, a).value;
              && m.bits <= 32
              && var r := RowKey(tid, MaskTo(a, m.bits));
              (r in o && o[r] == m.zone) || (r in n && n[r] == m.zone)
  {
    hide LookupFrom, MaskTo;
    if o.Keys <= k.Keys {
      MoreRowsLonger(o, k, tid, a, 32);
    } else {
      MoreRowsLonger(n, k, tid, a, 32);
    }
    if Lookup(k, tid, a).Some? {
      MatchIsARow(k, tid, a, 32);
    }
  }

  /** A pass from the committed rows with no failed write ends exactly at the new
      rows. */
  lemma DeltaReachesTarget(o: Rows, n: Rows)
    ensures AfterDelta(o, o, n, {}) == n && !DeltaFails(o, o, n, {})
  {
  }

  /** A pass with a failed upsert deletes nothing, reports it, and leaves a kernel
      from which a fully successful retry of the same target reaches it. */
  lemma RetryReachesTarget(o: Rows, n: Rows, stuck: set<RowKey>)
    requires !(Upserts(o, n) !! stuck)
    ensures var k := AfterDelta(o, o, n, stuck);
            && DeltaFails(o, o, n, stuck)
            && o.Keys <= k.Keys && Between(k, o, n)
            && AfterDelta(k, o, n, {}) == n && !DeltaFails(k, o, n, {})
  {
  }

  /** Exactly when a pass from an arbitrary kernel, no write failing, reaches its
      target: no row outside the two sets lingers there, and every row the diff
      takes for unchanged is there unchanged. Reaching it is not enough to commit. */
  lemma ReachesTargetIff(rows: Rows, o: Rows, n: Rows)
    ensures AfterDelta(rows, o, n, {}) == n <==>
              && (forall k :: k in rows ==> k in o || k in n)
              && (forall k :: k in n && k in o && o[k] == n[k] ==> k in rows && rows[k] == n[k])
  {
    var r := AfterDelta(rows, o, n, {});
    if r == n {
      forall k | k in rows ensures k in o || k in n {
        assert k in Upserted(rows, n, Upserts(o, n));
      }
      forall k | k in n && k in o && o[k] == n[k] ensures k in rows && rows[k] == n[k] {
        assert k !in Upserts(o, n) && k in r;
      }
    }
  }

  /** Exactly when a pass can be committed: no write is stuck that it makes, and
      every row it has to delete is there. */
  lemma CommitsIff(rows: Rows, o: Rows, n: Rows, stuck: set<RowKey>)
    ensures !DeltaFails(rows, o, n, stuck) <==> (Upserts(o, n) + Gone(o, n)) !! stuck && Gone(o, n) <= rows.Keys
  {
  }

  /** The kernel after m retries of a pass, no write failing. */
  ghost function Retried(rows: Rows, o: Rows, n: Rows, m: nat): Rows {
    if m == 0 then rows else AfterDelta(Retried(rows, o, n, m - 1), o, n, {})
  }

  /** A pass whose upserts all landed and some of whose deletes failed is never
      committed if any delete worked: the retry removes what is left and so reaches
      the target, but it also deletes the absent rows again, which is an error, and
      so does every retry after it. Only if no delete worked does a retry commit,
      the first one. */
  lemma {:induction false} FailedDeleteStalls(o: Rows, n: Rows, stuck: set<RowKey>, m: nat)
    requires Upserts(o, n) !! stuck && !(Gone(o, n) !! stuck)
    ensures var k := AfterDelta(o, o, n, stuck);
            && DeltaFails(o, o, n, stuck)
            && Retried(k, o, n, m + 1) == n
            && (DeltaFails(Retried(k, o, n, m), o, n, {}) <==> m > 0 || Gone(o, n) - stuck != {})
  {
    var k := AfterDelta(o, o, n, stuck);
    RetryAfterDelete(o, n, stuck);
    hide AfterDelta, DeltaFails, Upserts, Gone;
    if m > 0 {
      FailedDeleteStalls(o, n, stuck, m - 1);
      TargetFails(o, n);
    }
  }

  lemma RetryAfterDelete(o: Rows, n: Rows, stuck: set<RowKey>)
    requires Upserts(o, n) !! stuck && !(Gone(o, n) !! stuck)
    ensures var k := AfterDelta(o, o, n, stuck);
            && DeltaFails(o, o, n, stuck)
            && AfterDelta(k, o, n, {}) == n
            && (DeltaFails(k, o, n, {}) <==> Gone(o, n) - stuck != {})
  {
  }

  /** Nor does a retry move a kernel already at the target. */
  lemma TargetFails(o: Rows, n: Rows)
    ensures AfterDelta(n, o, n, {}) == n
    ensures DeltaFails(n, o, n, {}) <==> Gone(o, n) != {}
  {
  }

  /** Any number of passes towards one target, whichever writes fail in each, stay
      between the committed and the new rows. */
  lemma PassStaysBetween(rows: Rows, o: Rows, n: Rows, stuck: set<RowKey>)
    requires Between(rows, o, n)
    ensures Between(AfterDelta(rows, o, n, stuck), o, n)
  {
    var k := AfterDelta(rows, o, n, stuck);
    if Upserts(o, n) !! stuck {
      if n.Keys <= rows.Keys {
        assert n.Keys <= k.Keys;
      } else {
        forall r | r in n ensures r in k {
          assert r in Upserts(o, n) || r in rows;
        }
      }
    }
  }

  /** A row that landed in a failed pass and is wanted by no later target stays:
      the diff is taken from the committed rows, which never held it. */
  lemma AbandonedRowLingers()
    ensures var a, b := RowKey(1, Prefix(0, 8)), RowKey(1, Prefix(0, 16));
            var first: Rows := map[a := SameTenant, b := SameTenant];
            var second: Rows := map[b := SameTenant];
            var k := AfterDelta(map[], map[], first, {b});
            && DeltaFails(map[], map[], first, {b})
            && !DeltaFails(k, map[], second, {})
            && a in AfterDelta(k, map[], second, {})
  {
  }
}
