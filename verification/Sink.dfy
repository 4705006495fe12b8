/** Where a drained reading goes, as a value: the ledger, the buffer of flows
    whose VM is still unknown, and the kernel counters a fold-out resets. */
module Sink {
  import opened Amounts
  import opened Bpf
  import opened Metadata
  import opened Billing

  /** firstSeen drives expiry; lastRaw is the delta baseline. */
  datatype Entry = Entry(total: FlowMetrics, lastRaw: FlowMetrics, firstSeen: nat)

  /** order is the LRU list, most recently captured first. */
  datatype Sink = Sink(
    ledger: Ledger, entries: map<FlowKey, Entry>, order: seq<FlowKey>, kernel: map<FlowKey, FlowMetrics>)
  {
    /** The map and the list hold the same flows, each once. */
    ghost predicate Valid() {
      && NoDup(order)
      && (forall k :: k in order <==> k in entries)
    }
  }

  /** What one tick runs under: its clock, the buffer's bounds, and the kernel
      entries whose delete fails. */
  datatype Knobs = Knobs(now: nat, ttl: nat, cap: int, broken: set<FlowKey>)

  /** Both MACs zeroed; everything else kept. */
  function UnknownKey(k: FlowKey): FlowKey { k.(srcMac := 0, dstMac := 0) }

  function Without(s: seq<FlowKey>, x: FlowKey): seq<FlowKey> {
    if s == [] then [] else if s[0] == x then s[1..] else [s[0]] + Without(s[1..], x)
  }

  /** Removing a flow from a duplicate-free list removes exactly it. */
  lemma {:induction false} WithoutRemoves(s: seq<FlowKey>, x: FlowKey)
    requires NoDup(s)
    ensures var r := Without(s, x);
            && NoDup(r)
            && (forall k :: k in r <==> k in s && k != x)
            && |r| == |s| - if x in s then 1 else 0
  {
    if s != [] {
      var rest := s[1..];
      assert s == [s[0]] + rest;
      assert s[0] !in rest && NoDup(rest);
      if s[0] != x {
        WithoutRemoves(rest, x);
        var r := Without(rest, x);
        NoDupCons(s[0], r);
        assert forall k :: k in [s[0]] + r <==> k == s[0] || k in r;
      }
    }
  }

  lemma NoDupCons(x: FlowKey, s: seq<FlowKey>)
    requires NoDup(s) && x !in s
    ensures NoDup([x] + s)
  {
  }

  /** One flow folded out to "unknown"; unless its delete fails, the kernel entry
      is reset with it. */
  function FoldOut(w: Sink, k: FlowKey, delKernel: bool, t: Knobs): Sink
    requires k in w.entries
  {
    Sink(AddTotal(w.ledger, UnknownKey(k), w.entries[k].total),
         w.entries - {k},
         Without(w.order, k),
         if delKernel && k !in t.broken then w.kernel - {k} else w.kernel)
  }

  lemma FoldOutValid(w: Sink, k: FlowKey, delKernel: bool, t: Knobs)
    requires w.Valid() && k in w.entries
    ensures var w' := FoldOut(w, k, delKernel, t); w'.Valid() && |w'.order| == |w.order| - 1
  {
    WithoutRemoves(w.order, k);
  }

  /** Least recently captured flows leave until the cap holds. */
  function EvictOverCap(w: Sink, t: Knobs): Sink
    requires w.Valid()
    decreases |w.order|
  {
    if |w.entries| <= t.cap || w.order == [] then w
    else
      var k := w.order[|w.order| - 1];
      FoldOutValid(w, k, true, t);
      EvictOverCap(FoldOut(w, k, true, t), t)
  }

  function Admitted(w: Sink, k: FlowKey, raw: FlowMetrics, t: Knobs): Sink {
    w.(entries := w.entries[k := Entry(raw, raw, t.now)], order := [k] + w.order)
  }

  /** An unknown-VM reading. The stamp in lastRaw stays that of the first capture. */
  function Capture(w: Sink, k: FlowKey, raw: FlowMetrics, t: Knobs): Sink
    requires w.Valid()
  {
    if k !in w.entries then EvictOverCap(Admitted(w, k, raw, t), t)
    else
      WithoutRemoves(w.order, k);
      w.(entries := w.entries[k := Recaptured(w.entries[k], raw)], order := [k] + Without(w.order, k))
  }

  /** Below the cap nothing is evicted. */
  lemma CaptureBelowCap(w: Sink, k: FlowKey, raw: FlowMetrics, t: Knobs)
    requires w.Valid() && k !in w.entries && |w.entries| < t.cap
    ensures Capture(w, k, raw, t) == Admitted(w, k, raw, t)
  {
  }

  function Recaptured(e: Entry, raw: FlowMetrics): Entry {
    Entry(FlowMetrics(AddDelta(e.total.count, e.lastRaw.count, raw.count), Max(e.total.lastSeenNs, raw.lastSeenNs),
                      e.total.createdNs),
          FlowMetrics(raw.count, raw.lastSeenNs, e.lastRaw.createdNs),
          e.firstSeen)
  }

  /** A kernel entry re-created while its flow is buffered counts from zero again,
      but Capture keeps the old stamp and compares magnitudes. Nothing is lost
      exactly when each counter restarts below its baseline, or had none. */
  lemma RecreatedWhileBuffered(e: Entry, raw: FlowMetrics)
    ensures Recaptured(e, raw).total.count == e.total.count.Plus(raw.count) <==>
            && (raw.count.bytes < e.lastRaw.count.bytes || e.lastRaw.count.bytes == 0)
            && (raw.count.packets < e.lastRaw.count.packets || e.lastRaw.count.packets == 0)
  {
  }

  /** For instance: 100 bytes buffered, then 250 from a new entry, booked as 250. */
  lemma RecreatedUndercounts()
    ensures var e := Entry(FlowMetrics(Amount(100, 1), 1, 1), FlowMetrics(Amount(100, 1), 1, 1), 1);
            Recaptured(e, FlowMetrics(Amount(250, 2), 2, 2)).total.count == Amount(250, 2)
  {
  }

  /** Late binding: a buffered flow handed to its ledger row. */
  function ResolveBuffered(w: Sink, k: FlowKey): Sink {
    if k !in w.entries then w
    else
      var e := w.entries[k];
      w.(ledger := ResolveRow(w.ledger, k, e.total, e.lastRaw), entries := w.entries - {k},
         order := Without(w.order, k))
  }

  function AbsorbReading(w: Sink, meta: map<Mac, TenantMeta>, k: FlowKey, raw: FlowMetrics, t: Knobs): Sink
    requires w.Valid()
  {
    if VMMAC(k) in meta then
      var w1 := ResolveBuffered(w, k);
      w1.(ledger := ApplyDelta(w1.ledger, k, raw))
    else Capture(w, k, raw, t)
  }

  lemma {:induction false} EvictOverCapValid(w: Sink, t: Knobs)
    requires w.Valid()
    ensures EvictOverCap(w, t).Valid()
    decreases |w.order|
  {
    if |w.entries| > t.cap && w.order != [] {
      var k := w.order[|w.order| - 1];
      FoldOutValid(w, k, true, t);
      EvictOverCapValid(FoldOut(w, k, true, t), t);
    }
  }

  lemma AbsorbReadingValid(w: Sink, meta: map<Mac, TenantMeta>, k: FlowKey, raw: FlowMetrics, t: Knobs)
    requires w.Valid()
    ensures AbsorbReading(w, meta, k, raw, t).Valid()
  {
    WithoutRemoves(w.order, k);
    if VMMAC(k) !in meta && k !in w.entries {
      EvictOverCapValid(Admitted(w, k, raw, t), t);
    }
  }

  /** The flows an expiry sweep folds out, in the order it meets them. */
  function FoldOutAll(w: Sink, keys: seq<FlowKey>, delKernel: bool, t: Knobs): (w': Sink)
    requires w.Valid() && NoDup(keys) && forall k :: k in keys ==> k in w.entries
    ensures w'.Valid()
    ensures forall k :: k in w'.entries <==> k in w.entries && k !in keys
    ensures forall k :: k in w'.entries ==> w'.entries[k] == w.entries[k]
  {
    if keys == [] then w
    else
      var n := |keys| - 1;
      assert keys == keys[..n] + [keys[n]];
      var w1 := FoldOutAll(w, keys[..n], delKernel, t);
      FoldOutValid(w1, keys[n], delKernel, t);
      FoldOut(w1, keys[n], delKernel, t)
  }

  lemma FoldOutNone(w: Sink, delKernel: bool, t: Knobs)
    requires w.Valid()
    ensures FoldOutAll(w, [], delKernel, t) == w
  {
  }

  lemma FoldOutAllSnoc(w: Sink, keys: seq<FlowKey>, k: FlowKey, delKernel: bool, t: Knobs)
    requires w.Valid() && NoDup(keys) && (forall j :: j in keys ==> j in w.entries) && k in w.entries && k !in keys
    ensures NoDup(keys + [k]) && (forall j :: j in keys + [k] ==> j in w.entries)
    ensures FoldOutAll(w, keys + [k], delKernel, t) == FoldOut(FoldOutAll(w, keys, delKernel, t), k, delKernel, t)
  {
  }

  ghost predicate NoDup(keys: seq<FlowKey>) {
    forall i, j :: 0 <= i < j < |keys| ==> keys[i] != keys[j]
  }

  predicate Expired(e: Entry, t: Knobs) { t.now - e.firstSeen >= t.ttl }

  /** keys lists exactly the expired flows, each once. */
  ghost predicate ListsExpired(w: Sink, keys: seq<FlowKey>, t: Knobs) {
    NoDup(keys) && forall k :: k in keys <==> k in w.entries && Expired(w.entries[k], t)
  }

  /** One drain absorbed, its readings in the order keys. */
  function AbsorbDrain(w: Sink, meta: map<Mac, TenantMeta>, buf: map<FlowKey, FlowMetrics>, keys: seq<FlowKey>,
                       t: Knobs): (w': Sink)
    requires w.Valid() && forall k :: k in keys ==> k in buf
    ensures w'.Valid()
  {
    if keys == [] then w
    else
      var n := |keys| - 1;
      assert keys == keys[..n] + [keys[n]];
      var w1 := AbsorbDrain(w, meta, buf, keys[..n], t);
      AbsorbReadingValid(w1, meta, keys[n], buf[keys[n]], t);
      AbsorbReading(w1, meta, keys[n], buf[keys[n]], t)
  }

  /** The choices one tick over the drained readings buf makes: the order the
      drain is walked in, the order the expired flows are met in, and the entries
      pressure relief picks. */
  ghost predicate IsTick(w: Sink, meta: map<Mac, TenantMeta>, buf: map<FlowKey, FlowMetrics>,
                         keys: seq<FlowKey>, swept: seq<FlowKey>, victims: set<FlowKey>, t: Knobs)
  {
    && w.Valid()
    && NoDup(keys) && (forall k :: k in keys <==> k in buf)
    && ListsExpired(AbsorbDrain(w, meta, buf, keys, t), swept, t)
    && victims <= buf.Keys
  }

  ghost function TickResult(w: Sink, meta: map<Mac, TenantMeta>, buf: map<FlowKey, FlowMetrics>,
                            keys: seq<FlowKey>, swept: seq<FlowKey>, victims: set<FlowKey>, t: Knobs): Sink
    requires IsTick(w, meta, buf, keys, swept, victims, t)
  {
    Relieved(FoldOutAll(AbsorbDrain(w, meta, buf, keys, t), swept, true, t), victims, t)
  }

  function Relieved(w: Sink, victims: set<FlowKey>, t: Knobs): Sink {
    w.(kernel := w.kernel - (victims - t.broken))
  }

  lemma AbsorbDrainSnoc(w: Sink, meta: map<Mac, TenantMeta>, buf: map<FlowKey, FlowMetrics>, keys: seq<FlowKey>,
                        k: FlowKey, t: Knobs)
    requires w.Valid() && (forall j :: j in keys ==> j in buf) && k in buf && NoDup(keys) && k !in keys
    ensures NoDup(keys + [k]) && (forall j :: j in keys + [k] ==> j in buf)
    ensures AbsorbDrain(w, meta, buf, keys + [k], t) ==
            AbsorbReading(AbsorbDrain(w, meta, buf, keys, t), meta, k, buf[k], t)
  {
  }

  // ---------------------------------------------------------------------
  // Late binding counts each byte once
  // ---------------------------------------------------------------------

  function AbsorbAll(w: Sink, meta: map<Mac, TenantMeta>, k: FlowKey, readings: seq<FlowMetrics>, t: Knobs): (w': Sink)
    requires w.Valid()
    ensures w'.Valid()
    decreases |readings|
  {
    if readings == [] then w
    else
      var n := |readings| - 1;
      var w1 := AbsorbAll(w, meta, k, readings[..n], t);
      AbsorbReadingValid(w1, meta, k, readings[n], t);
      AbsorbReading(w1, meta, k, readings[n], t)
  }

  /** The buffer holds the latest count of the kernel entry stamped last.createdNs. */
  ghost predicate Tracks(w: Sink, w0: Sink, k: FlowKey, last: FlowMetrics) {
    && w.Valid() && k in w.entries
    && w.ledger == w0.ledger && w.kernel == w0.kernel
    && w.entries - {k} == w0.entries
    && w.entries[k].total.count == w.entries[k].lastRaw.count == last.count
    && w.entries[k].lastRaw.createdNs == last.createdNs
  }

  lemma CaptureNew(w: Sink, meta: map<Mac, TenantMeta>, k: FlowKey, raw: FlowMetrics, t: Knobs)
    requires w.Valid() && VMMAC(k) !in meta && k !in w.entries && |w.entries| < t.cap
    ensures Tracks(AbsorbReading(w, meta, k, raw, t), w, k, raw)
  {
    AbsorbReadingValid(w, meta, k, raw, t);
    CaptureBelowCap(w, k, raw, t);
    assert Admitted(w, k, raw, t).entries - {k} == w.entries;
  }

  lemma CaptureAgain(w: Sink, w0: Sink, meta: map<Mac, TenantMeta>, k: FlowKey, last: FlowMetrics, raw: FlowMetrics,
                     t: Knobs)
    requires Tracks(w, w0, k, last) && VMMAC(k) !in meta
    requires last.count.AtMost(raw.count) && last.createdNs == raw.createdNs
    ensures Tracks(AbsorbReading(w, meta, k, raw, t), w0, k, raw)
  {
    AbsorbReadingValid(w, meta, k, raw, t);
    assert AbsorbReading(w, meta, k, raw, t).entries - {k} == w.entries - {k};
  }

  /** Captures of one kernel entry leave the buffer holding its latest count. */
  lemma {:induction false} CapturesTrackKernel(w: Sink, meta: map<Mac, TenantMeta>, k: FlowKey,
                                               readings: seq<FlowMetrics>, t: Knobs)
    requires w.Valid() && VMMAC(k) !in meta && k !in w.entries && |w.entries| < t.cap
    requires readings != [] && OneLifetime(readings)
    ensures Tracks(AbsorbAll(w, meta, k, readings, t), w, k, readings[|readings| - 1])
  {
    hide AbsorbReading, Tracks;
    var n := |readings| - 1;
    if n == 0 {
      CaptureNew(w, meta, k, readings[0], t);
    } else {
      CapturesTrackKernel(w, meta, k, readings[..n], t);
      assert readings[n - 1].count.AtMost(readings[n].count);
      CaptureAgain(AbsorbAll(w, meta, k, readings[..n], t), w, meta, k, readings[n - 1], readings[n], t);
    }
  }

  /** Any number of captures of an unknown flow, then its VM becoming known, then
      any number of drains: the row's total is the latest kernel count, and no
      other row, in particular no "unknown" row, has moved. */
  lemma LateBindingCountsOnce(w: Sink, before: map<Mac, TenantMeta>, after: map<Mac, TenantMeta>, k: FlowKey,
                              captured: seq<FlowMetrics>, drained: seq<FlowMetrics>, t: Knobs)
    requires w.Valid() && VMMAC(k) !in before && VMMAC(k) in after
    requires k !in w.ledger.counts && k !in w.entries && |w.entries| < t.cap
    requires captured != [] && drained != [] && OneLifetime(captured + drained)
    ensures var w1 := AbsorbAll(w, before, k, captured, t);
            var w2 := AbsorbAll(w1, after, k, drained, t);
            && k in w2.ledger.counts
            && w2.ledger.counts[k].total.count == drained[|drained| - 1].count
            && w2.ledger == w.ledger.(counts := w.ledger.counts[k := w2.ledger.counts[k]])
            && w2.entries == w.entries
  {
    var both := captured + drained;
    assert forall i :: 0 <= i < |captured| ==> captured[i] == both[i];
    assert forall i :: 0 <= i < |drained| ==> drained[i] == both[|captured| + i];
    CapturesTrackKernel(w, before, k, captured, t);
    var w1 := AbsorbAll(w, before, k, captured, t);
    var last := both[|captured| - 1];
    assert OneLifetime([last] + drained) by {
      assert forall i :: 0 <= i <= |drained| ==> ([last] + drained)[i] == both[|captured| - 1 + i];
    }
    DrainsTrackKernel(w1, w, after, k, last, drained, t);
  }

  /** The row holds the latest count of the kernel entry, and is all that changed. */
  ghost predicate Booked(w: Sink, w0: Sink, k: FlowKey, last: FlowMetrics) {
    && w.Valid() && k in w.ledger.counts
    && w.ledger.counts[k].total.count == w.ledger.counts[k].lastRaw.count == last.count
    && w.ledger.counts[k].lastRaw.createdNs == last.createdNs
    && w.ledger == w0.ledger.(counts := w0.ledger.counts[k := w.ledger.counts[k]])
    && w.entries == w0.entries
  }

  lemma BindNow(w: Sink, w0: Sink, meta: map<Mac, TenantMeta>, k: FlowKey, last: FlowMetrics, raw: FlowMetrics,
                t: Knobs)
    requires Tracks(w, w0, k, last) && VMMAC(k) in meta && k !in w0.ledger.counts
    requires last.count.AtMost(raw.count) && last.createdNs == raw.createdNs != 0
    ensures Booked(AbsorbReading(w, meta, k, raw, t), w0, k, raw)
  {
    AbsorbReadingValid(w, meta, k, raw, t);
  }

  lemma BookAgain(w: Sink, w0: Sink, meta: map<Mac, TenantMeta>, k: FlowKey, last: FlowMetrics, raw: FlowMetrics,
                  t: Knobs)
    requires Booked(w, w0, k, last) && VMMAC(k) in meta && k !in w0.entries
    requires last.count.AtMost(raw.count) && last.createdNs == raw.createdNs != 0
    ensures Booked(AbsorbReading(w, meta, k, raw, t), w0, k, raw)
  {
  }

  lemma {:induction false} DrainsTrackKernel(w: Sink, w0: Sink, meta: map<Mac, TenantMeta>, k: FlowKey,
                                             last: FlowMetrics,
                                             readings: seq<FlowMetrics>, t: Knobs)
    requires Tracks(w, w0, k, last) && VMMAC(k) in meta && k !in w0.ledger.counts && k !in w0.entries
    requires readings != [] && OneLifetime([last] + readings)
    ensures Booked(AbsorbAll(w, meta, k, readings, t), w0, k, readings[|readings| - 1])
  {
    hide AbsorbReading, Booked;
    var n := |readings| - 1;
    var all := [last] + readings;
    assert all[n + 1] == readings[n] && all[0] == last;
    assert all[n].count.AtMost(all[n + 1].count) && all[n].createdNs == all[n + 1].createdNs;
    if n == 0 {
      BindNow(w, w0, meta, k, last, readings[0], t);
    } else {
      assert all[..n + 1] == [last] + readings[..n];
      DrainsTrackKernel(w, w0, meta, k, last, readings[..n], t);
      BookAgain(AbsorbAll(w, meta, k, readings[..n], t), w0, meta, k, readings[n - 1], readings[n], t);
    }
  }
}
