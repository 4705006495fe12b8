/** Exactly-once conservation: below the buffer cap and with working deletes,
    every drained byte is in exactly one place. */
module Conservation {
  import opened Amounts
  import opened Bpf
  import opened Options
  import opened Metadata
  import opened Billing
  import opened S = Sink
  import opened Series
  import opened Runs

  ghost function Buffered(entries: map<FlowKey, Entry>): map<FlowKey, Amount> {
    map k | k in entries :: entries[k].total.count
  }

  /** Bytes in live rows, in both settled accumulators that hold tenants' bytes,
      and in the buffer. */
  ghost function Accounted(w: S.Sink): Amount {
    Sum(Totals(w.ledger.counts)).Plus(Sum(w.ledger.tenantSettled))
      .Plus(Sum(w.ledger.totalSettled)).Plus(Sum(Buffered(w.entries)))
  }

  ghost predicate Balanced(w: World) { Accounted(w.sink) == Sum(w.drained) }

  /** The reading m is the last drained one of its lifetime. */
  ghost predicate IsLastDrained(drained: map<Lifetime, Amount>, k: FlowKey, m: FlowMetrics) {
    m.createdNs != 0 && Lifetime(k, m.createdNs) in drained && drained[Lifetime(k, m.createdNs)] == m.count
  }

  /** A known VM's row remembers the last drained reading of some lifetime. */
  ghost predicate RowBaselines(w: World) {
    forall k :: k in w.sink.ledger.counts && VMMAC(k) in w.env.meta ==>
      IsLastDrained(w.drained, k, w.sink.ledger.counts[k].lastRaw)
  }

  /** A buffered flow's kernel entry is still the one it was captured from. */
  ghost predicate BufferBaselines(w: World) {
    forall k :: k in w.sink.entries ==>
      && k in w.sink.kernel
      && w.sink.kernel[k].createdNs == w.sink.entries[k].lastRaw.createdNs
      && IsLastDrained(w.drained, k, w.sink.entries[k].lastRaw)
      && (k in w.sink.ledger.counts ==> VMMAC(k) !in w.env.meta)
  }

  /** If the kernel's current entry was ever drained, its baseline is held by the
      buffer or by the row: nothing already counted can be taken for new. */
  ghost predicate BaselineHeld(w: World) {
    forall k :: k in w.sink.kernel && Lifetime(k, w.sink.kernel[k].createdNs) in w.drained ==>
      k in w.sink.entries || HasRow(w, k, w.sink.kernel[k].createdNs)
  }

  ghost predicate HasRow(w: World, k: FlowKey, stamp: nat) {
    k in w.sink.ledger.counts && VMMAC(k) in w.env.meta && w.sink.ledger.counts[k].lastRaw.createdNs == stamp
  }

  /** Kernel counters only grow within a lifetime, and no stamp lies ahead. */
  ghost predicate KernelGrows(w: World) {
    && (forall k :: k in w.sink.kernel ==>
          && 0 < w.sink.kernel[k].createdNs <= w.clock
          && (Lifetime(k, w.sink.kernel[k].createdNs) in w.drained ==>
                w.drained[Lifetime(k, w.sink.kernel[k].createdNs)].AtMost(w.sink.kernel[k].count)))
    && forall life :: life in w.drained ==> life.stamp <= w.clock
  }

  /** No row is left of a VM that is no longer known. */
  ghost predicate NoneForgotten(w: World) {
    forall k :: k in w.sink.ledger.counts ==> VMMAC(k) in w.env.meta || VMMAC(k) == 0
  }

  ghost predicate Inv(w: World) {
    RowInv(w) && NoneForgotten(w) && RowBaselines(w) && BufferBaselines(w) && BaselineHeld(w) && KernelGrows(w)
  }

  /** The conditions of the exactness claim, step by step. */
  ghost predicate Exact(w: World, st: Step) {
    Enabled(w, st) &&
    match st
    case Tick(buf, keys, expired, victims, t) =>
      && buf == w.sink.kernel && t.broken == {}
      && |w.sink.entries.Keys + UnknownFlows(w)| <= t.cap
      && victims !! AbsorbDrain(w.sink, w.env.meta, buf, keys, t).entries.Keys
    case SweepGhosts(swept, failed) =>
      failed == {} && forall k :: k in w.sink.entries ==> VMMAC(k) !in swept
    // Ends a life: nothing is drained after it (see ShutdownExact).
    case FlushBuffer(_, _) => false
    case _ => true
  }

  ghost function UnknownFlows(w: World): set<FlowKey> {
    set k | k in w.sink.kernel && VMMAC(k) !in w.env.meta
  }

  // ---------------------------------------------------------------------
  // One reading
  // ---------------------------------------------------------------------

  ghost function AfterReading(w: World, k: FlowKey, t: Knobs): World
    requires w.sink.Valid() && k in w.sink.kernel
  {
    var raw := w.sink.kernel[k];
    w.(sink := AbsorbReading(w.sink, w.env.meta, k, raw, t),
       drained := w.drained[Lifetime(k, raw.createdNs) := raw.count])
  }

  lemma TotalsSet(counts: map<FlowKey, Counter>, k: FlowKey, c: Counter)
    ensures Totals(counts[k := c]) == Totals(counts)[k := c.total.count]
  {
  }

  lemma BufferedSet(entries: map<FlowKey, Entry>, k: FlowKey, e: Entry)
    ensures Buffered(entries[k := e]) == Buffered(entries)[k := e.total.count]
  {
  }

  lemma BufferedDrop(entries: map<FlowKey, Entry>, k: FlowKey)
    requires k in entries
    ensures Buffered(entries) == Buffered(entries - {k})[k := entries[k].total.count]
  {
  }

  /** A row set and its flow taken out of the buffer: what the books gain. */
  lemma RowBalance(w: S.Sink, w': S.Sink, k: FlowKey, c: Counter)
    requires w'.ledger == w.ledger.(counts := w.ledger.counts[k := c]) && w'.entries == w.entries - {k}
    ensures Accounted(w').Plus(Get(Totals(w.ledger.counts), k)).Plus(Get(Buffered(w.entries), k)) ==
            Accounted(w).Plus(c.total.count)
  {
    hide Sum;
    TotalsSet(w.ledger.counts, k, c);
    SumSet(Totals(w.ledger.counts), k, c.total.count);
    if k in w.entries {
      BufferedDrop(w.entries, k);
      SumInsert(Buffered(w.entries - {k}), k, w.entries[k].total.count);
    } else {
      assert w.entries - {k} == w.entries;
    }
  }

  /** A buffer entry set: what the books gain. */
  lemma BufferBalance(w: S.Sink, w': S.Sink, k: FlowKey, e: Entry)
    requires w'.ledger == w.ledger && w'.entries == w.entries[k := e]
    ensures Accounted(w').Plus(Get(Buffered(w.entries), k)) == Accounted(w).Plus(e.total.count)
  {
    hide Sum;
    BufferedSet(w.entries, k, e);
    SumSet(Buffered(w.entries), k, e.total.count);
  }

  /** Both sides of the balance gain the same. */
  lemma StaysBalanced(w: World, w': World, life: Lifetime, now: Amount, was: Amount, gained: Amount)
    requires Balanced(w) && w'.drained == w.drained[life := now]
    requires Accounted(w'.sink).Plus(was) == Accounted(w.sink).Plus(gained)
    requires gained.Plus(Get(w.drained, life)) == was.Plus(now)
    ensures Balanced(w')
  {
    hide Sum, Accounted;
    SumSet(w.drained, life, now);
  }

  function BookedRow(w: S.Sink, k: FlowKey, raw: FlowMetrics): Counter {
    ApplyReading(Row(ResolveBuffered(w, k).ledger, k), raw)
  }

  /** The shape of a known VM's reading: one row set, nothing left buffered. */
  lemma KnownShape(w: S.Sink, meta: map<Mac, TenantMeta>, k: FlowKey, raw: FlowMetrics, t: Knobs)
    requires w.Valid() && VMMAC(k) in meta
    ensures var w' := AbsorbReading(w, meta, k, raw, t);
            && w'.Valid() && w'.kernel == w.kernel
            && w'.ledger == w.ledger.(counts := w.ledger.counts[k := BookedRow(w, k, raw)])
            && w'.entries == w.entries - {k}
  {
    AbsorbReadingValid(w, meta, k, raw, t);
    hide ApplyReading, Grow, Without, Capture;
    var w1 := ResolveBuffered(w, k);
    assert w1.entries == w.entries - {k};
    assert w1.ledger.counts[k := BookedRow(w, k, raw)] == w.ledger.counts[k := BookedRow(w, k, raw)];
  }

  /** One row absorbing a reading gains exactly what its lifetime newly counted:
      all of it if the row's baseline is another lifetime's. */
  lemma RowGain(c: Counter, raw: FlowMetrics)
    requires c.lastRaw.createdNs != 0
    requires c.lastRaw.createdNs == raw.createdNs ==> c.lastRaw.count.AtMost(raw.count)
    ensures var c' := ApplyReading(Some(c), raw);
            && c'.lastRaw == raw
            && c'.total.count.Plus(if c.lastRaw.createdNs == raw.createdNs then c.lastRaw.count else ZERO) ==
               c.total.count.Plus(raw.count)
  {
  }

  /** What is known of a known VM's flow before its reading is booked. */
  lemma KnownFacts(w: World, k: FlowKey)
    requires Inv(w) && k in w.sink.kernel && VMMAC(k) in w.env.meta
    ensures var raw := w.sink.kernel[k];
            var life := Lifetime(k, raw.createdNs);
            && raw.createdNs != 0
            && (life in w.drained ==> w.drained[life].AtMost(raw.count))
            && (k in w.sink.entries ==>
                  && k !in w.sink.ledger.counts && life in w.drained
                  && w.sink.entries[k].lastRaw.createdNs == raw.createdNs
                     && w.sink.entries[k].lastRaw.count == w.drained[life])
            && (k !in w.sink.entries && k in w.sink.ledger.counts ==>
                  var last := w.sink.ledger.counts[k].lastRaw;
                  && last.createdNs != 0
                  && (life in w.drained <==> last.createdNs == raw.createdNs)
                  && (life in w.drained ==> w.drained[life] == last.count))
            && (k !in w.sink.entries && k !in w.sink.ledger.counts ==> life !in w.drained)
  {
  }

  /** What the row gains is exactly what the flow's lifetime newly drained. */
  lemma KnownGain(w: World, k: FlowKey)
    requires Inv(w) && k in w.sink.kernel && VMMAC(k) in w.env.meta
    ensures var c, raw := BookedRow(w.sink, k, w.sink.kernel[k]), w.sink.kernel[k];
            && c.lastRaw == raw
            && c.total.count.Plus(Get(w.drained, Lifetime(k, raw.createdNs)))
               == Get(Totals(w.sink.ledger.counts), k).Plus(Get(Buffered(w.sink.entries), k)).Plus(raw.count)
  {
    KnownFacts(w, k);
    hide Inv, ApplyReading;
    var raw := w.sink.kernel[k];
    if k in w.sink.entries {
      var e := w.sink.entries[k];
      RowGain(Counter(e.total, e.lastRaw), raw);
      PlusZero(e.total.count);
    } else if k in w.sink.ledger.counts {
      var c := w.sink.ledger.counts[k];
      RowGain(c, raw);
      PlusZero(c.total.count);
    } else {
      FirstSight(raw);
      FirstGain(raw.count);
    }
  }

  lemma FirstSight(raw: FlowMetrics)
    ensures ApplyReading(None, raw) == Counter(raw, raw)
  {
  }

  lemma FirstGain(a: Amount)
    ensures a.Plus(ZERO) == ZERO.Plus(ZERO).Plus(a)
  {
  }

  lemma KnownReading(w: World, k: FlowKey, t: Knobs)
    requires Inv(w) && Balanced(w) && k in w.sink.kernel && VMMAC(k) in w.env.meta
    ensures Inv(AfterReading(w, k, t)) && Balanced(AfterReading(w, k, t))
    ensures AfterReading(w, k, t).sink.kernel == w.sink.kernel
    ensures AfterReading(w, k, t).sink.entries.Keys <= w.sink.entries.Keys
  {
    var w', raw := AfterReading(w, k, t), w.sink.kernel[k];
    KnownShape(w.sink, w.env.meta, k, raw, t);
    KnownGain(w, k);
    hide AbsorbReading, BookedRow;
    var c := BookedRow(w.sink, k, raw);
    RowBalance(w.sink, w'.sink, k, c);
    KnownSettles(w, w', k, c, raw);
    KeepsInvRow(w, w', k, c);
  }

  lemma KnownSettles(w: World, w': World, k: FlowKey, c: Counter, raw: FlowMetrics)
    requires Balanced(w) && w'.drained == w.drained[Lifetime(k, raw.createdNs) := raw.count]
    requires Accounted(w'.sink).Plus(Get(Totals(w.sink.ledger.counts), k)).Plus(Get(Buffered(w.sink.entries), k)) ==
             Accounted(w.sink).Plus(c.total.count)
    requires c.total.count.Plus(Get(w.drained, Lifetime(k, raw.createdNs)))
             == Get(Totals(w.sink.ledger.counts), k).Plus(Get(Buffered(w.sink.entries), k)).Plus(raw.count)
    ensures Balanced(w')
  {
    hide Balanced, Accounted, Totals, Buffered, Get;
    var a, b := Get(Totals(w.sink.ledger.counts), k), Get(Buffered(w.sink.entries), k);
    StaysBalanced(w, w', Lifetime(k, raw.createdNs), raw.count, a.Plus(b), c.total.count);
  }

  /** Only row k, set to c, and the buffer entry of k changed, k being drained. */
  ghost predicate RowBooked(w: World, w': World, k: FlowKey, c: Counter) {
    && k in w.sink.kernel && VMMAC(k) in w.env.meta && c.lastRaw == w.sink.kernel[k]
    && w'.sink.Valid() && w'.sink.kernel == w.sink.kernel && w'.env == w.env && w'.clock == w.clock
    && w'.sink.ledger == w.sink.ledger.(counts := w.sink.ledger.counts[k := c])
    && w'.sink.entries == w.sink.entries - {k}
    && w'.drained == w.drained[Lifetime(k, c.lastRaw.createdNs) := c.lastRaw.count]
  }

  /** Booking the kernel's current reading in a row keeps every baseline. */
  lemma KeepsInvRow(w: World, w': World, k: FlowKey, c: Counter)
    requires Inv(w) && RowBooked(w, w', k, c)
    ensures Inv(w')
  {
    DrainKeepsKernel(w, w', k);
    RowKeepsRows(w, w', k, c);
    RowKeepsBaselines(w, w', k, c);
    RowKeepsBuffer(w, w', k, c);
    RowKeepsHeld(w, w', k, c);
    hide RowInv, NoneForgotten, RowBaselines, BufferBaselines, BaselineHeld, KernelGrows, RowBooked;
  }

  lemma RowKeepsRows(w: World, w': World, k: FlowKey, c: Counter)
    requires RowInv(w) && NoneForgotten(w) && RowBooked(w, w', k, c)
    ensures RowInv(w') && NoneForgotten(w')
  {
  }

  lemma RowKeepsBaselines(w: World, w': World, k: FlowKey, c: Counter)
    requires KernelGrows(w) && RowBaselines(w) && RowBooked(w, w', k, c)
    ensures RowBaselines(w')
  {
  }

  lemma RowKeepsBuffer(w: World, w': World, k: FlowKey, c: Counter)
    requires BufferBaselines(w) && RowBooked(w, w', k, c)
    ensures BufferBaselines(w')
  {
  }

  lemma RowKeepsHeld(w: World, w': World, k: FlowKey, c: Counter)
    requires BaselineHeld(w) && RowBooked(w, w', k, c)
    ensures BaselineHeld(w')
  {
  }

  /** Draining the kernel's current count keeps the kernel ahead of the books. */
  lemma DrainKeepsKernel(w: World, w': World, k: FlowKey)
    requires KernelGrows(w) && k in w.sink.kernel
    requires w'.sink.kernel == w.sink.kernel && w'.clock == w.clock
    requires w'.drained == w.drained[Lifetime(k, w.sink.kernel[k].createdNs) := w.sink.kernel[k].count]
    ensures KernelGrows(w')
  {
  }

  /** Only the buffer entry of k, set to e, changed, k being drained. */
  ghost predicate BufferBooked(w: World, w': World, k: FlowKey, e: Entry) {
    && k in w.sink.kernel && VMMAC(k) !in w.env.meta
    && e.lastRaw.count == w.sink.kernel[k].count && e.lastRaw.createdNs == w.sink.kernel[k].createdNs
    && w'.sink.Valid() && w'.sink.kernel == w.sink.kernel && w'.env == w.env && w'.clock == w.clock
    && w'.sink.ledger == w.sink.ledger && w'.sink.entries == w.sink.entries[k := e]
    && w'.drained == w.drained[Lifetime(k, e.lastRaw.createdNs) := e.lastRaw.count]
  }

  /** Capturing the kernel's current reading in the buffer keeps every baseline. */
  lemma KeepsInvBuffer(w: World, w': World, k: FlowKey, e: Entry)
    requires Inv(w) && BufferBooked(w, w', k, e)
    ensures Inv(w')
  {
    DrainKeepsKernel(w, w', k);
    BufferKeepsRows(w, w', k, e);
    BufferKeepsBuffer(w, w', k, e);
    BufferKeepsHeld(w, w', k, e);
    hide RowInv, NoneForgotten, RowBaselines, BufferBaselines, BaselineHeld, KernelGrows, BufferBooked;
  }

  lemma BufferKeepsRows(w: World, w': World, k: FlowKey, e: Entry)
    requires RowInv(w) && NoneForgotten(w) && RowBaselines(w) && BufferBooked(w, w', k, e)
    ensures RowInv(w') && NoneForgotten(w') && RowBaselines(w')
  {
  }

  lemma BufferKeepsBuffer(w: World, w': World, k: FlowKey, e: Entry)
    requires KernelGrows(w) && BufferBaselines(w) && BufferBooked(w, w', k, e)
    ensures BufferBaselines(w')
  {
  }

  lemma BufferKeepsHeld(w: World, w': World, k: FlowKey, e: Entry)
    requires BaselineHeld(w) && BufferBooked(w, w', k, e)
    ensures BaselineHeld(w')
  {
  }

  /** The shape of an unknown VM's reading below the cap: one buffer entry set. */
  lemma UnknownShape(w: World, k: FlowKey, t: Knobs) returns (e: Entry)
    requires Inv(w) && k in w.sink.kernel && VMMAC(k) !in w.env.meta
    requires k in w.sink.entries || |w.sink.entries| < t.cap
    ensures var w', raw := AfterReading(w, k, t), w.sink.kernel[k];
            && w'.sink.Valid() && w'.sink.kernel == w.sink.kernel && w'.sink.ledger == w.sink.ledger
            && w'.sink.entries == w.sink.entries[k := e]
            && e.lastRaw.count == raw.count && e.lastRaw.createdNs == raw.createdNs
            && e.total.count.Plus(Get(w.drained, Lifetime(k, raw.createdNs))) ==
               Get(Buffered(w.sink.entries), k).Plus(raw.count)
  {
    var raw, life := w.sink.kernel[k], Lifetime(k, w.sink.kernel[k].createdNs);
    AbsorbReadingValid(w.sink, w.env.meta, k, raw, t);
    if k in w.sink.entries {
      e := Recaptured(w.sink.entries[k], raw);
      assert life in w.drained && w.drained[life].AtMost(raw.count);
    } else {
      CaptureBelowCap(w.sink, k, raw, t);
      e := Entry(raw, raw, t.now);
      assert life !in w.drained;
    }
  }

  lemma UnknownReading(w: World, k: FlowKey, t: Knobs)
    requires Inv(w) && Balanced(w) && k in w.sink.kernel && VMMAC(k) !in w.env.meta
    requires k in w.sink.entries || |w.sink.entries| < t.cap
    ensures Inv(AfterReading(w, k, t)) && Balanced(AfterReading(w, k, t))
    ensures AfterReading(w, k, t).sink.kernel == w.sink.kernel
    ensures AfterReading(w, k, t).sink.entries.Keys <= w.sink.entries.Keys + {k}
  {
    hide *;
    var e := UnknownBooked(w, k, t);
    var w', raw := AfterReading(w, k, t), w.sink.kernel[k];
    KeepsInvBuffer(w, w', k, e);
    BufferBalance(w.sink, w'.sink, k, e);
    StaysBalanced(w, w', Lifetime(k, raw.createdNs), raw.count, Get(Buffered(w.sink.entries), k), e.total.count);
  }

  lemma UnknownBooked(w: World, k: FlowKey, t: Knobs) returns (e: Entry)
    requires Inv(w) && k in w.sink.kernel && VMMAC(k) !in w.env.meta
    requires k in w.sink.entries || |w.sink.entries| < t.cap
    ensures w.sink.Valid()
    ensures var w', raw := AfterReading(w, k, t), w.sink.kernel[k];
            && BufferBooked(w, w', k, e)
            && w'.sink.kernel == w.sink.kernel && w'.sink.ledger == w.sink.ledger
            && w'.sink.entries == w.sink.entries[k := e]
            && w'.drained == w.drained[Lifetime(k, raw.createdNs) := raw.count]
            && e.total.count.Plus(Get(w.drained, Lifetime(k, raw.createdNs))) ==
               Get(Buffered(w.sink.entries), k).Plus(raw.count)
  {
    assert w.sink.Valid() by { hide RowBaselines, BufferBaselines, BaselineHeld, KernelGrows, NoneForgotten; }
    e := UnknownShape(w, k, t);
    hide AbsorbReading, Inv, Buffered;
  }

  // ---------------------------------------------------------------------
  // One tick
  // ---------------------------------------------------------------------

  ghost function AfterDrain(w: World, keys: seq<FlowKey>, t: Knobs): World
    requires w.sink.Valid() && forall k :: k in keys ==> k in w.sink.kernel
  {
    w.(sink := AbsorbDrain(w.sink, w.env.meta, w.sink.kernel, keys, t),
       drained := DrainedAfter(w.drained, w.sink.kernel, keys))
  }

  /** w1 has absorbed part of the drain of w: all is in order, and only flows of
      unknown VMs joined the buffer. */
  ghost predicate Draining(w: World, w1: World) {
    && Inv(w1) && Balanced(w1) && w1.env == w.env && w1.sink.kernel == w.sink.kernel
    && w1.sink.entries.Keys <= w.sink.entries.Keys + UnknownFlows(w)
  }

  lemma {:induction false} DrainKeeps(w: World, keys: seq<FlowKey>, t: Knobs)
    requires w.sink.Valid() && Draining(w, w) && forall k :: k in keys ==> k in w.sink.kernel
    requires |w.sink.entries.Keys + UnknownFlows(w)| <= t.cap
    ensures Draining(w, AfterDrain(w, keys, t))
  {
    hide AbsorbReading, Draining, AfterReading, UnknownFlows;
    if keys == [] {
      assert AfterDrain(w, keys, t) == w;
    } else {
      hide AfterDrain;
      var n := |keys| - 1;
      assert keys == keys[..n] + [keys[n]];
      DrainKeeps(w, keys[..n], t);
      var w1 := AfterDrain(w, keys[..n], t);
      ReadingKeeps(w, w1, keys[n], t);
      AfterDrainSnoc(w, keys, t);
    }
  }

  lemma AfterDrainSnoc(w: World, keys: seq<FlowKey>, t: Knobs)
    requires w.sink.Valid() && keys != [] && (forall k :: k in keys ==> k in w.sink.kernel)
    requires AfterDrain(w, keys[..|keys| - 1], t).sink.kernel == w.sink.kernel
    ensures AfterDrain(w, keys, t) == AfterReading(AfterDrain(w, keys[..|keys| - 1], t), keys[|keys| - 1], t)
  {
  }

  /** One more reading of the drain of w. */
  lemma ReadingKeeps(w: World, w1: World, k: FlowKey, t: Knobs)
    requires Draining(w, w1) && k in w.sink.kernel
    requires |w.sink.entries.Keys + UnknownFlows(w)| <= t.cap
    ensures w1.sink.Valid() && w1.sink.kernel == w.sink.kernel
    ensures Draining(w, AfterReading(w1, k, t))
  {
    DrainingFacts(w, w1);
    assert VMMAC(k) !in w.env.meta ==> k in UnknownFlows(w);
    hide AbsorbReading, Inv, Balanced, AfterReading, UnknownFlows;
    AfterReadingEnv(w1, k, t);
    if VMMAC(k) in w.env.meta {
      KnownReading(w1, k, t);
    } else {
      RoomForOne(w, w1, k, t);
      UnknownReading(w1, k, t);
    }
  }

  lemma DrainingFacts(w: World, w1: World)
    requires Draining(w, w1)
    ensures Inv(w1) && w1.sink.Valid() && w1.sink.kernel == w.sink.kernel && w1.env == w.env
  {
  }

  /** Below the cap an unknown flow finds room. */
  lemma RoomForOne(w: World, w1: World, k: FlowKey, t: Knobs)
    requires Draining(w, w1) && k in w.sink.kernel
    requires |w.sink.entries.Keys + UnknownFlows(w)| <= t.cap
    ensures VMMAC(k) in w1.env.meta || k in w1.sink.entries || |w1.sink.entries| < t.cap
  {
    hide Inv, Balanced;
    if VMMAC(k) !in w1.env.meta && k !in w1.sink.entries {
      SubsetSize(w1.sink.entries.Keys + {k}, w.sink.entries.Keys + UnknownFlows(w));
      assert |w1.sink.entries.Keys + {k}| == |w1.sink.entries| + 1;
    }
  }

  lemma AfterReadingEnv(w: World, k: FlowKey, t: Knobs)
    requires w.sink.Valid() && k in w.sink.kernel
    ensures AfterReading(w, k, t).env == w.env
  {
  }

  /** A fold-out moves a buffered total to an "unknown" row: the books agree. */
  lemma FoldOutBalance(w: S.Sink, k: FlowKey, delKernel: bool, t: Knobs)
    requires k in w.entries
    ensures Accounted(FoldOut(w, k, delKernel, t)) == Accounted(w)
  {
    hide Sum, Without;
    var e, uk := w.entries[k], UnknownKey(k);
    var w' := FoldOut(w, k, delKernel, t);
    var c := w'.ledger.counts[uk];
    TotalsSet(w.ledger.counts, uk, c);
    SumSet(Totals(w.ledger.counts), uk, c.total.count);
    BufferedDrop(w.entries, k);
    SumInsert(Buffered(w.entries - {k}), k, e.total.count);
  }

  lemma {:induction false} FoldOutAllBalance(w: S.Sink, keys: seq<FlowKey>, delKernel: bool, t: Knobs)
    requires w.Valid() && NoDup(keys) && forall k :: k in keys ==> k in w.entries
    ensures Accounted(FoldOutAll(w, keys, delKernel, t)) == Accounted(w)
  {
    if keys != [] {
      hide Accounted, FoldOut;
      var n := |keys| - 1;
      assert keys == keys[..n] + [keys[n]];
      FoldOutAllBalance(w, keys[..n], delKernel, t);
      FoldOutBalance(FoldOutAll(w, keys[..n], delKernel, t), keys[n], delKernel, t);
    }
  }

  lemma FoldOutInv(w: World, k: FlowKey, t: Knobs)
    requires Inv(w) && k in w.sink.entries && t.broken == {}
    ensures Inv(w.(sink := FoldOut(w.sink, k, true, t)))
  {
    FoldOutValid(w.sink, k, true, t);
  }

  lemma {:induction false} FoldOutAllInv(w: World, keys: seq<FlowKey>, t: Knobs)
    requires Inv(w) && NoDup(keys) && (forall k :: k in keys ==> k in w.sink.entries) && t.broken == {}
    ensures Inv(w.(sink := FoldOutAll(w.sink, keys, true, t)))
  {
    var n := |keys| - 1;
    if keys != [] {
      hide FoldOut, Inv;
      assert keys == keys[..n] + [keys[n]];
      FoldOutAllInv(w, keys[..n], t);
      FoldOutInv(w.(sink := FoldOutAll(w.sink, keys[..n], true, t)), keys[n], t);
    } else {
      FoldOutNone(w.sink, true, t);
    }
  }

  lemma RelievedInv(w: World, victims: set<FlowKey>, t: Knobs)
    requires Inv(w) && victims !! w.sink.entries.Keys
    ensures Inv(w.(sink := Relieved(w.sink, victims, t)))
  {
  }

  lemma TickKeeps(w: World, st: Step)
    requires Inv(w) && Balanced(w) && st.Tick? && Exact(w, st)
    ensures Inv(Next(w, st)) && Balanced(Next(w, st))
  {
    hide Inv, AbsorbDrain, FoldOutAll, Accounted;
    DrainKeeps(w, st.keys, st.t);
    var w1 := AfterDrain(w, st.keys, st.t);
    FoldOutAllInv(w1, st.expired, st.t);
    FoldOutAllBalance(w1.sink, st.expired, true, st.t);
    var w2 := w1.(sink := FoldOutAll(w1.sink, st.expired, true, st.t));
    RelievedInv(w2, st.victims, st.t);
    RelievedBalance(w2.sink, st.victims, st.t);
  }

  lemma RelievedBalance(w: S.Sink, victims: set<FlowKey>, t: Knobs)
    ensures Accounted(Relieved(w, victims, t)) == Accounted(w)
  {
  }

  // ---------------------------------------------------------------------
  // Folds and prunes
  // ---------------------------------------------------------------------

  /** A fold moves value from rows to buckets and creates none. */
  lemma SettleConserves(l: Ledger, mode: SettleMode, resolve: FlowKey -> Option<Owner>)
    ensures var l' := Settle(l, mode, resolve);
            Sum(Totals(l'.counts)).Plus(Sum(l'.tenantSettled)) == Sum(Totals(l.counts)).Plus(Sum(l.tenantSettled))
  {
    hide Sum, GroupFold, SettledCounts, Totals, Folded;
    GroupFoldTotal(l.tenantSettled, Folded(l.counts, resolve), ByTenant(resolve));
    FoldLeaves(l.counts, mode, resolve);
  }

  lemma FoldLeaves(counts: map<FlowKey, Counter>, mode: SettleMode, resolve: FlowKey -> Option<Owner>)
    ensures Sum(Totals(counts)) == Sum(Folded(counts, resolve)).Plus(Sum(Totals(SettledCounts(counts, mode, resolve))))
  {
    hide Sum;
    var after := Totals(SettledCounts(counts, mode, resolve));
    var rest := map k | k in counts && resolve(k).None? :: counts[k].total.count;
    SumSplit(Totals(counts), Folded(counts, resolve), rest);
    if mode == SettleEvict {
      assert after == rest;
    } else {
      var zeros := map k | k in counts && resolve(k).Some? :: ZERO;
      SumZero(zeros);
      SumSplit(after, zeros, rest);
    }
  }

  lemma PruneConserves(l: Ledger, alive: set<string>)
    ensures var l' := PruneTenants(l, alive);
            Sum(l'.tenantSettled).Plus(Sum(l'.totalSettled)) == Sum(l.tenantSettled).Plus(Sum(l.totalSettled))
  {
    hide Sum, GroupFold;
    var l' := PruneTenants(l, alive);
    SumSplit(l.tenantSettled, DeadTenants(l, alive), l'.tenantSettled);
    GroupFoldTotal(l.totalSettled, DeadTenants(l, alive), ToTotal());
  }

  lemma StepBalance(w: World, st: Step)
    requires Balanced(w) && !st.Tick? && Enabled(w, st)
    ensures Balanced(Next(w, st))
  {
    hide Sum, GroupFold, ChangedRouters, SettledCounts, Totals, Buffered, FoldOutAll;
    var l := w.sink.ledger;
    match st
    case FlushBuffer(keys, t) => FoldOutAllBalance(w.sink, keys, false, t);
    case SettleGhosts =>
      SettleConserves(l, SettleRebase, SettleResolver(w.env.routers, PickGhosts(w.env.meta)));
    case Learn(mac, _) =>
      if mac in w.env.meta {
        SettleConserves(l, SettleRebase, SettleResolver(w.env.routers, PickMac(mac, w.env.meta[mac])));
      }
    case SwapRouters(desired) =>
      SettleConserves(l, SettleRebase, SettleResolver(w.env.routers,
                                                      PickRouted(w.env.meta, ChangedRouters(w.env.routers, desired))));
    case SweepGhosts(swept, _) =>
      SettleConserves(l, SettleEvict, SettleResolver(w.env.routers, PickSwept(w.env.meta, swept)));
    case PruneTenantList(projects) => PruneConserves(l, projects + {UNKNOWN_TENANT});
    case _ =>
  }

  /** Folding in place touches no baseline. */
  lemma RebaseInv(w: World, resolve: FlowKey -> Option<Owner>, env: Env)
    requires Inv(w) && env.meta.Keys == w.env.meta.Keys
    ensures Inv(w.(sink := w.sink.(ledger := Settle(w.sink.ledger, SettleRebase, resolve)), env := env))
  {
    hide GroupFold;
  }

  lemma StepInv(w: World, st: Step)
    requires Inv(w) && !st.Tick? && Exact(w, st)
    ensures Inv(Next(w, st))
  {
    hide Inv, Settle, Counted, Swept, Learned, ChangedRouters, PruneTenants, PruneServers;
    match st
    case Packet(k, bytes, at) => PacketInv(w, k, bytes, at);
    case Learn(mac, want) => LearnInv(w, mac, want);
    case SwapRouters(desired) =>
      RebaseInv(w, SettleResolver(w.env.routers, PickRouted(w.env.meta, ChangedRouters(w.env.routers, desired))),
                w.env.(routers := desired));
    case SweepGhosts(swept, failed) => SweepInv(w, swept);
    case SettleGhosts => RebaseInv(w, SettleResolver(w.env.routers, PickGhosts(w.env.meta)), w.env);
    case MarkGhost(mac, until) => MarkInv(w, mac, until);
    case PruneServerList(servers) =>
      if servers != {} { PruneServersInv(w, servers); }
    case PruneTenantList(projects) =>
      if projects != {} { PruneTenantsInv(w, projects + {UNKNOWN_TENANT}); }
  }

  lemma MarkInv(w: World, mac: Mac, until: nat)
    requires Inv(w) && mac in w.env.meta
    ensures Inv(w.(env := w.env.(meta := w.env.meta[mac := w.env.meta[mac].(deleteAt := Some(until))])))
  {
  }

  lemma PruneServersInv(w: World, alive: set<string>)
    requires Inv(w)
    ensures Inv(w.(sink := w.sink.(ledger := PruneServers(w.sink.ledger, alive))))
  {
  }

  lemma PruneTenantsInv(w: World, alive: set<string>)
    requires Inv(w)
    ensures Inv(w.(sink := w.sink.(ledger := PruneTenants(w.sink.ledger, alive))))
  {
    hide GroupFold;
  }

  lemma PacketInv(w: World, k: FlowKey, bytes: nat, at: nat)
    requires Inv(w) && at > w.clock
    ensures Inv(w.(sink := w.sink.(kernel := Counted(w.sink.kernel, k, bytes, at)), clock := at))
  {
  }

  lemma LearnInv(w: World, mac: Mac, want: TenantMeta)
    requires Inv(w) && mac != 0
    ensures Inv(Learned(w, mac, want))
  {
    hide GroupFold;
  }

  lemma SweepInv(w: World, swept: set<Mac>)
    requires Inv(w) && forall k :: k in w.sink.entries ==> VMMAC(k) !in swept
    ensures Inv(Swept(w, swept, {}))
  {
    hide GroupFold;
    var w' := Swept(w, swept, {});
    SweepFacts(w, swept);
    hide Swept;
    assert RowInv(w') && NoneForgotten(w');
    hide RowInv, NoneForgotten;
    assert RowBaselines(w');
    assert BufferBaselines(w');
    assert BaselineHeld(w');
    assert KernelGrows(w');
  }

  /** What a sweep leaves. */
  lemma SweepFacts(w: World, swept: set<Mac>)
    ensures var w' := Swept(w, swept, {});
            && w' == w.(sink := w'.sink, env := w'.env)
            && w'.sink.entries == w.sink.entries && w'.sink.order == w.sink.order
            && (forall k :: k in w'.sink.kernel <==> k in w.sink.kernel && VMMAC(k) !in swept)
            && (forall k :: k in w'.sink.kernel ==> w'.sink.kernel[k] == w.sink.kernel[k])
            && (forall m: Mac :: m in w'.env.meta <==> m in w.env.meta && m !in swept)
            && (forall k :: k in w'.sink.ledger.counts <==>
                k in w.sink.ledger.counts && !(VMMAC(k) in swept && VMMAC(k) in w.env.meta))
            && (forall k :: k in w'.sink.ledger.counts ==> w'.sink.ledger.counts[k] == w.sink.ledger.counts[k])
  {
  }

  // ---------------------------------------------------------------------
  // Whole runs
  // ---------------------------------------------------------------------

  ghost predicate ExactRun(w: World, steps: seq<Step>)
    decreases |steps|
  {
    steps == [] || (Exact(w, steps[0]) && ExactRun(Next(w, steps[0]), steps[1..]))
  }

  lemma {:induction false} RunConserves(w: World, steps: seq<Step>)
    requires Inv(w) && Balanced(w) && ExactRun(w, steps)
    ensures ValidRun(w, steps) && Inv(Exec(w, steps)) && Balanced(Exec(w, steps))
    decreases |steps|
  {
    if steps != [] {
      hide Inv, Balanced, Next;
      var st := steps[0];
      if st.Tick? {
        TickKeeps(w, st);
      } else {
        StepInv(w, st);
        StepBalance(w, st);
      }
      RunConserves(Next(w, st), steps[1..]);
    }
  }

  /** Over every exact run from the empty state, what the books hold is the sum,
      over all kernel entry lifetimes, of the last drained count. */
  lemma ExactlyOnce(steps: seq<Step>)
    requires ExactRun(Init(), steps)
    ensures ValidRun(Init(), steps)
    ensures Accounted(Exec(Init(), steps).sink) == Sum(Exec(Init(), steps).drained)
    ensures Inv(Exec(Init(), steps))
  {
    hide Exec, ExactRun, ValidRun, Inv;
    InitConserves();
    RunConserves(Init(), steps);
  }

  /** And a clean shutdown, the buffer swept and then the ghosts folded, books all of
      it: nothing is left in the buffer. */
  lemma ShutdownExact(steps: seq<Step>, keys: seq<FlowKey>, t: Knobs)
    requires ExactRun(Init(), steps)
    ensures ValidRun(Init(), steps)
    ensures var w := Exec(Init(), steps);
            Enabled(w, FlushBuffer(keys, t)) ==>
              var w2 := GhostsSettled(Flushed(w, keys, t));
              w2.sink.entries == map[] && w2.drained == w.drained && Accounted(w2.sink) == Sum(w2.drained)
  {
    hide *;
    ExactlyOnce(steps);
    var w := Exec(Init(), steps);
    if Enabled(w, FlushBuffer(keys, t)) {
      MayFlush(w, keys, t);
      FlushExact(w, keys, t);
      GhostFoldExact(Flushed(w, keys, t));
    }
  }

  lemma MayFlush(w: World, keys: seq<FlowKey>, t: Knobs)
    requires Enabled(w, FlushBuffer(keys, t))
    ensures w.sink.Valid() && NoDup(keys) && forall k :: k in keys <==> k in w.sink.entries
  {
  }

  lemma FlushExact(w: World, keys: seq<FlowKey>, t: Knobs)
    requires w.sink.Valid() && NoDup(keys) && forall k :: k in keys <==> k in w.sink.entries
    requires Accounted(w.sink) == Sum(w.drained)
    ensures var w1 := Flushed(w, keys, t);
            w1.sink.entries == map[] && w1.drained == w.drained && Accounted(w1.sink) == Sum(w1.drained)
  {
    ShutdownKeepsBooks(w.sink, keys, t);
    hide Accounted, FoldOutAll, Sum;
  }

  lemma GhostFoldExact(w: World)
    requires Accounted(w.sink) == Sum(w.drained)
    ensures var w1 := GhostsSettled(w);
            w1.sink.entries == w.sink.entries && w1.drained == w.drained && Accounted(w1.sink) == Sum(w1.drained)
  {
    var l, resolve := w.sink.ledger, SettleResolver(w.env.routers, PickGhosts(w.env.meta));
    SettleConserves(l, SettleRebase, resolve);
    hide Sum, GroupFold, SettledCounts, Totals, Buffered;
  }

  lemma InitConserves()
    ensures Inv(Init()) && Balanced(Init())
  {
    hide Sum;
    assert Totals(map[]) == map[] && Buffered(map[]) == map[];
    SumEmpty<FlowKey>();
    SumEmpty<TenantKey>();
    SumEmpty<TotalKey>();
    SumEmpty<Lifetime>();
  }

  /** Right after a tick the last drained count of every entry still in the kernel
      is its current count: nothing counted is left outside the books. */
  lemma TickDrainsAll(w: World, st: Step, k: FlowKey)
    requires st.Tick? && Exact(w, st) && k in Next(w, st).sink.kernel && Inv(w) && Balanced(w)
    ensures var w' := Next(w, st);
            var life := Lifetime(k, w'.sink.kernel[k].createdNs);
            life in w'.drained && w'.drained[life] == w'.sink.kernel[k].count
  {
    hide AbsorbDrain, FoldOutAll, Inv, Balanced;
    DrainKeeps(w, st.keys, st.t);
    FoldOutAllKernel(AfterDrain(w, st.keys, st.t).sink, st.expired, true, st.t);
    DrainedAfterHas(w.drained, w.sink.kernel, st.keys, k);
  }

  lemma {:induction false} FoldOutAllKernel(w: S.Sink, keys: seq<FlowKey>, delKernel: bool, t: Knobs)
    requires w.Valid() && NoDup(keys) && forall k :: k in keys ==> k in w.entries
    ensures var w' := FoldOutAll(w, keys, delKernel, t);
            forall k :: k in w'.kernel ==> k in w.kernel && w'.kernel[k] == w.kernel[k]
  {
    if keys != [] {
      var n := |keys| - 1;
      assert keys == keys[..n] + [keys[n]];
      FoldOutAllKernel(w, keys[..n], delKernel, t);
    }
  }

  lemma {:induction false} DrainedAfterHas(drained: map<Lifetime, Amount>, buf: map<FlowKey, FlowMetrics>,
                                           keys: seq<FlowKey>, k: FlowKey)
    requires NoDup(keys) && (forall j :: j in keys ==> j in buf) && k in keys
    ensures var d := DrainedAfter(drained, buf, keys);
            Lifetime(k, buf[k].createdNs) in d && d[Lifetime(k, buf[k].createdNs)] == buf[k].count
  {
    var n := |keys| - 1;
    assert keys == keys[..n] + [keys[n]];
    if keys[n] != k {
      DrainedAfterHas(drained, buf, keys[..n], k);
    }
  }

  /** The shutdown drain: every buffered flow folded out with the kernel left
      alone. The buffer ends empty and not a byte is lost. */
  lemma ShutdownKeepsBooks(w: S.Sink, keys: seq<FlowKey>, t: Knobs)
    requires w.Valid() && NoDup(keys) && forall k :: k in keys <==> k in w.entries
    ensures var w' := FoldOutAll(w, keys, false, t);
            w'.entries == map[] && Accounted(w') == Accounted(w)
  {
    hide Accounted;
    FoldOutAllBalance(w, keys, false, t);
  }
}
