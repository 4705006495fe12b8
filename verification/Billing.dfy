/** The billing ledger as a value: live rows and the three settled accumulators,
    with the delta math that turns cumulative kernel readings into totals. */
module Billing {
  import opened Amounts
  import opened Bpf
  import opened Options
  import opened Metadata

  datatype Counter = Counter(total: FlowMetrics, lastRaw: FlowMetrics)

  datatype TenantKey = TenantKey(tenant: string, extNet: string, zone: ZoneCode, dir: Direction)
  datatype ServerKey = ServerKey(server: string, tenant: string, extNet: string, zone: ZoneCode, dir: Direction)
  datatype TotalKey = TotalKey(extNet: string, zone: ZoneCode, dir: Direction)

  datatype SettleMode = SettleEvict | SettleRebase

  datatype Ledger = Ledger(
    counts: map<FlowKey, Counter>,
    tenantSettled: map<TenantKey, Amount>,
    serverSettled: map<ServerKey, Amount>,
    totalSettled: map<TotalKey, Amount>)

  function Empty(): Ledger { Ledger(map[], map[], map[], map[]) }

  // ---------------------------------------------------------------------
  // Delta math on one row
  // ---------------------------------------------------------------------

  /** The increment one counter contributes; a drop in value is a reset. */
  function Delta(lastRaw: nat, current: nat): nat {
    if current >= lastRaw then current - lastRaw else current
  }

  function AddDelta(total: Amount, lastRaw: Amount, current: Amount): Amount {
    Amount(total.bytes + Delta(lastRaw.bytes, current.bytes),
           total.packets + Delta(lastRaw.packets, current.packets))
  }

  /** One row absorbing one reading (None: first sight of the key). */
  function ApplyReading(row: Option<Counter>, raw: FlowMetrics): Counter {
    match row
    case None => Counter(raw, raw)
    case Some(c) =>
      var grown :=
        if c.lastRaw.createdNs != 0 && raw.createdNs != c.lastRaw.createdNs
        then c.total.count.Plus(raw.count)
        else AddDelta(c.total.count, c.lastRaw.count, raw.count);
      Counter(FlowMetrics(grown, Max(c.total.lastSeenNs, raw.lastSeenNs), c.total.createdNs),
              FlowMetrics(raw.count, raw.lastSeenNs, raw.createdNs))
  }

  function Row(l: Ledger, k: FlowKey): Option<Counter> {
    if k in l.counts then Some(l.counts[k]) else None
  }

  function ApplyDelta(l: Ledger, k: FlowKey, raw: FlowMetrics): Ledger {
    l.(counts := l.counts[k := ApplyReading(Row(l, k), raw)])
  }

  /** Totals added without delta math; a fresh row gets no baseline. */
  function AddTotal(l: Ledger, k: FlowKey, m: FlowMetrics): Ledger {
    if k !in l.counts then l.(counts := l.counts[k := Counter(m, NO_METRICS)])
    else
      var c := l.counts[k];
      l.(counts := l.counts[k := c.(total := Grow(c.total, m))])
  }

  function Grow(t: FlowMetrics, m: FlowMetrics): FlowMetrics {
    FlowMetrics(t.count.Plus(m.count), Max(t.lastSeenNs, m.lastSeenNs), t.createdNs)
  }

  /** A late-bound flow's buffered total is booked and its baseline carried over. */
  function ResolveRow(l: Ledger, k: FlowKey, total: FlowMetrics, lastRaw: FlowMetrics): Ledger {
    if k !in l.counts then l.(counts := l.counts[k := Counter(total, lastRaw)])
    else l.(counts := l.counts[k := Counter(Grow(l.counts[k].total, total), lastRaw)])
  }

  // ---------------------------------------------------------------------
  // Folds and prunes, in closed form
  // ---------------------------------------------------------------------

  ghost function Totals(counts: map<FlowKey, Counter>): map<FlowKey, Amount> {
    map k | k in counts :: counts[k].total.count
  }

  /** The rows a fold touches, with what each is worth. */
  ghost function Folded(counts: map<FlowKey, Counter>, resolve: FlowKey -> Option<Owner>): map<FlowKey, Amount> {
    map k | k in counts && resolve(k).Some? :: counts[k].total.count
  }

  /** The folded rows that also have a server series. */
  ghost function FoldedServers(counts: map<FlowKey, Counter>, resolve: FlowKey -> Option<Owner>): map<FlowKey, Amount> {
    map k | k in counts && resolve(k).Some? && resolve(k).value.server != "" :: counts[k].total.count
  }

  const NOBODY := Owner("", "", "")

  function OwnerOr(o: Option<Owner>): Owner { if o.Some? then o.value else NOBODY }

  function TenantKeyOf(k: FlowKey, o: Owner): TenantKey { TenantKey(o.tenant, o.extNet, k.dstZone, k.direction) }

  function ServerKeyOf(k: FlowKey, o: Owner): ServerKey {
    ServerKey(o.server, o.tenant, o.extNet, k.dstZone, k.direction)
  }

  function ByTenant(resolve: FlowKey -> Option<Owner>): FlowKey -> TenantKey {
    (k: FlowKey) => TenantKeyOf(k, OwnerOr(resolve(k)))
  }

  function ByServer(resolve: FlowKey -> Option<Owner>): FlowKey -> ServerKey {
    (k: FlowKey) => ServerKeyOf(k, OwnerOr(resolve(k)))
  }

  /** A folded row leaves, or stays with an empty total and its baseline intact. */
  function Rebased(c: Counter): Counter { c.(total := c.total.(count := ZERO)) }

  ghost function SettledCounts(counts: map<FlowKey, Counter>, mode: SettleMode,
                               resolve: FlowKey -> Option<Owner>): map<FlowKey, Counter> {
    if mode == SettleEvict then map k | k in counts && resolve(k).None? :: counts[k]
    else map k | k in counts :: if resolve(k).Some? then Rebased(counts[k]) else counts[k]
  }

  ghost function Settle(l: Ledger, mode: SettleMode, resolve: FlowKey -> Option<Owner>): Ledger {
    Ledger(
      SettledCounts(l.counts, mode, resolve),
      GroupFold(l.tenantSettled, Folded(l.counts, resolve), ByTenant(resolve)),
      GroupFold(l.serverSettled, FoldedServers(l.counts, resolve), ByServer(resolve)),
      l.totalSettled)
  }

  ghost function PruneServers(l: Ledger, alive: set<string>): Ledger {
    l.(serverSettled := map k | k in l.serverSettled && k.server in alive :: l.serverSettled[k])
  }

  ghost function DeadTenants(l: Ledger, alive: set<string>): map<TenantKey, Amount> {
    map k | k in l.tenantSettled && k.tenant !in alive :: l.tenantSettled[k]
  }

  function ToTotal(): TenantKey -> TotalKey { (k: TenantKey) => TotalKey(k.extNet, k.zone, k.dir) }

  /** A dead project's buckets move up into the total tier's absorber. */
  ghost function PruneTenants(l: Ledger, alive: set<string>): Ledger {
    l.(tenantSettled := map k | k in l.tenantSettled && k.tenant in alive :: l.tenantSettled[k],
       totalSettled := GroupFold(l.totalSettled, DeadTenants(l, alive), ToTotal()))
  }

  // ---------------------------------------------------------------------
  // Delta math does not depend on the drain schedule
  // ---------------------------------------------------------------------

  /** A row fed a whole history of readings. */
  function Absorb(row: Option<Counter>, readings: seq<FlowMetrics>): (r: Option<Counter>)
    ensures readings != [] ==> r.Some?
  {
    if readings == [] then row
    else Some(ApplyReading(Absorb(row, readings[..|readings| - 1]), readings[|readings| - 1]))
  }

  /** Stamps are non-zero, never return once replaced, and within one stamp the
      counters never drop. */
  ghost predicate ValidHistory(readings: seq<FlowMetrics>) {
    && (forall i :: 0 <= i < |readings| ==> readings[i].createdNs != 0)
    && (forall i, j :: 0 <= i < j < |readings| && readings[i].createdNs == readings[j].createdNs ==>
          && readings[i].count.AtMost(readings[j].count)
          && forall m :: i < m < j ==> readings[m].createdNs == readings[i].createdNs)
  }

  /** The last reading of each kernel entry lifetime, in order. */
  function LastReadings(readings: seq<FlowMetrics>): seq<Amount> {
    if readings == [] then []
    else
      var n := |readings| - 1;
      if n > 0 && readings[n - 1].createdNs == readings[n].createdNs
      then DropLast(LastReadings(readings[..n])) + [readings[n].count]
      else LastReadings(readings[..n]) + [readings[n].count]
  }

  function DropLast<T>(s: seq<T>): seq<T> { if s == [] then [] else s[..|s| - 1] }

  function SumSeq(s: seq<Amount>): Amount {
    if s == [] then ZERO else SumSeq(s[..|s| - 1]).Plus(s[|s| - 1])
  }

  lemma SumSeqSnoc(s: seq<Amount>, x: Amount)
    ensures SumSeq(s + [x]) == SumSeq(s).Plus(x)
  {
  }

  /** A row's total is the sum, over kernel entry lifetimes, of the last reading
      of each; nothing else about the schedule of drains matters. */
  lemma {:induction false} TotalIsSumOfLastReadings(readings: seq<FlowMetrics>)
    requires ValidHistory(readings) && readings != []
    ensures var c := Absorb(None, readings).value;
            && c.total.count == SumSeq(LastReadings(readings))
            && c.lastRaw == readings[|readings| - 1]
  {
    hide *;
    var n := |readings| - 1;
    if n == 0 {
      FirstReading(readings[0]);
      assert readings == [readings[0]];
    } else {
      var init, last := readings[..n], readings[n];
      assert readings == init + [last];
      SkipKeepsHistory(readings, n);
      assert readings[..n] + readings[n + 1..] == init;
      TotalIsSumOfLastReadings(init);
      NextReading(init, last);
    }
  }

  lemma FirstReading(r: FlowMetrics)
    ensures Absorb(None, [r]) == Some(Counter(r, r)) && SumSeq(LastReadings([r])) == r.count
  {
  }

  /** One more reading either replaces the last of its lifetime or begins one. */
  lemma NextReading(init: seq<FlowMetrics>, last: FlowMetrics)
    requires init != [] && ValidHistory(init + [last])
    requires Absorb(None, init).value.total.count == SumSeq(LastReadings(init))
    requires Absorb(None, init).value.lastRaw == init[|init| - 1]
    ensures var c := Absorb(None, init + [last]).value;
            c.total.count == SumSeq(LastReadings(init + [last])) && c.lastRaw == last
  {
    var c, ls, prev := Absorb(None, init).value, LastReadings(init), init[|init| - 1];
    assert (init + [last])[..|init|] == init;
    assert Absorb(None, init + [last]).value == ApplyReading(Some(c), last);
    assert prev.createdNs != 0 && (prev.createdNs == last.createdNs ==> prev.count.AtMost(last.count)) by {
      assert (init + [last])[|init| - 1] == prev && (init + [last])[|init|] == last;
    }
    hide *;
    LastReadingsSnoc(init, last);
    EndsWithLast(init);
    SumSeqSnoc(DropLast(ls), prev.count);
    SumSeqSnoc(DropLast(ls), last.count);
    SumSeqSnoc(ls, last.count);
    DropLastRest(ls);
    NextDelta(c, last);
    if prev.createdNs == last.createdNs {
      Regrown(SumSeq(DropLast(ls)), prev.count, last.count);
    }
  }

  lemma DropLastRest<T>(s: seq<T>)
    requires s != []
    ensures DropLast(s) + [s[|s| - 1]] == s
  {
  }

  lemma Regrown(a: Amount, b: Amount, c: Amount)
    requires b.AtMost(c)
    ensures a.Plus(b).Plus(c.Minus(b)) == a.Plus(c)
  {
  }

  /** What one more reading of a known entry adds. */
  lemma NextDelta(c: Counter, raw: FlowMetrics)
    requires c.lastRaw.createdNs != 0
    requires c.lastRaw.createdNs == raw.createdNs ==> c.lastRaw.count.AtMost(raw.count)
    ensures var c' := ApplyReading(Some(c), raw);
            && c'.lastRaw == raw
            && c'.total.count == c.total.count.Plus(if c.lastRaw.createdNs == raw.createdNs
                                                    then raw.count.Minus(c.lastRaw.count) else raw.count)
  {
  }

  lemma EndsWithLast(readings: seq<FlowMetrics>)
    requires readings != []
    ensures var ls := LastReadings(readings);
            ls != [] && ls[|ls| - 1] == readings[|readings| - 1].count
  {
  }

  /** Two drain schedules of the same traffic that agree on the last reading of
      every lifetime book the same total. */
  lemma ScheduleIndependence(a: seq<FlowMetrics>, b: seq<FlowMetrics>)
    requires ValidHistory(a) && ValidHistory(b) && a != [] && b != []
    requires LastReadings(a) == LastReadings(b)
    ensures Absorb(None, a).value.total.count == Absorb(None, b).value.total.count
  {
    TotalIsSumOfLastReadings(a);
    TotalIsSumOfLastReadings(b);
  }

  /** In particular any drain but the last of a lifetime may be skipped. */
  lemma {:induction false} SkippedDrain(readings: seq<FlowMetrics>, i: nat)
    requires ValidHistory(readings)
    requires i + 1 < |readings| && readings[i].createdNs == readings[i + 1].createdNs
    ensures var skipped := readings[..i] + readings[i + 1..];
            && ValidHistory(skipped)
            && LastReadings(skipped) == LastReadings(readings)
            && Absorb(None, skipped).value.total.count == Absorb(None, readings).value.total.count
  {
    var skipped := readings[..i] + readings[i + 1..];
    SkipKeepsHistory(readings, i);
    SkipKeepsLast(readings, i);
    ScheduleIndependence(skipped, readings);
  }

  lemma SkipKeepsHistory(readings: seq<FlowMetrics>, i: nat)
    requires ValidHistory(readings) && i < |readings|
    ensures ValidHistory(readings[..i] + readings[i + 1..])
  {
  }

  lemma LastReadingsSnoc(s: seq<FlowMetrics>, x: FlowMetrics)
    ensures var ls := LastReadings(s);
            LastReadings(s + [x]) ==
            (if s != [] && s[|s| - 1].createdNs == x.createdNs then DropLast(ls) else ls) + [x.count]
  {
  }

  /** Of two adjacent readings of one lifetime only the later one shows. */
  lemma SkipAtEnd(s: seq<FlowMetrics>, x: FlowMetrics, y: FlowMetrics)
    requires x.createdNs == y.createdNs
    ensures LastReadings(s + [x] + [y]) == LastReadings(s + [y])
  {
  }

  lemma {:induction false} SkipKeepsLast(readings: seq<FlowMetrics>, i: nat)
    requires i + 1 < |readings| && readings[i].createdNs == readings[i + 1].createdNs
    ensures LastReadings(readings[..i] + readings[i + 1..]) == LastReadings(readings)
  {
    hide LastReadings;
    var n := |readings| - 1;
    var init, last := readings[..n], readings[n];
    assert readings == init + [last];
    if i + 1 < n {
      var skipped := init[..i] + init[i + 1..];
      SkipKeepsLast(init, i);
      assert readings[..i] + readings[i + 1..] == skipped + [last];
      assert skipped[|skipped| - 1] == init[n - 1];
      LastReadingsSnoc(skipped, last);
      LastReadingsSnoc(init, last);
    } else {
      assert readings == readings[..i] + [readings[i]] + [last];
      assert readings[..i] + readings[i + 1..] == readings[..i] + [last];
      SkipAtEnd(readings[..i], readings[i], last);
    }
  }

  /** Readings of one kernel entry: one non-zero stamp, counters never dropping. */
  ghost predicate OneLifetime(readings: seq<FlowMetrics>) {
    forall i, j :: 0 <= i <= j < |readings| ==>
      && readings[i].createdNs == readings[j].createdNs != 0
      && readings[i].count.AtMost(readings[j].count)
  }

  /** Within one lifetime a row's total and its baseline move together. */
  lemma {:induction false} AbsorbWithinLifetime(row: Counter, readings: seq<FlowMetrics>)
    requires OneLifetime([row.lastRaw] + readings)
    ensures var c := Absorb(Some(row), readings).value;
            && c.lastRaw == ([row.lastRaw] + readings)[|readings|]
            && row.lastRaw.count.AtMost(c.lastRaw.count)
            && c.total.count == row.total.count.Plus(c.lastRaw.count.Minus(row.lastRaw.count))
  {
    var all := [row.lastRaw] + readings;
    assert all[0] == row.lastRaw;
    if readings != [] {
      var n := |readings| - 1;
      assert all[..n + 1] == [row.lastRaw] + readings[..n];
      AbsorbWithinLifetime(row, readings[..n]);
      assert all[n + 1] == readings[n];
      assert all[n].count.AtMost(all[n + 1].count);
    }
  }

  /** Crash recovery is exact for an entry that survived: restoring the row as it
      stood at any earlier flush and applying the next drain books exactly what
      the uninterrupted run books. A restored stamp of 0 (a file from before the
      stamp existed) is as good. */
  lemma CrashRecoveryExact(row: Counter, missed: seq<FlowMetrics>, next: FlowMetrics)
    requires OneLifetime([row.lastRaw] + missed + [next])
    ensures var restored, restored0 := ApplyReading(Some(row), next),
                                       ApplyReading(Some(row.(lastRaw := row.lastRaw.(createdNs := 0))), next);
            var uninterrupted := Absorb(Some(row), missed + [next]).value;
            && restored.total.count == restored0.total.count == uninterrupted.total.count
            && restored.lastRaw == restored0.lastRaw == uninterrupted.lastRaw
  {
    hide Absorb;
    assert [row.lastRaw] + (missed + [next]) == [row.lastRaw] + missed + [next];
    AbsorbWithinLifetime(row, missed + [next]);
    var all := [row.lastRaw] + missed + [next];
    assert all[0] == row.lastRaw && all[|all| - 1] == next;
  }
}
