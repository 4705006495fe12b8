/** Where the bytes of an exact tick show up: each series rises by exactly what was
    newly drained, or folded out, under its label. */
module Attribution {
  import opened Amounts
  import opened Bpf
  import opened Options
  import opened Metadata
  import opened Billing
  import S = Sink
  import opened Series
  import opened Runs
  import opened Conservation

  /** What the kernel counted of a flow since its lifetime was last drained. */
  ghost function Newly(w: World, k: FlowKey): Amount
    requires k in w.sink.kernel
  {
    var raw := w.sink.kernel[k];
    var was := Get(w.drained, Lifetime(k, raw.createdNs));
    if was.AtMost(raw.count) then raw.count.Minus(was) else ZERO
  }

  /** What a tick has to book for a flow: what the buffer held back, and what is new. */
  ghost function Due(w: World, k: FlowKey): Amount
    requires k in w.sink.kernel
  {
    Get(Buffered(w.sink.entries), k).Plus(Newly(w, k))
  }

  /** Does a row count towards s under the labels in force? */
  ghost predicate Labels(env: Env, row: FlowKey, s: Series) { InSeries(row, RowOwner(env, row), s) }

  /** The drained flows of known VMs whose row counts towards s. */
  ghost function KnownDue(w: World, keys: seq<FlowKey>, s: Series): map<FlowKey, Amount> {
    map k | k in keys && k in w.sink.kernel && VMMAC(k) in w.env.meta && Labels(w.env, k, s) :: Due(w, k)
  }

  /** The flows folded out whose "unknown" row counts towards s. */
  ghost function FoldedDue(w: World, swept: seq<FlowKey>, s: Series): map<FlowKey, Amount> {
    map k | k in swept && k in w.sink.kernel && Labels(w.env, S.UnknownKey(k), s) :: Due(w, k)
  }

  ghost function When(b: bool, a: Amount): Amount { if b then a else ZERO }

  // ---------------------------------------------------------------------
  // One row
  // ---------------------------------------------------------------------

  lemma LiveSet(counts: map<FlowKey, Counter>, env: Env, k: FlowKey, c: Counter, s: Series)
    ensures Labels(env, k, s) ==> Live(counts[k := c], env, s) == Live(counts, env, s)[k := c.total.count]
                                  && Get(Live(counts, env, s), k) == Get(Totals(counts), k)
    ensures !Labels(env, k, s) ==> Live(counts[k := c], env, s) == Live(counts, env, s)
  {
    hide RowOwner, InSeries;
  }

  /** A row that grew by gain raises exactly the series it counts towards. */
  lemma RowRaises(l: Ledger, env: Env, k: FlowKey, c: Counter, gain: Amount, s: Series)
    requires c.total.count == Get(Totals(l.counts), k).Plus(gain)
    ensures Value(l.(counts := l.counts[k := c]), env, s) == Value(l, env, s).Plus(When(Labels(env, k, s), gain))
  {
    LiveSet(l.counts, env, k, c, s);
    var l' := l.(counts := l.counts[k := c]);
    SameAbsorbed(l, l', s);
    hide *;
    var a, b, was := Sum(Live(l.counts, env, s)), Sum(Live(l'.counts, env, s)), Get(Totals(l.counts), k);
    var up := When(Labels(env, k, s), gain);
    if Labels(env, k, s) {
      SumSet(Live(l.counts, env, s), k, c.total.count);
      Cancel(a, b, was, gain);
    } else {
      PlusZero(a);
    }
    WhenIs(Labels(env, k, s), gain);
    assert b == a.Plus(up);
    ValueIs(l, env, s);
    ValueIs(l', env, s);
    PlusSwap(a, up, Absorbed(l, s));
  }

  lemma WhenIs(b: bool, a: Amount)
    ensures When(b, a) == if b then a else ZERO
  {
  }

  lemma ValueIs(l: Ledger, env: Env, s: Series)
    ensures Value(l, env, s) == Sum(Live(l.counts, env, s)).Plus(Absorbed(l, s))
  {
    hide Sum, Live, Absorbed;
  }

  lemma SameAbsorbed(l: Ledger, l': Ledger, s: Series)
    requires l' == l.(counts := l'.counts)
    ensures Absorbed(l', s) == Absorbed(l, s)
  {
    hide Sum;
  }

  lemma Cancel(a: Amount, b: Amount, was: Amount, gain: Amount)
    requires b.Plus(was) == a.Plus(was.Plus(gain))
    ensures b == a.Plus(gain)
  {
  }

  // ---------------------------------------------------------------------
  // One reading
  // ---------------------------------------------------------------------

  /** A known VM's reading raises the series of its row by what was due. */
  lemma KnownReadingRaises(w: World, k: FlowKey, t: S.Knobs, s: Series)
    requires Inv(w) && k in w.sink.kernel && VMMAC(k) in w.env.meta
    ensures w.sink.Valid()
    ensures Exposed(AfterReading(w, k, t), s) == Exposed(w, s).Plus(When(Labels(w.env, k, s), Due(w, k)))
  {
    hide *;
    InvValid(w);
    var raw := w.sink.kernel[k];
    var c := BookedRow(w.sink, k, raw);
    DrainedAtMost(w, k);
    KnownGain(w, k);
    NewlyIs(w, k);
    var was := Get(w.drained, Lifetime(k, raw.createdNs));
    DueIs(c.total.count, was, raw.count, Get(Totals(w.sink.ledger.counts), k), Get(Buffered(w.sink.entries), k));
    AfterKnown(w, k, t, s);
    RowRaises(w.sink.ledger, w.env, k, c, Due(w, k), s);
  }

  lemma AfterKnown(w: World, k: FlowKey, t: S.Knobs, s: Series)
    requires w.sink.Valid() && k in w.sink.kernel && VMMAC(k) in w.env.meta
    ensures var l, c := w.sink.ledger, BookedRow(w.sink, k, w.sink.kernel[k]);
            && Exposed(AfterReading(w, k, t), s) == Value(l.(counts := l.counts[k := c]), w.env, s)
            && Exposed(w, s) == Value(l, w.env, s)
  {
    KnownShape(w.sink, w.env.meta, k, w.sink.kernel[k], t);
    hide S.AbsorbReading, BookedRow, Value;
  }

  /** What was drained of a lifetime never exceeds what the kernel now counts. */
  lemma DrainedAtMost(w: World, k: FlowKey)
    requires Inv(w) && k in w.sink.kernel
    ensures Get(w.drained, Lifetime(k, w.sink.kernel[k].createdNs)).AtMost(w.sink.kernel[k].count)
  {
    assert KernelGrows(w);
    hide Inv, RowInv, RowBaselines, BufferBaselines, BaselineHeld, NoneForgotten;
  }

  lemma NewlyIs(w: World, k: FlowKey)
    requires k in w.sink.kernel
    requires Get(w.drained, Lifetime(k, w.sink.kernel[k].createdNs)).AtMost(w.sink.kernel[k].count)
    ensures var was := Get(w.drained, Lifetime(k, w.sink.kernel[k].createdNs));
            Due(w, k) == Get(Buffered(w.sink.entries), k).Plus(w.sink.kernel[k].count.Minus(was))
  {
    hide Buffered, Get;
  }

  lemma DueIs(now: Amount, was: Amount, raw: Amount, row: Amount, held: Amount)
    requires was.AtMost(raw) && now.Plus(was) == row.Plus(held).Plus(raw)
    ensures now == row.Plus(held.Plus(raw.Minus(was)))
  {
  }

  /** An unknown VM's reading raises nothing, and puts what was due in the buffer. */
  lemma UnknownReadingHolds(w: World, k: FlowKey, t: S.Knobs, s: Series)
    requires Inv(w) && k in w.sink.kernel && VMMAC(k) !in w.env.meta
    requires k in w.sink.entries || |w.sink.entries| < t.cap
    ensures w.sink.Valid()
    ensures var w' := AfterReading(w, k, t);
            Exposed(w', s) == Exposed(w, s) && k in w'.sink.entries && w'.sink.entries[k].total.count == Due(w, k)
  {
    assert w.sink.Valid();
    var e := UnknownShape(w, k, t);
    var raw := w.sink.kernel[k];
    var was := Get(w.drained, Lifetime(k, raw.createdNs));
    assert was.AtMost(raw.count) && AfterReading(w, k, t).env == w.env;
    hide Inv, S.AbsorbReading, Value, Buffered;
    HeldIs(e.total.count, was, raw.count, Get(Buffered(w.sink.entries), k));
  }

  lemma HeldIs(now: Amount, was: Amount, raw: Amount, held: Amount)
    requires was.AtMost(raw) && now.Plus(was) == held.Plus(raw)
    ensures now == held.Plus(raw.Minus(was))
  {
  }

  /** A reading leaves every other flow's buffer entry and dues alone. */
  lemma ReadingElsewhere(w: World, k: FlowKey, t: S.Knobs, j: FlowKey)
    requires Inv(w) && k in w.sink.kernel && j in w.sink.kernel && j != k
    requires VMMAC(k) in w.env.meta || k in w.sink.entries || |w.sink.entries| < t.cap
    ensures w.sink.Valid()
    ensures var w' := AfterReading(w, k, t);
            && w'.sink.kernel == w.sink.kernel && Due(w', j) == Due(w, j)
            && (j in w'.sink.entries <==> j in w.sink.entries)
            && (j in w.sink.entries ==> w'.sink.entries[j] == w.sink.entries[j])
  {
    assert w.sink.Valid();
    if VMMAC(k) in w.env.meta {
      KnownShape(w.sink, w.env.meta, k, w.sink.kernel[k], t);
    } else {
      var e := UnknownShape(w, k, t);
    }
    hide Inv, S.AbsorbReading;
  }

  // ---------------------------------------------------------------------
  // One drain
  // ---------------------------------------------------------------------

  /** w1 has absorbed exactly the readings of keys, of the drain of w. */
  ghost predicate Absorbing(w: World, w1: World, keys: seq<FlowKey>, s: Series) {
    && Draining(w, w1)
    && Exposed(w1, s) == Exposed(w, s).Plus(Sum(KnownDue(w, keys, s)))
    && Held(w, w1, keys)
  }

  /** What is still due is untouched; what was due of unknown VMs is buffered. */
  ghost predicate Held(w: World, w1: World, keys: seq<FlowKey>)
    requires w1.sink.kernel == w.sink.kernel
  {
    && (forall j :: j in w.sink.kernel && j !in keys ==> Due(w1, j) == Due(w, j))
    && (forall j :: j in keys && j in w.sink.kernel && VMMAC(j) !in w.env.meta ==>
          j in w1.sink.entries && w1.sink.entries[j].total.count == Due(w, j))
  }

  lemma MakeAbsorbing(w: World, w1: World, keys: seq<FlowKey>, s: Series)
    requires Draining(w, w1) && w1.sink.kernel == w.sink.kernel && Held(w, w1, keys)
    requires Exposed(w1, s) == Exposed(w, s).Plus(Sum(KnownDue(w, keys, s)))
    ensures Absorbing(w, w1, keys, s)
  {
    hide Draining, Held, Exposed, KnownDue, Sum;
  }

  lemma AbsorbingFacts(w: World, w1: World, keys: seq<FlowKey>, s: Series)
    requires Absorbing(w, w1, keys, s)
    ensures Draining(w, w1) && w1.sink.kernel == w.sink.kernel && Held(w, w1, keys)
    ensures Exposed(w1, s) == Exposed(w, s).Plus(Sum(KnownDue(w, keys, s)))
  {
    hide Held, Exposed, KnownDue, Sum, Inv;
  }

  lemma {:induction false} DrainRaises(w: World, keys: seq<FlowKey>, t: S.Knobs, s: Series)
    requires w.sink.Valid() && Draining(w, w) && S.NoDup(keys) && forall k :: k in keys ==> k in w.sink.kernel
    requires |w.sink.entries.Keys + UnknownFlows(w)| <= t.cap
    ensures Absorbing(w, AfterDrain(w, keys, t), keys, s)
  {
    hide *;
    if keys == [] {
      NothingDrained(w, t, s);
    } else {
      var n := |keys| - 1;
      var init, k := keys[..n], keys[n];
      assert keys == init + [k];
      LastApart(keys);
      DrainKeeps(w, init, t);
      DrainRaises(w, init, t, s);
      var w1 := AfterDrain(w, init, t);
      DrainingFacts(w, w1);
      AfterDrainSnoc(w, keys, t);
      OneMoreReading(w, w1, init, k, t, s);
    }
  }

  lemma LastApart(keys: seq<FlowKey>)
    requires S.NoDup(keys) && keys != []
    ensures S.NoDup(keys[..|keys| - 1]) && keys[|keys| - 1] !in keys[..|keys| - 1]
  {
  }

  lemma NoneDue(w: World, s: Series)
    ensures KnownDue(w, [], s) == map[] && Held(w, w, [])
  {
  }

  lemma NothingDrained(w: World, t: S.Knobs, s: Series)
    requires w.sink.Valid() && Draining(w, w)
    ensures Absorbing(w, AfterDrain(w, [], t), [], s)
  {
    hide *;
    AfterNothing(w, t);
    NoneDue(w, s);
    SumEmpty<FlowKey>();
    PlusZero(Exposed(w, s));
    MakeAbsorbing(w, w, [], s);
  }

  lemma AfterNothing(w: World, t: S.Knobs)
    requires w.sink.Valid()
    ensures AfterDrain(w, [], t) == w
  {
  }

  lemma OneMoreReading(w: World, w1: World, init: seq<FlowKey>, k: FlowKey, t: S.Knobs, s: Series)
    requires Absorbing(w, w1, init, s) && k in w.sink.kernel && k !in init
    requires |w.sink.entries.Keys + UnknownFlows(w)| <= t.cap
    ensures w1.sink.Valid() && k in w1.sink.kernel
    ensures Absorbing(w, AfterReading(w1, k, t), init + [k], s)
  {
    hide *;
    AbsorbingFacts(w, w1, init, s);
    DrainingFacts(w, w1);
    var w2 := OneMoreDrained(w, w1, k, t);
    DrainingFacts(w, w2);
    RoomForOne(w, w1, k, t);
    HeldStep(w, w1, init, k, t);
    KnownDueStep(w, init, k, s);
    ReadingRaises(w, w1, init, k, t, s);
    var up := When(VMMAC(k) in w.env.meta && Labels(w.env, k, s), Due(w, k));
    PlusAssoc(Exposed(w, s), Sum(KnownDue(w, init, s)), up);
    MakeAbsorbing(w, w2, init + [k], s);
  }

  lemma ReadingRaises(w: World, w1: World, init: seq<FlowKey>, k: FlowKey, t: S.Knobs, s: Series)
    requires Inv(w1) && w1.sink.Valid() && w1.sink.kernel == w.sink.kernel && w1.env == w.env && Held(w, w1, init)
    requires k in w.sink.kernel && k !in init
    requires VMMAC(k) in w1.env.meta || k in w1.sink.entries || |w1.sink.entries| < t.cap
    ensures Exposed(AfterReading(w1, k, t), s)
            == Exposed(w1, s).Plus(When(VMMAC(k) in w.env.meta && Labels(w.env, k, s), Due(w, k)))
  {
    assert Due(w1, k) == Due(w, k) by { hide Inv, Due; }
    hide *;
    if VMMAC(k) in w.env.meta {
      KnownReadingRaises(w1, k, t, s);
    } else {
      UnknownReadingHolds(w1, k, t, s);
      WhenIs(false, Due(w, k));
      PlusZero(Exposed(w1, s));
    }
  }

  lemma OneMoreDrained(w: World, w1: World, k: FlowKey, t: S.Knobs) returns (w2: World)
    requires Draining(w, w1) && k in w.sink.kernel
    requires |w.sink.entries.Keys + UnknownFlows(w)| <= t.cap
    ensures w1.sink.Valid() && k in w1.sink.kernel && w2 == AfterReading(w1, k, t) && Draining(w, w2)
  {
    hide *;
    DrainingFacts(w, w1);
    ReadingKeeps(w, w1, k, t);
    w2 := AfterReading(w1, k, t);
  }

  lemma KnownDueStep(w: World, init: seq<FlowKey>, k: FlowKey, s: Series)
    requires k in w.sink.kernel && k !in init
    ensures Sum(KnownDue(w, init + [k], s)) ==
            Sum(KnownDue(w, init, s)).Plus(When(VMMAC(k) in w.env.meta && Labels(w.env, k, s), Due(w, k)))
  {
    hide Sum, Labels, Due;
    var a, b := KnownDue(w, init, s), KnownDue(w, init + [k], s);
    assert k in init + [k] && forall j :: j in init + [k] <==> j in init || j == k;
    if VMMAC(k) in w.env.meta && Labels(w.env, k, s) {
      assert b == a[k := Due(w, k)];
      SumInsert(a, k, Due(w, k));
    } else {
      assert b == a;
      PlusZero(Sum(a));
    }
  }

  lemma HeldStep(w: World, w1: World, init: seq<FlowKey>, k: FlowKey, t: S.Knobs)
    requires w1.sink.Valid() && w1.sink.kernel == w.sink.kernel && w1.env == w.env && Inv(w1) && Held(w, w1, init)
    requires k in w.sink.kernel && k !in init
    requires VMMAC(k) in w1.env.meta || k in w1.sink.entries || |w1.sink.entries| < t.cap
    ensures var w2 := AfterReading(w1, k, t);
            w2.sink.kernel == w.sink.kernel && Held(w, w2, init + [k])
  {
    hide AfterReading, Due, Inv;
    var w2 := AfterReading(w1, k, t);
    forall j | j in w.sink.kernel && j != k
      ensures w2.sink.kernel == w.sink.kernel && Due(w2, j) == Due(w1, j)
      ensures j in w1.sink.entries ==> j in w2.sink.entries && w2.sink.entries[j] == w1.sink.entries[j]
    {
      ReadingElsewhere(w1, k, t, j);
    }
    ReadingHere(w1, k, t);
    assert forall j :: j in init + [k] <==> j in init || j == k;
  }

  /** A reading leaves the kernel alone, and an unknown VM's due in the buffer. */
  lemma ReadingHere(w: World, k: FlowKey, t: S.Knobs)
    requires Inv(w) && w.sink.Valid() && k in w.sink.kernel
    requires VMMAC(k) in w.env.meta || k in w.sink.entries || |w.sink.entries| < t.cap
    ensures var w' := AfterReading(w, k, t);
            && w'.sink.kernel == w.sink.kernel
            && (VMMAC(k) !in w.env.meta ==> k in w'.sink.entries && w'.sink.entries[k].total.count == Due(w, k))
  {
    if VMMAC(k) in w.env.meta {
      KnownShape(w.sink, w.env.meta, k, w.sink.kernel[k], t);
    } else {
      UnknownReadingHolds(w, k, t, Total(TotalKey("", External, Ingress)));
      var e := UnknownShape(w, k, t);
    }
    hide S.AbsorbReading, Inv, Due;
  }

  // ---------------------------------------------------------------------
  // The expiry sweep
  // ---------------------------------------------------------------------

  /** The buffered totals folded out towards s. */
  ghost function FoldedTotals(w: S.Sink, env: Env, swept: seq<FlowKey>, s: Series): map<FlowKey, Amount> {
    map k | k in swept && k in w.entries && Labels(env, S.UnknownKey(k), s) :: w.entries[k].total.count
  }

  lemma FoldOutRaises(w: S.Sink, k: FlowKey, env: Env, delKernel: bool, t: S.Knobs, s: Series)
    requires k in w.entries
    ensures Value(S.FoldOut(w, k, delKernel, t).ledger, env, s)
            == Value(w.ledger, env, s).Plus(When(Labels(env, S.UnknownKey(k), s), w.entries[k].total.count))
  {
    var uk, l' := S.UnknownKey(k), S.FoldOut(w, k, delKernel, t).ledger;
    assert l' == w.ledger.(counts := w.ledger.counts[uk := l'.counts[uk]]);
    assert l'.counts[uk].total.count == Get(Totals(w.ledger.counts), uk).Plus(w.entries[k].total.count);
    hide S.FoldOut, Value, Labels;
    RowRaises(w.ledger, env, uk, l'.counts[uk], w.entries[k].total.count, s);
  }

  lemma {:induction false} FoldOutAllRaises(w: S.Sink, swept: seq<FlowKey>, env: Env, delKernel: bool, t: S.Knobs,
                                            s: Series)
    requires w.Valid() && S.NoDup(swept) && forall k :: k in swept ==> k in w.entries
    ensures Value(S.FoldOutAll(w, swept, delKernel, t).ledger, env, s)
            == Value(w.ledger, env, s).Plus(Sum(FoldedTotals(w, env, swept, s)))
  {
    if swept == [] {
      S.FoldOutNone(w, delKernel, t);
      assert FoldedTotals(w, env, swept, s) == map[];
      SumEmpty<FlowKey>();
      PlusZero(Value(w.ledger, env, s));
    } else {
      var n := |swept| - 1;
      var init, k := swept[..n], swept[n];
      assert swept == init + [k];
      var w1 := S.FoldOutAll(w, init, delKernel, t);
      FoldOutAllRaises(w, init, env, delKernel, t, s);
      S.FoldOutAllSnoc(w, init, k, delKernel, t);
      assert k in w1.entries && w1.entries[k] == w.entries[k];
      hide S.FoldOutAll, S.FoldOut, Value, Labels, FoldedTotals, Sum;
      FoldOutRaises(w1, k, env, delKernel, t, s);
      FoldedTotalsStep(w, env, init, k, s);
      PlusAssoc(Value(w.ledger, env, s), Sum(FoldedTotals(w, env, init, s)),
                When(Labels(env, S.UnknownKey(k), s), w.entries[k].total.count));
    }
  }

  lemma FoldedTotalsStep(w: S.Sink, env: Env, init: seq<FlowKey>, k: FlowKey, s: Series)
    requires k in w.entries && k !in init
    ensures Sum(FoldedTotals(w, env, init + [k], s)) ==
            Sum(FoldedTotals(w, env, init, s)).Plus(When(Labels(env, S.UnknownKey(k), s), w.entries[k].total.count))
  {
    hide Sum, Labels;
    var a, b := FoldedTotals(w, env, init, s), FoldedTotals(w, env, init + [k], s);
    assert k in init + [k] && forall j :: j in init + [k] <==> j in init || j == k;
    if Labels(env, S.UnknownKey(k), s) {
      assert b == a[k := w.entries[k].total.count];
      SumInsert(a, k, w.entries[k].total.count);
    } else {
      assert b == a;
      PlusZero(Sum(a));
    }
  }

  // ---------------------------------------------------------------------
  // The tick
  // ---------------------------------------------------------------------

  /** Over an exact tick each series rises by exactly two sums: over the drained
      flows of known VMs whose row carries its label, of what was due, and over the
      expired flows whose "unknown" row does, of the same. Nothing is booked under
      any other label. */
  lemma TickRaises(w: World, st: Step, s: Series)
    requires Inv(w) && Balanced(w) && st.Tick? && Exact(w, st)
    ensures Exposed(Next(w, st), s)
            == Exposed(w, s).Plus(Sum(KnownDue(w, st.keys, s))).Plus(Sum(FoldedDue(w, st.expired, s)))
  {
    TickFacts(w, st);
    hide *;
    var w1 := AfterDrain(w, st.keys, st.t);
    DrainKeeps(w, st.keys, st.t);
    DrainRaises(w, st.keys, st.t, s);
    AbsorbingFacts(w, w1, st.keys, s);
    DrainingFacts(w, w1);
    SweptDue(w, w1, st, s);
    FoldOutAllRaises(w1.sink, st.expired, w.env, true, st.t, s);
    TickIs(w, st, s);
  }

  /** The choices of an exact tick. */
  lemma TickFacts(w: World, st: Step)
    requires Inv(w) && Balanced(w) && st.Tick? && Exact(w, st)
    ensures w.sink.Valid() && Draining(w, w) && S.NoDup(st.keys) && (forall k :: k in st.keys <==> k in w.sink.kernel)
    ensures |w.sink.entries.Keys + UnknownFlows(w)| <= st.t.cap
    ensures S.ListsExpired(AfterDrain(w, st.keys, st.t).sink, st.expired, st.t)
    ensures S.NoDup(st.expired) && forall k :: k in st.expired ==> k in AfterDrain(w, st.keys, st.t).sink.entries
  {
    hide S.AbsorbDrain, DrainedAfter, UnknownFlows, Inv, Balanced;
    assert w.sink.Valid() by { InvValid(w); }
  }

  lemma InvValid(w: World)
    requires Inv(w)
    ensures w.sink.Valid()
  {
  }

  /** After its drain a tick only folds out and relieves the kernel. */
  lemma TickIs(w: World, st: Step, s: Series)
    requires st.Tick? && Enabled(w, st) && st.buf == w.sink.kernel && w.sink.Valid()
    requires forall k :: k in st.keys ==> k in w.sink.kernel
    ensures var w1 := AfterDrain(w, st.keys, st.t);
            && w1.sink.Valid() && S.NoDup(st.expired) && (forall k :: k in st.expired ==> k in w1.sink.entries)
            && Exposed(Next(w, st), s) == Value(S.FoldOutAll(w1.sink, st.expired, true, st.t).ledger, w.env, s)
            && Exposed(w1, s) == Value(w1.sink.ledger, w.env, s)
  {
    hide S.AbsorbDrain, S.FoldOutAll, Value;
  }

  /** What the sweep folds out is what was due of the flows it folds out. */
  lemma SweptDue(w: World, w1: World, st: Step, s: Series)
    requires Inv(w) && Balanced(w) && st.Tick? && Exact(w, st) && w.sink.Valid() && forall k :: k in st.keys <==>
               k in w.sink.kernel
    requires w1 == AfterDrain(w, st.keys, st.t) && Inv(w1) && w1.sink.kernel == w.sink.kernel && w1.env == w.env
    requires Held(w, w1, st.keys) && S.ListsExpired(w1.sink, st.expired, st.t)
    ensures FoldedTotals(w1.sink, w.env, st.expired, s) == FoldedDue(w, st.expired, s)
  {
    hide *;
    InKernel(w1);
    ExpiredAre(w1.sink, st.expired, st.t);
    forall k | k in st.expired
      ensures k in w1.sink.entries && k in w.sink.kernel && w1.sink.entries[k].total.count == Due(w, k)
    {
      StillUnknown(w, st, k);
      HeldAt(w, w1, st.keys, k);
    }
    SameFolded(w, w1, st.expired, s);
  }

  lemma ExpiredAre(w: S.Sink, swept: seq<FlowKey>, t: S.Knobs)
    requires S.ListsExpired(w, swept, t)
    ensures forall k :: k in swept ==> k in w.entries
  {
  }

  lemma HeldAt(w: World, w1: World, keys: seq<FlowKey>, k: FlowKey)
    requires w1.sink.kernel == w.sink.kernel && Held(w, w1, keys)
    requires k in keys && k in w.sink.kernel && VMMAC(k) !in w.env.meta
    ensures k in w1.sink.entries && w1.sink.entries[k].total.count == Due(w, k)
  {
  }

  lemma SameFolded(w: World, w1: World, swept: seq<FlowKey>, s: Series)
    requires forall k :: k in swept ==>
               k in w1.sink.entries && k in w.sink.kernel && w1.sink.entries[k].total.count == Due(w, k)
    ensures FoldedTotals(w1.sink, w.env, swept, s) == FoldedDue(w, swept, s)
  {
    hide Due, Labels;
  }

  lemma InKernel(w: World)
    requires Inv(w)
    ensures forall k :: k in w.sink.entries ==> k in w.sink.kernel
  {
  }

  /** After a drain only flows of unknown VMs are buffered. */
  lemma StillUnknown(w: World, st: Step, k: FlowKey)
    requires Inv(w) && Balanced(w) && st.Tick? && Exact(w, st) && w.sink.Valid() && forall k :: k in st.keys <==>
               k in w.sink.kernel
    requires k in AfterDrain(w, st.keys, st.t).sink.entries && k in st.keys
    ensures VMMAC(k) !in w.env.meta
  {
    TickFacts(w, st);
    hide *;
    if VMMAC(k) in w.env.meta {
      DrainUnbuffers(w, st.keys, st.t, k);
    }
  }

  lemma {:induction false} DrainUnbuffers(w: World, keys: seq<FlowKey>, t: S.Knobs, k: FlowKey)
    requires w.sink.Valid() && Draining(w, w) && forall j :: j in keys ==> j in w.sink.kernel
    requires |w.sink.entries.Keys + UnknownFlows(w)| <= t.cap
    requires k in keys && VMMAC(k) in w.env.meta
    ensures k !in AfterDrain(w, keys, t).sink.entries
  {
    hide *;
    var init, j := keys[..|keys| - 1], keys[|keys| - 1];
    assert keys == init + [j];
    DrainKeeps(w, init, t);
    var w1 := AfterDrain(w, init, t);
    DrainingFacts(w, w1);
    if j != k {
      DrainUnbuffers(w, init, t, k);
    }
    RoomForOne(w, w1, j, t);
    ReadingUnbuffers(w1, j, t, k);
    AfterDrainSnoc(w, keys, t);
  }

  lemma ReadingUnbuffers(w: World, j: FlowKey, t: S.Knobs, k: FlowKey)
    requires Inv(w) && j in w.sink.kernel && VMMAC(k) in w.env.meta && (j == k || k !in w.sink.entries)
    requires VMMAC(j) in w.env.meta || j in w.sink.entries || |w.sink.entries| < t.cap
    ensures w.sink.Valid() && k !in AfterReading(w, j, t).sink.entries
  {
    assert w.sink.Valid();
    if VMMAC(j) in w.env.meta {
      KnownShape(w.sink, w.env.meta, j, w.sink.kernel[j], t);
    } else {
      var e := UnknownShape(w, j, t);
    }
    hide S.AbsorbReading, Inv;
  }
}
