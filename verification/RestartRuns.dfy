/** Runs that span several lives of the agent: it works, flushes, dies, and boots
    from that flush, over and over. */
module RestartRuns {
  import opened Amounts
  import opened Bpf
  import opened Options
  import opened Metadata
  import opened Billing
  import opened Series
  import opened Restart
  import opened Runs
  import S = Sink

  // ---------------------------------------------------------------------
  // Every label has a name
  // ---------------------------------------------------------------------

  /** Every attribution names a project, every router interface a network. */
  ghost predicate EnvNamed(env: Env) {
    Attributed(env.meta) && forall m: Mac :: m in env.routers ==> env.routers[m] != ""
  }

  ghost predicate LabelsNamed(l: Ledger) {
    && (forall t :: t in l.tenantSettled ==> t.extNet != "")
    && (forall v :: v in l.serverSettled ==> v.extNet != "")
    && (forall t :: t in l.totalSettled ==> t.extNet != "")
  }

  ghost predicate Named(w: World) { EnvNamed(w.env) && LabelsNamed(w.sink.ledger) }

  predicate NamedStep(st: Step) {
    match st
    case Learn(_, want) => want.projectId != ""
    case SwapRouters(desired) => "" !in desired.Values
    case _ => true
  }

  lemma SettleNamed(l: Ledger, mode: SettleMode, resolve: FlowKey -> Option<Owner>)
    requires LabelsNamed(l)
    requires forall k :: k in l.counts && resolve(k).Some? ==> resolve(k).value.extNet != ""
    ensures LabelsNamed(Settle(l, mode, resolve))
  {
  }

  lemma PruneNamed(l: Ledger, alive: set<string>)
    requires LabelsNamed(l)
    ensures LabelsNamed(PruneTenants(l, alive))
  {
  }

  lemma StepKeepsNamed(w: World, st: Step)
    requires RowInv(w) && Named(w) && Enabled(w, st) && NamedStep(st)
    ensures Named(Next(w, st))
  {
    var l, env := w.sink.ledger, w.env;
    match st
    case Tick(buf, keys, expired, victims, t) =>
      hide S.TickResult, S.IsTick;
      TickGrows(w.sink, env.meta, buf, keys, expired, victims, t);
    case FlushBuffer(keys, t) =>
      hide S.FoldOutAll;
      FoldOutAllGrows(w.sink, keys, false, t, env.meta);
    case Learn(mac, want) =>
      LearnKeepsNamed(w, mac, want);
    case SwapRouters(desired) =>
      hide Settle, ChangedRouters;
      PickedNamed(env, PickRouted(env.meta, ChangedRouters(env.routers, desired)));
      SettleNamed(l, SettleRebase, SettleResolver(env.routers,
                                                  PickRouted(env.meta, ChangedRouters(env.routers, desired))));
    case SweepGhosts(swept, _) =>
      hide Settle;
      PickedNamed(env, PickSwept(env.meta, swept));
      SettleNamed(l, SettleEvict, SettleResolver(env.routers, PickSwept(env.meta, swept)));
    case SettleGhosts =>
      hide Settle;
      PickedNamed(env, PickGhosts(env.meta));
      SettleNamed(l, SettleRebase, SettleResolver(env.routers, PickGhosts(env.meta)));
    case PruneTenantList(projects) =>
      hide PruneTenants;
      PruneNamed(l, projects + {UNKNOWN_TENANT});
    case _ =>
  }

  /** Any fold under the labels in force books under named labels. */
  lemma PickedNamed(env: Env, pick: FlowKey -> Option<TenantMeta>)
    requires EnvNamed(env)
    ensures forall k :: SettleResolver(env.routers, pick)(k).Some? ==>
              SettleResolver(env.routers, pick)(k).value.extNet != ""
  {
    forall k | pick(k).Some?
      ensures SettleResolver(env.routers, pick)(k).value.extNet != ""
    {
      assert |NO_EXTERNAL_NETWORK| == 4;
    }
  }

  lemma LearnKeepsNamed(w: World, mac: Mac, want: TenantMeta)
    requires Named(w) && want.projectId != ""
    ensures Named(Learned(w, mac, want))
  {
    hide Settle;
    if mac in w.env.meta {
      PickedNamed(w.env, PickMac(mac, w.env.meta[mac]));
      SettleNamed(w.sink.ledger, SettleRebase, SettleResolver(w.env.routers, PickMac(mac, w.env.meta[mac])));
    }
  }

  lemma {:induction false} RunKeepsNamed(w: World, steps: seq<Step>)
    requires RowInv(w) && Named(w) && ValidRun(w, steps) && forall st :: st in steps ==> NamedStep(st)
    ensures Named(Exec(w, steps))
    decreases |steps|
  {
    if steps != [] {
      hide Next, Enabled, RowInv, Named, NamedStep;
      StepKeepsRows(w, steps[0]);
      StepKeepsNamed(w, steps[0]);
      RunKeepsNamed(Next(w, steps[0]), steps[1..]);
    }
  }

  // ---------------------------------------------------------------------
  // Lives
  // ---------------------------------------------------------------------

  /** One life, up to the flush the next boot loads (whatever it did later is
      lost): back is that flush as read back, boot the labels the next boot comes
      up with, kernel the counters it finds, pinned or fresh. */
  datatype Life = Life(steps: seq<Step>, back: Snapshot, boot: Env, kernel: map<FlowKey, FlowMetrics>)

  /** back is what the wire returns of a flush of w. */
  ghost predicate ReadBack(w: World, back: Snapshot) {
    exists snap, wire :: IsFlush(snap, w.sink.ledger, w.env) && Encodes(snap, wire) && Decodes(wire, back)
  }

  ghost predicate IsLife(w: World, life: Life) {
    && ValidRun(w, life.steps) && (forall st :: st in life.steps ==> NamedStep(st))
    && ReadBack(Exec(w, life.steps), life.back)
    && 0 !in life.boot.meta && EnvNamed(life.boot)
  }

  ghost predicate AllSpare(steps: seq<Step>, s: Series) {
    forall st :: st in steps ==> Spares(st, s)
  }

  ghost predicate AllLivesSpare(lives: seq<Life>, s: Series) {
    forall i :: 0 <= i < |lives| ==> AllSpare(lives[i].steps, s)
  }

  /** The next boot: the buffer and its readings are gone. */
  ghost function Reborn(life: Life): World {
    World(S.Sink(Restored(life.back, life.boot), map[], [], life.kernel), life.boot, map[], 0)
  }

  ghost predicate AreLives(w: World, lives: seq<Life>)
    decreases |lives|
  {
    lives == [] || (IsLife(w, lives[0]) && AreLives(Reborn(lives[0]), lives[1..]))
  }

  ghost function After(w: World, lives: seq<Life>): World
    decreases |lives|
  {
    if lives == [] then w else After(Reborn(lives[0]), lives[1..])
  }

  /** A flush of named labels survives the wire unchanged. */
  lemma FlushIsWireSafe(w: World, snap: Snapshot)
    requires Named(w) && IsFlush(snap, w.sink.ledger, w.env)
    ensures WireSafe(snap)
  {
  }

  lemma ReadBackIsFlush(w: World, back: Snapshot)
    requires Named(w) && ReadBack(w, back)
    ensures IsFlush(back, w.sink.ledger, w.env)
  {
    hide Named, IsFlush, Encodes, Decodes, WireSafe;
    var snap, wire :| IsFlush(snap, w.sink.ledger, w.env) && Encodes(snap, wire) && Decodes(wire, back);
    FlushIsWireSafe(w, snap);
    WireRoundTrip(snap, wire, back);
  }

  /** A row left by a VM the boot no longer knows was folded, and holds nothing. */
  lemma RebornRows(back: Snapshot, l: Ledger, env: Env, boot: Env)
    requires IsFlush(back, l, env) && Attributed(env.meta) && RowsKnown(l.counts, env.meta) && 0 !in boot.meta
    ensures RowsKnown(Restored(back, boot).counts, boot.meta)
  {
    SeedInvertsFlush(back, l, env);
    var resolve := ByMap(ChangedOwners(back.records, boot));
    hide IsFlush, ByMap, ChangedOwners, KnownOwner, Seeded, GroupFold;
    forall k | k in l.counts && resolve(k).None?
      ensures VMMAC(k) in boot.meta || VMMAC(k) == 0 || l.counts[k].total.count == ZERO
    {
      RowAtBoot(back, l, env, boot, k);
      OwnerAgain(env, k);
      OwnerAgain(boot, k);
    }
  }

  lemma RebornNamed(back: Snapshot, l: Ledger, env: Env, boot: Env)
    requires IsFlush(back, l, env) && EnvNamed(env) && RowsKnown(l.counts, env.meta) && 0 !in boot.meta
             && LabelsNamed(l)
    ensures LabelsNamed(Restored(back, boot))
  {
    SeedInvertsFlush(back, l, env);
    BootFoldsUnderLabels(back, l, env, boot);
    var resolve := ByMap(ChangedOwners(back.records, boot));
    hide IsFlush, ByMap, ChangedOwners, Settle;
    forall k | k in l.counts && resolve(k).Some?
      ensures resolve(k).value.extNet != ""
    {
      assert resolve(k).value == RowOwner(env, k);
    }
    SettleNamed(l, SettleRebase, resolve);
  }

  /** One life: the next boot exposes exactly what the flush exposed, which is no
      less than what the life began with. */
  lemma LifeNeverLowers(w: World, life: Life, s: Series)
    requires RowInv(w) && Named(w) && IsLife(w, life) && AllSpare(life.steps, s)
    ensures RowInv(Reborn(life)) && Named(Reborn(life))
    ensures Exposed(Reborn(life), s) == Exposed(Exec(w, life.steps), s)
    ensures Exposed(w, s).AtMost(Exposed(Reborn(life), s))
  {
    hide Exec, ValidRun, ReadBack, Value, Restored, RowsKnown, LabelsNamed, EnvNamed, IsFlush;
    RunNeverLowers(w, life.steps, s);
    RunKeepsNamed(w, life.steps);
    var flushed := Exec(w, life.steps);
    ReadBackIsFlush(flushed, life.back);
    NamedAttributed(flushed.env);
    RebornRows(life.back, flushed.sink.ledger, flushed.env, life.boot);
    RebornNamed(life.back, flushed.sink.ledger, flushed.env, life.boot);
    RestartInvisible(life.back, flushed.sink.ledger, flushed.env, life.boot, s);
  }

  lemma NamedAttributed(env: Env)
    requires EnvNamed(env)
    ensures Attributed(env.meta)
  {
  }

  lemma {:induction false} LivesNeverLower(w: World, lives: seq<Life>, s: Series)
    requires RowInv(w) && Named(w) && AreLives(w, lives)
    requires AllLivesSpare(lives, s)
    ensures RowInv(After(w, lives)) && Named(After(w, lives))
    ensures Exposed(w, s).AtMost(Exposed(After(w, lives), s))
    decreases |lives|
  {
    if lives == [] {
      AfterNone(w, lives, s);
    } else {
      FirstLife(w, lives);
      hide *;
      var next := Reborn(lives[0]);
      FirstSpares(lives, s);
      LifeRaises(w, lives[0], s);
      LivesNeverLower(next, lives[1..], s);
      AtMostTransitive(Exposed(w, s), Exposed(next, s), Exposed(After(w, lives), s));
    }
  }

  lemma AfterNone(w: World, lives: seq<Life>, s: Series)
    requires lives == []
    ensures After(w, lives) == w && Exposed(w, s).AtMost(Exposed(w, s))
  {
    hide Exposed;
  }

  lemma FirstLife(w: World, lives: seq<Life>)
    requires AreLives(w, lives) && lives != []
    ensures IsLife(w, lives[0]) && AreLives(Reborn(lives[0]), lives[1..])
    ensures After(w, lives) == After(Reborn(lives[0]), lives[1..])
  {
    hide IsLife, Reborn;
  }

  lemma FirstSpares(lives: seq<Life>, s: Series)
    requires lives != [] && AllLivesSpare(lives, s)
    ensures AllSpare(lives[0].steps, s) && AllLivesSpare(lives[1..], s)
  {
  }

  lemma LifeRaises(w: World, life: Life, s: Series)
    requires RowInv(w) && Named(w) && IsLife(w, life) && AllSpare(life.steps, s)
    ensures RowInv(Reborn(life)) && Named(Reborn(life))
    ensures Exposed(w, s).AtMost(Exposed(Reborn(life), s))
  {
    hide *;
    LifeNeverLowers(w, life, s);
  }

  /** Over any number of lives from an empty start, however each ends and whatever
      changed while the agent was down: no series, while its tenant or server is
      on the lists pruned by, ever falls below what any earlier boot exposed. */
  lemma NeverBelowAnyFlush(lives: seq<Life>, n: nat, steps: seq<Step>, s: Series)
    requires AreLives(Init(), lives) && n <= |lives|
    requires AllLivesSpare(lives, s)
    requires ValidRun(After(Init(), lives), steps) && AllSpare(steps, s)
    ensures Exposed(After(Init(), lives[..n]), s).AtMost(Exposed(Exec(After(Init(), lives), steps), s))
  {
    hide *;
    InitHolds();
    SplitLives(Init(), lives, n);
    SplitSpares(lives, n, s);
    LivesNeverLower(Init(), lives[..n], s);
    LivesNeverLower(After(Init(), lives[..n]), lives[n..], s);
    SpareAll(steps, s);
    RunNeverLowers(After(Init(), lives), steps, s);
    AtMostTransitive(Exposed(After(Init(), lives[..n]), s), Exposed(After(Init(), lives), s),
                     Exposed(Exec(After(Init(), lives), steps), s));
  }

  lemma SplitSpares(lives: seq<Life>, n: nat, s: Series)
    requires AllLivesSpare(lives, s) && n <= |lives|
    ensures AllLivesSpare(lives[..n], s) && AllLivesSpare(lives[n..], s)
  {
    hide AllSpare;
  }

  lemma SpareAll(steps: seq<Step>, s: Series)
    requires AllSpare(steps, s)
    ensures forall st :: st in steps ==> Spares(st, s)
  {
  }

  lemma InitHolds()
    ensures RowInv(Init()) && Named(Init())
  {
  }

  lemma {:induction false} SplitLives(w: World, lives: seq<Life>, n: nat)
    requires AreLives(w, lives) && n <= |lives|
    ensures AreLives(w, lives[..n]) && AreLives(After(w, lives[..n]), lives[n..])
    ensures After(After(w, lives[..n]), lives[n..]) == After(w, lives)
    decreases |lives|
  {
    hide IsLife, Reborn;
    if n > 0 {
      SplitLives(Reborn(lives[0]), lives[1..], n - 1);
      assert lives[..n][1..] == lives[1..][..n - 1];
      assert lives[1..][n - 1..] == lives[n..];
    } else {
      assert lives[0..] == lives;
    }
  }
}
