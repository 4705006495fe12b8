/** The snapshot files over whole runs: an agent that saves, fails part way,
    crashes between any two file steps, loses power, and boots again. */
module WalRuns {
  import opened Wal

  /** Where the agent is: not running, between saves, or inside one. */
  datatype Phase = Down | Idle | Writing | Written | Rotated | Published

  /** unsynced is every directory state since the directory was last synced: a
      power loss may fall back to any of them. saves is the history of save
      attempts, and completed the index of the last one that returned success
      (-1: none yet). */
  datatype World<+S> = World(dir: Dir<S>, unsynced: seq<Dir<S>>, phase: Phase, saves: seq<S>, completed: int)

  datatype Step<+S> =
    | BeginSave(body: S)
    | SyncTmp
    | RotateToBak
    | RenameCurrent
    | SyncDir
    | SaveFails
    | Crash
    | PowerLoss(to: nat, tmp: File<S>)
    | Boot(quarantineFails: bool)

  predicate InSave(p: Phase) { p != Down && p != Idle }

  predicate Enabled<S>(w: World<S>, st: Step<S>) {
    match st
    case BeginSave(_) => w.phase == Idle
    case SyncTmp => w.phase == Writing && w.saves != []
    case RotateToBak => w.phase == Written
    case RenameCurrent => w.phase == Rotated
    case SyncDir => w.phase == Published
    case SaveFails => InSave(w.phase)
    case Crash => w.phase != Down
    case PowerLoss(i, _) => i < |w.unsynced|
    case Boot(_) => w.phase == Down && Load(w.dir) != RefusedNewer
  }

  function Touched<S>(w: World<S>, d: Dir<S>, p: Phase): World<S> {
    w.(dir := d, unsynced := w.unsynced + [d], phase := p)
  }

  function Next<S>(w: World<S>, st: Step<S>): World<S>
    requires Enabled(w, st)
  {
    match st
    case BeginSave(body) => Touched(w, Touch(w.dir, TruncateTmp), Writing).(saves := w.saves + [body])
    case SyncTmp => Touched(w, Touch(w.dir, FillTmp(w.saves[|w.saves| - 1])), Written)
    case RotateToBak => Touched(w, Touch(w.dir, RotateBak), Rotated)
    case RenameCurrent => Touched(w, Touch(w.dir, Publish), Published)
    case SyncDir => w.(unsynced := [w.dir], phase := Idle, completed := |w.saves| - 1)
    case SaveFails => w.(phase := Idle)
    case Crash => w.(phase := Down)
    case PowerLoss(i, tmp) =>
      var d := w.unsynced[i].(tmp := tmp);
      w.(dir := d, unsynced := [d], phase := Down)
    case Boot(fails) =>
      Touched(w, if !fails && (Load(w.dir).FromBackup? || Load(w.dir).Unreadable?) then Quarantined(w.dir)
              else w.dir, Idle)
  }

  ghost predicate IsRun<S(!new)>(w: World<S>, steps: seq<Step<S>>)
    decreases |steps|
  {
    steps == [] || (Enabled(w, steps[0]) && IsRun(Next(w, steps[0]), steps[1..]))
  }

  ghost function Exec<S(!new)>(w: World<S>, steps: seq<Step<S>>): World<S>
    requires IsRun(w, steps)
    decreases |steps|
  {
    if steps == [] then w else Exec(Next(w, steps[0]), steps[1..])
  }

  /** Any disk at all, before the first save of the history. */
  predicate Start<S(==)>(w: World<S>) {
    w.unsynced == [w.dir] && !InSave(w.phase) && w.saves == [] && w.completed == -1
  }

  function SaveSteps<S>(body: S): seq<Step<S>> { [BeginSave(body), SyncTmp, RotateToBak, RenameCurrent] }

  /** One call of Save, up to any stage it may fail at, is a run of these steps:
      the directory the run reaches is the one Save leaves. */
  lemma SaveIsARun<S(!new)>(w: World<S>, body: S, n: nat)
    requires w.phase == Idle && n <= 4
    ensures IsRun(w, SaveSteps(body)[..n])
    ensures Exec(w, SaveSteps(body)[..n]).dir == Replay(w.dir, SaveActions(body)[..n])
  {
    var steps, acts := SaveSteps(body), SaveActions(body);
    var w1 := Next(w, steps[0]);
    var w2 := Next(w1, steps[1]);
    var w3 := Next(w2, steps[2]);
    SaveTail(w3, steps, acts, 3, n);
    SaveTail(w2, steps, acts, 2, n);
    SaveTail(w1, steps, acts, 1, n);
    SaveTail(w, steps, acts, 0, n);
  }

  lemma SaveTail<S(!new)>(w: World<S>, steps: seq<Step<S>>, acts: seq<Action<S>>, m: nat, n: nat)
    requires |steps| == |acts| == 4 && m < 4 && n <= 4
    requires Enabled(w, steps[m]) && Next(w, steps[m]).dir == Touch(w.dir, acts[m])
    requires m + 1 < n ==> var w' := Next(w, steps[m]);
                           IsRun(w', steps[m + 1..n]) && Exec(w', steps[m + 1..n]).dir == Replay(w'.dir, acts[m + 1..n])
    ensures m < n ==> IsRun(w, steps[m..n]) && Exec(w, steps[m..n]).dir == Replay(w.dir, acts[m..n])
  {
  }

  // ---------------------------------------------------------------------
  // The invariant
  // ---------------------------------------------------------------------

  /** f holds a save attempt no older than the last completed one. */
  ghost predicate HoldsFrom<S(!new)>(f: File<S>, saves: seq<S>, from: int) {
    exists i :: 0 <= i < |saves| && from <= i && f == Snap(SCHEMA_VERSION, saves[i])
  }

  /** The primary holds one or, while it is away, the backup does. */
  ghost predicate Recent<S(!new)>(d: Dir<S>, saves: seq<S>, from: int) {
    HoldsFrom(d.path, saves, from) || (d.path == Missing && HoldsFrom(d.bak, saves, from))
  }

  ghost predicate Inv<S(!new)>(w: World<S>) {
    && -1 <= w.completed < |w.saves|
    && (InSave(w.phase) ==> w.saves != [])
    && |w.unsynced| > 0 && (w.completed >= 0 ==> Recent(w.dir, w.saves, w.completed))
    && (w.completed >= 0 ==> forall i :: 0 <= i < |w.unsynced| ==> Recent(w.unsynced[i], w.saves, w.completed))
    && (w.phase == Written || w.phase == Rotated ==> w.dir.tmp == Snap(SCHEMA_VERSION, w.saves[|w.saves| - 1]))
    && (w.phase == Published ==> w.dir.path == Snap(SCHEMA_VERSION, w.saves[|w.saves| - 1]))
  }

  lemma HoldsLonger<S(!new)>(f: File<S>, saves: seq<S>, from: int, body: S)
    requires HoldsFrom(f, saves, from)
    ensures HoldsFrom(f, saves + [body], from)
  {
    var i :| 0 <= i < |saves| && from <= i && f == Snap(SCHEMA_VERSION, saves[i]);
    assert (saves + [body])[i] == saves[i];
  }

  lemma RecentLonger<S(!new)>(d: Dir<S>, saves: seq<S>, from: int, body: S)
    requires Recent(d, saves, from)
    ensures Recent(d, saves + [body], from)
  {
    hide HoldsFrom;
    if HoldsFrom(d.path, saves, from) {
      HoldsLonger(d.path, saves, from, body);
    } else {
      HoldsLonger(d.bak, saves, from, body);
    }
  }

  /** The latest attempt is recent whatever has completed. */
  lemma HoldsLatest<S(!new)>(saves: seq<S>, from: int)
    requires saves != [] && from < |saves|
    ensures HoldsFrom(Snap(SCHEMA_VERSION, saves[|saves| - 1]), saves, from)
  {
  }

  /** Rotating aside, or filling the scratch file, loses nothing. */
  lemma TouchKeepsRecent<S(!new)>(d: Dir<S>, a: Action<S>, saves: seq<S>, from: int)
    requires Recent(d, saves, from) && (a.Publish? ==> HoldsFrom(d.tmp, saves, from))
    ensures Recent(Touch(d, a), saves, from)
  {
  }

  /** A recent disk loads a recent save: the scan never reaches an empty start,
      an error or a refusal. */
  lemma RecentLoads<S(!new)>(d: Dir<S>, saves: seq<S>, from: int)
    requires Recent(d, saves, from)
    ensures Load(d).FromPrimary? || (Load(d).FromBackup? && d.path == Missing)
    ensures exists i :: 0 <= i < |saves| && from <= i && Load(d).body == saves[i]
  {
  }

  lemma StepKeepsInv<S(!new)>(w: World<S>, st: Step<S>)
    requires Inv(w) && Enabled(w, st)
    ensures Inv(Next(w, st))
  {
    hide HoldsFrom, Recent;
    var c := w.completed;
    match st
    case BeginSave(body) =>
      if c >= 0 {
        TouchKeepsRecent(w.dir, TruncateTmp, w.saves, c);
        RecentLonger(Touch(w.dir, TruncateTmp), w.saves, c, body);
        forall i | 0 <= i < |w.unsynced| ensures Recent(w.unsynced[i], w.saves + [body], c) {
          RecentLonger(w.unsynced[i], w.saves, c, body);
        }
      }
    case SyncTmp =>
      if c >= 0 { TouchKeepsRecent(w.dir, FillTmp(w.saves[|w.saves| - 1]), w.saves, c); }
    case RotateToBak =>
      if c >= 0 { TouchKeepsRecent(w.dir, RotateBak, w.saves, c); }
    case RenameCurrent =>
      HoldsLatest(w.saves, c);
      if c >= 0 { TouchKeepsRecent(w.dir, Publish, w.saves, c); }
    case SyncDir =>
      HoldsLatest(w.saves, |w.saves| - 1);
      PathIsRecent(w.dir, w.saves, |w.saves| - 1);
    case SaveFails =>
    case Crash =>
    case PowerLoss(i, tmp) =>
      if c >= 0 { TmpIsScratch(w.unsynced[i], tmp, w.saves, c); }
    case Boot(fails) =>
      if c >= 0 { RecentLoads(w.dir, w.saves, c); }
  }

  lemma PathIsRecent<S(!new)>(d: Dir<S>, saves: seq<S>, from: int)
    requires HoldsFrom(d.path, saves, from)
    ensures Recent(d, saves, from)
  {
  }

  lemma TmpIsScratch<S(!new)>(d: Dir<S>, tmp: File<S>, saves: seq<S>, from: int)
    requires Recent(d, saves, from)
    ensures Recent(d.(tmp := tmp), saves, from)
  {
  }

  lemma {:induction false} RunKeepsInv<S(!new)>(w: World<S>, steps: seq<Step<S>>)
    requires Inv(w) && IsRun(w, steps)
    ensures Inv(Exec(w, steps))
    decreases |steps|
  {
    if steps != [] {
      hide Inv, Next, Enabled;
      StepKeepsInv(w, steps[0]);
      RunKeepsInv(Next(w, steps[0]), steps[1..]);
    }
  }

  /** Once a save has completed, over every run: a load, from the disk as it is or
      as any power loss would leave it, gives back the last completed save or a
      later attempt, and never starts empty, fails or is refused. With no attempt
      since, it gives back exactly that save. */
  lemma LoadNeverLosesASave<S(!new)>(w0: World<S>, steps: seq<Step<S>>, d: Dir<S>)
    requires Start(w0) && IsRun(w0, steps)
    requires var w := Exec(w0, steps); w.completed >= 0 && (d == w.dir || d in w.unsynced)
    ensures var w := Exec(w0, steps);
            && (Load(d).FromPrimary? || Load(d).FromBackup?)
            && (exists i :: w.completed <= i < |w.saves| && Load(d).body == w.saves[i])
            && (w.completed == |w.saves| - 1 ==> Load(d).body == w.saves[w.completed])
  {
    hide IsRun, Exec, Recent, HoldsFrom, Load;
    RunKeepsInv(w0, steps);
    var w := Exec(w0, steps);
    RecentLoads(d, w.saves, w.completed);
    var i :| 0 <= i < |w.saves| && w.completed <= i && Load(d).body == w.saves[i];
  }

  /** A refused newer snapshot is never rotated away: the agent stays down and the
      files stay as they are, however often power is lost. */
  lemma {:induction false} NewerIsNeverTouched<S(!new)>(w: World<S>, steps: seq<Step<S>>)
    requires w.phase == Down && w.unsynced == [w.dir] && Load(w.dir) == RefusedNewer && IsRun(w, steps)
    ensures var w' := Exec(w, steps); w'.phase == Down && w'.dir.(tmp := w.dir.tmp) == w.dir
    decreases |steps|
  {
    if steps != [] {
      NewerIsNeverTouched(Next(w, steps[0]), steps[1..]);
    }
  }
}
