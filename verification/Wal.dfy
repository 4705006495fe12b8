/** The snapshot files: rotation by ordered file steps, fallback on load, and what
    any sequence of saves, failures, crashes and power losses leaves on disk. */
module Wal {
  import opened Options

  const SCHEMA_VERSION: nat := 9

  /** A file is absent, unparseable, or a snapshot of some schema version. */
  datatype File<+S> = Missing | Torn | Snap(version: nat, body: S)

  datatype Dir<+S> = Dir(tmp: File<S>, path: File<S>, bak: File<S>, quarantine: File<S>)

  datatype Parsed<+S> = Read(body: S) | NotExist | Newer | Bad

  function ReadAndParse<S>(f: File<S>): Parsed<S> {
    match f
    case Missing => NotExist
    case Torn => Bad
    case Snap(v, body) => if v > SCHEMA_VERSION then Newer else if v < 1 then Bad else Read(body)
  }

  datatype LoadResult<+S> = FromPrimary(body: S) | FromBackup(body: S) | LoadEmpty | RefusedNewer | Unreadable

  /** A newer primary is refused outright; a newer backup behind a useless primary
      is refused too, since the error carries both causes. */
  function Load<S>(d: Dir<S>): LoadResult<S> {
    match ReadAndParse(d.path)
    case Read(body) => FromPrimary(body)
    case Newer => RefusedNewer
    case primary =>
      match ReadAndParse(d.bak)
      case Read(body) => FromBackup(body)
      case Newer => RefusedNewer
      case backup => if primary == NotExist && backup == NotExist then LoadEmpty else Unreadable
  }

  // ---------------------------------------------------------------------
  // The file steps of one save
  // ---------------------------------------------------------------------

  datatype Action<+S> = TruncateTmp | FillTmp(body: S) | RotateBak | Publish

  function Touch<S>(d: Dir<S>, a: Action<S>): Dir<S> {
    match a
    case TruncateTmp => d.(tmp := Torn)
    case FillTmp(body) => d.(tmp := Snap(SCHEMA_VERSION, body))
    case RotateBak => if d.path == Missing then d else d.(bak := d.path, path := Missing)
    case Publish => d.(path := d.tmp, tmp := Missing)
  }

  function SaveActions<S>(body: S): seq<Action<S>> { [TruncateTmp, FillTmp(body), RotateBak, Publish] }

  function Replay<S>(d: Dir<S>, actions: seq<Action<S>>): Dir<S>
    decreases |actions|
  {
    if actions == [] then d else Replay(Touch(d, actions[0]), actions[1..])
  }

  function Quarantined<S>(d: Dir<S>): Dir<S> {
    if d.path == Missing then d else d.(quarantine := d.path, path := Missing)
  }

  datatype Stage = StageWrite | StageRenameBak | StageRenameCurrent | StageDirSync

  /** How many file steps are through when a stage fails. */
  function StepsBefore(stage: Stage): nat {
    match stage
    case StageWrite => 1
    case StageRenameBak => 2
    case StageRenameCurrent => 3
    case StageDirSync => 4
  }

  class WalFiles<S(==)> {
    var tmp: File<S>
    var path: File<S>
    var bak: File<S>
    var quarantine: File<S>

    function Files(): Dir<S> reads this { Dir(tmp, path, bak, quarantine) }

    /** fault is the stage that fails, if one does: the save stops there and the
        steps already taken stay. */
    method Save(body: S, fault: Option<Stage>) returns (err: Option<Stage>)
      modifies this
      ensures err == fault
      ensures Files() == Replay(old(Files()), SaveActions(body)[..if fault.Some? then StepsBefore(fault.value) else 4])
      ensures err.None? ==> path == Snap(SCHEMA_VERSION, body)
      ensures err.None? && old(path) != Missing ==> bak == old(path)
    {
      hide Replay;
      ghost var d0, actions := Files(), SaveActions(body);
      ReplayPrefixes(d0, body);
      tmp := Torn;
      if fault == Some(StageWrite) { return fault; }
      tmp := Snap(SCHEMA_VERSION, body);
      if fault == Some(StageRenameBak) { return fault; }
      if path != Missing {
        bak, path := path, Missing;
      }
      if fault == Some(StageRenameCurrent) { return fault; }
      path, tmp := tmp, Missing;
      return fault;
    }

    /** renameFails is whether the one rename does; an absent primary is no failure. */
    method Quarantine(renameFails: bool) returns (moved: bool, failed: bool)
      modifies this
      ensures failed == (old(path) != Missing && renameFails)
      ensures moved == (old(path) != Missing && !renameFails)
      ensures Files() == if moved then Quarantined(old(Files())) else old(Files())
    {
      moved, failed := false, false;
      if path == Missing {
        return;
      }
      if renameFails {
        failed := true;
        return;
      }
      quarantine, path := path, Missing;
      moved := true;
    }
  }

  lemma ReplayPrefixes<S>(d: Dir<S>, body: S)
    ensures var acts := SaveActions(body);
            var d1 := Touch(d, acts[0]);
            var d2 := Touch(d1, acts[1]);
            var d3 := Touch(d2, acts[2]);
            && Replay(d, acts[..1]) == d1 && Replay(d, acts[..2]) == d2
            && Replay(d, acts[..3]) == d3 && Replay(d, acts[..4]) == Touch(d3, acts[3])
  {
    var acts := SaveActions(body);
    assert Replay(d, acts[..0]) == d;
    hide Replay, Touch;
    ReplayNext(d, acts, 0);
    ReplayNext(d, acts, 1);
    ReplayNext(d, acts, 2);
    ReplayNext(d, acts, 3);
  }

  lemma {:induction false} ReplayNext<S>(d: Dir<S>, acts: seq<Action<S>>, n: nat)
    requires n < |acts|
    ensures Replay(d, acts[..n + 1]) == Touch(Replay(d, acts[..n]), acts[n])
    decreases n
  {
    var head := acts[..n + 1];
    if n == 0 {
      assert head[1..] == [];
    } else {
      ReplayNext(Touch(d, acts[0]), acts[1..], n - 1);
      assert head[1..] == acts[1..][..n] && acts[..n][1..] == acts[1..][..n - 1];
    }
  }
}
