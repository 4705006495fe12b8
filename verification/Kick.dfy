/** The reconcile loop's scheduling: out-of-band kicks are coalesced in a one-slot
    channel, debounced, and served by the loop that also serves the ticker. */
module Kick {
  import opened Options

  datatype Trigger = TriggerTick | TriggerKick

  /** pending is the one-slot channel. settle is the debounce timer while a kick is
      waiting on it: due at dueAt, never extended past deadline. pass is the pass
      in progress; the loop receives nothing while one runs. */
  datatype Loop = Loop(pending: bool, settle: Option<Timer>, pass: Option<Trigger>)
  datatype Timer = Timer(dueAt: int, deadline: int)

  const IDLE := Loop(false, None, None)

  /** What can happen, each at an instant. window is the debounce window in force
      when a kick is received: it may be retuned at any time. */
  datatype Event =
    | Kicked(at: int)
    | KickReceived(at: int, window: int)
    | Ticked(at: int)
    | Settled(at: int)
    | PassEnded(at: int)

  /** Which receive the loop's select may take, and when a pass may end. */
  predicate Enabled(s: Loop, e: Event) {
    match e
    case Kicked(_) => true
    case KickReceived(_, _) => s.pass.None? && s.pending
    case Ticked(_) => s.pass.None?
    case Settled(t) => s.pass.None? && s.settle.Some? && s.settle.value.dueAt <= t
    case PassEnded(_) => s.pass.Some?
  }

  predicate StartsPass(e: Event) { e.Ticked? || e.Settled? || (e.KickReceived? && e.window <= 0) }

  /** A kick that restarts the debounce window. */
  predicate Debounces(e: Event) { e.KickReceived? && e.window > 0 }

  function Min(a: int, b: int): int { if a <= b then a else b }

  function Step(s: Loop, e: Event, maxWait: int): Loop {
    match e
    case Kicked(_) => s.(pending := true)
    case KickReceived(t, window) =>
      if window <= 0 then s.(pending := false, pass := Some(TriggerKick))
      else
        var deadline := if s.settle.None? then t + maxWait else s.settle.value.deadline;
        s.(pending := false, settle := Some(Timer(t + Min(window, deadline - t), deadline)))
    case Ticked(_) => s.(pass := Some(TriggerTick))
    case Settled(_) => s.(settle := None, pass := Some(TriggerKick))
    case PassEnded(_) => s.(pass := None, settle := if s.pass == Some(TriggerTick) then None else s.settle)
  }

  /** The loop after a whole run. */
  function After(run: seq<Event>, maxWait: int): Loop {
    if run == [] then IDLE else Step(After(run[..|run| - 1], maxWait), run[|run| - 1], maxWait)
  }

  ghost predicate IsRun(run: seq<Event>, maxWait: int) {
    forall i :: 0 <= i < |run| ==> Enabled(After(run[..i], maxWait), run[i])
  }

  /** The loop's own variables. */
  class KickLoop {
    const maxWait: int
    var pending: bool
    var waiting: bool
    var dueAt: int
    var deadline: int
    var pass: Option<Trigger>

    function State(): Loop reads this {
      Loop(pending, if waiting then Some(Timer(dueAt, deadline)) else None, pass)
    }

    constructor (maxWait: int)
      ensures State() == IDLE && this.maxWait == maxWait
    {
      this.maxWait := maxWait;
      pending, waiting, pass := false, false, None;
    }

    /** Callable from anywhere, never blocking: a full channel coalesces. */
    method Kick(t: int)
      modifies this
      ensures State() == Step(old(State()), Kicked(t), maxWait)
    {
      if !pending {
        pending := true;
      }
    }

    /** One turn of the select statement. */
    method Receive(e: Event)
      requires !e.Kicked? && Enabled(State(), e)
      modifies this
      ensures State() == Step(old(State()), e, maxWait)
    {
      match e {
        case Ticked(_) =>
          pass := Some(TriggerTick);
        case KickReceived(now, window) =>
          pending := false;
          if window <= 0 {
            pass := Some(TriggerKick);
          } else {
            if !waiting {
              deadline := now + maxWait;
            }
            dueAt := now + Min(window, deadline - now);
            waiting := true;
          }
        case Settled(_) =>
          waiting := false;
          pass := Some(TriggerKick);
        case PassEnded(_) =>
          if pass == Some(TriggerTick) {
            waiting := false;
          }
          pass := None;
        case Kicked(_) =>
      }
    }

    /** The whole event loop, whatever order its channels become ready in. */
    method Run(run: seq<Event>)
      requires State() == IDLE && IsRun(run, maxWait)
      modifies this
      ensures State() == After(run, maxWait)
    {
      var i := 0;
      while i < |run|
        invariant 0 <= i <= |run| && State() == After(run[..i], maxWait)
      {
        assert run[..i + 1][..i] == run[..i];
        if run[i].Kicked? {
          Kick(run[i].at);
        } else {
          Receive(run[i]);
        }
        i := i + 1;
      }
      assert run[..i] == run;
    }
  }

  // ---------------------------------------------------------------------
  // No kick is lost
  // ---------------------------------------------------------------------

  /** Some pass began after event i of the run. */
  ghost predicate PassAfter(run: seq<Event>, i: nat) {
    exists j :: i < j < |run| && StartsPass(run[j])
  }

  lemma RunPrefix(run: seq<Event>, maxWait: int)
    requires IsRun(run, maxWait) && run != []
    ensures IsRun(run[..|run| - 1], maxWait)
    ensures Enabled(After(run[..|run| - 1], maxWait), run[|run| - 1])
  {
    var init := run[..|run| - 1];
    forall i | 0 <= i < |init|
      ensures Enabled(After(init[..i], maxWait), init[i])
    {
      assert init[..i] == run[..i];
    }
  }

  /** What carries a kick: a later pass, the channel, or, between passes only, the
      timer. A kick that arrives during a pass is in the channel until it ends. */
  lemma {:induction false} KickIsCarried(run: seq<Event>, maxWait: int, i: nat)
    requires IsRun(run, maxWait) && i < |run| && run[i].Kicked?
    ensures var s := After(run, maxWait);
            PassAfter(run, i) || s.pending || (s.settle.Some? && s.pass.None?)
  {
    AfterSnoc(run, maxWait);
    var n := |run| - 1;
    if i < n {
      RunPrefix(run, maxWait);
      PassSnoc(run, i);
      hide After, IsRun, PassAfter;
      KickIsCarried(run[..n], maxWait, i);
    }
  }

  lemma PassSnoc(run: seq<Event>, i: nat)
    requires i < |run| - 1
    ensures PassAfter(run, i) <==> PassAfter(run[..|run| - 1], i) || StartsPass(run[|run| - 1])
  {
    var init := run[..|run| - 1];
    if PassAfter(run, i) {
      var j :| i < j < |run| && StartsPass(run[j]);
      assert j < |init| ==> StartsPass(init[j]);
    }
    if PassAfter(init, i) {
      var j :| i < j < |init| && StartsPass(init[j]);
      assert StartsPass(run[j]);
    }
  }

  /** Every kick is followed by a pass that starts after it, or is still in the
      channel, or still waits on the timer. */
  lemma NoKickLost(run: seq<Event>, maxWait: int, i: nat)
    requires IsRun(run, maxWait) && i < |run| && run[i].Kicked?
    ensures PassAfter(run, i) || After(run, maxWait).pending || After(run, maxWait).settle.Some?
  {
    KickIsCarried(run, maxWait, i);
  }

  // ---------------------------------------------------------------------
  // No pass without a kick
  // ---------------------------------------------------------------------

  function Kicks(run: seq<Event>): nat {
    if run == [] then 0 else Kicks(run[..|run| - 1]) + if run[|run| - 1].Kicked? then 1 else 0
  }

  /** Passes started on behalf of kicks. */
  function KickPasses(run: seq<Event>): nat {
    if run == [] then 0
    else KickPasses(run[..|run| - 1]) + if StartsPass(run[|run| - 1]) && !run[|run| - 1].Ticked? then 1 else 0
  }

  /** Coalescing only ever merges: kick passes, done or still owed, never outnumber
      the kicks. */
  lemma {:induction false} PassesAtMostKicks(run: seq<Event>, maxWait: int)
    requires IsRun(run, maxWait)
    ensures var s := After(run, maxWait);
            KickPasses(run) + (if s.pending then 1 else 0) + (if s.settle.Some? then 1 else 0) <= Kicks(run)
  {
    if run != [] {
      RunPrefix(run, maxWait);
      PassesAtMostKicks(run[..|run| - 1], maxWait);
    }
  }

  // ---------------------------------------------------------------------
  // A waiting pass is due in time
  // ---------------------------------------------------------------------

  /** f received the first kick still waiting: the timer has run ever since. */
  ghost predicate FirstWaiting(run: seq<Event>, maxWait: int, f: int) {
    && 0 <= f < |run| && Debounces(run[f])
    && After(run[..f], maxWait).settle.None?
    && forall m :: f < m <= |run| ==> After(run[..m], maxWait).settle.Some?
  }

  /** g received the latest of them. */
  ghost predicate LastDebounce(run: seq<Event>, g: int) {
    0 <= g < |run| && Debounces(run[g]) && forall m :: g < m < |run| ==> !Debounces(run[m])
  }

  lemma AfterSnoc(run: seq<Event>, maxWait: int)
    requires run != []
    ensures After(run, maxWait) == Step(After(run[..|run| - 1], maxWait), run[|run| - 1], maxWait)
  {
  }

  lemma TimerStarts(run: seq<Event>, maxWait: int)
    requires run != [] && Debounces(run[|run| - 1]) && After(run[..|run| - 1], maxWait).settle.None?
    ensures FirstWaiting(run, maxWait, |run| - 1)
  {
  }

  lemma LastDebounceKept(run: seq<Event>, g: int)
    requires run != [] && LastDebounce(run[..|run| - 1], g) && !Debounces(run[|run| - 1])
    ensures LastDebounce(run, g)
  {
  }

  lemma {:induction false} TimerExact(run: seq<Event>, maxWait: int) returns (f: int, g: int)
    requires IsRun(run, maxWait) && After(run, maxWait).settle.Some?
    ensures FirstWaiting(run, maxWait, f) && LastDebounce(run, g) && f <= g
    ensures After(run, maxWait).settle.value
         == Timer(Min(run[g].at + run[g].window, run[f].at + maxWait), run[f].at + maxWait)
    decreases |run|
  {
    var n := |run| - 1;
    assert run != [];
    hide After, IsRun;
    AfterSnoc(run, maxWait);
    RunPrefix(run, maxWait);
    if Debounces(run[n]) && After(run[..n], maxWait).settle.None? {
      TimerStarts(run, maxWait);
      f, g := n, n;
    } else {
      f, g := TimerExact(run[..n], maxWait);
      TimerKept(run, maxWait, f);
      if Debounces(run[n]) {
        g := n;
      } else {
        LastDebounceKept(run, g);
      }
    }
  }

  lemma TimerKept(run: seq<Event>, maxWait: int, f: int)
    requires run != [] && FirstWaiting(run[..|run| - 1], maxWait, f) && After(run, maxWait).settle.Some?
    ensures FirstWaiting(run, maxWait, f)
  {
    hide After;
    var n := |run| - 1;
    assert run[..n][..f] == run[..f];
    forall m | f < m <= |run|
      ensures After(run[..m], maxWait).settle.Some?
    {
      if m <= n {
        assert run[..n][..m] == run[..m];
      } else {
        assert run[..m] == run;
      }
    }
  }

  /** However many kicks follow and however the window is retuned, a waiting pass
      is due when the window after the latest kick runs out, and no later than
      maxWait after the loop received the first kick still waiting; once due, the
      idle loop may start it. */
  lemma DueByDeadline(run: seq<Event>, maxWait: int, now: int)
    requires IsRun(run, maxWait) && After(run, maxWait).settle.Some?
    ensures exists f, g :: FirstWaiting(run, maxWait, f) && LastDebounce(run, g)
              && After(run, maxWait).settle.value.dueAt == Min(run[g].at + run[g].window, run[f].at + maxWait)
              && (run[f].at + maxWait <= now && After(run, maxWait).pass.None? ==>
                  Enabled(After(run, maxWait), Settled(now)))
  {
    var f, g := TimerExact(run, maxWait);
  }
}
