/** Exactly when the lock protocol is safe, and what happens when its hypotheses fail. */
module LockExactness {
  import opened Wrappers
  import opened LockProtocol
  import opened LockSafety
  import opened LockRuns

  /** Along these steps nothing hits an assertion or an unreachable arm, and when a lock is confirmed
      and while the session is locked no screen shows the session beyond its next VBlank. */
  predicate SafeAlong(s: Session, steps: seq<Step>)
    decreases |steps|
  {
    && (s.lock.Locked? ==> SessionLeaves(s))
    && (steps != [] ==>
          && Runs(s, steps[0])
          && var s' := Next(s, steps[0]);
          && (s'.confirmed != s.confirmed ==> SessionLeaves(s'))
          && SafeAlong(s', steps[1..]))
  }

  /** Every run from `s` is safe. */
  ghost predicate Safe(s: Session) {
    forall steps :: IsRun(s, steps) ==> SafeAlong(s, steps)
  }

  lemma {:induction false} InvRunIsSafe(s: Session, steps: seq<Step>)
    requires Inv(s) && IsRun(s, steps)
    ensures SafeAlong(s, steps)
    decreases |steps|
  {
    if steps != [] {
      NextKeepsInvIff(s, steps[0]);
      ConfirmingLocks(s, steps[0]);
      InvRunIsSafe(Next(s, steps[0]), steps[1..]);
    }
  }

  lemma InvIsSafe(s: Session)
    requires Inv(s)
    ensures Safe(s)
  {
    forall steps | IsRun(s, steps) ensures SafeAlong(s, steps) {
      InvRunIsSafe(s, steps);
    }
  }

  /** From a safe state the environment can only reach safe states. */
  lemma SafeSteps(s: Session, step: Step)
    requires Safe(s) && Enabled(s, step) && Expected(s, step)
    ensures Runs(s, step) && Safe(Next(s, step))
    ensures Next(s, step).confirmed != s.confirmed ==> SessionLeaves(Next(s, step))
  {
    var one := [step];
    assert one[1..] == [];
    assert IsRun(s, one);
    assert SafeAlong(s, one);
    forall steps | IsRun(Next(s, step), steps) ensures SafeAlong(Next(s, step), steps) {
      var more := [step] + steps;
      assert more[0] == step && more[1..] == steps;
      assert IsRun(s, more);
      assert SafeAlong(s, more);
    }
  }

  // ---- An unexpected power-off ----

  function Uncovered(s: Session): set<OutputId> {
    set o <- s.outputs | s.outputs[o].lockRender == SessionRendered
  }

  /** Some output shows the session, or will from its next VBlank on. */
  predicate SessionStays(s: Session) {
    exists o <- s.outputs :: s.outputs[o].frame == SessionFrame
  }

  /** Locking while the monitors are off, with the session left on some output, and with a redraw due
      on every output not yet covered. */
  predicate LockingInTheDark(s: Session) {
    && !s.monitorsActive && s.lock.Locking? && SessionStays(s)
    && Uncovered(s) != {}
    && (forall o <- Uncovered(s) :: s.outputs[o].redraw.IsPending() && (!s.backend.Tty? ==> s.outputs[o].redraw.Queued?))
  }

  /** The uncovered outputs whose redraw is held back by a VBlank. */
  function HeldBack(s: Session): set<OutputId> {
    set o <- Uncovered(s) | s.outputs[o].redraw.WaitingForVBlank?
  }

  /** A VBlank in the dark releases a redraw that was held back. */
  lemma DarkVBlank(s: Session, o: OutputId)
    requires LockingInTheDark(s) && o in HeldBack(s)
    ensures var step := VBlankStep(o, false);
      && Enabled(s, step) && Expected(s, step) && Runs(s, step)
      && LockingInTheDark(Next(s, step))
      && Uncovered(Next(s, step)) == Uncovered(s) && HeldBack(Next(s, step)) == HeldBack(s) - {o}
  {
    var s' := Next(s, VBlankStep(o, false));
    VBlankShape(s, o, false);
    assert SessionStays(s') by {
      var p :| p in s.outputs && s.outputs[p].frame == SessionFrame;
      assert s'.outputs[p].frame == SessionFrame;
    }
    assert Uncovered(s') == Uncovered(s);
  }

  /** A redraw in the dark covers its output without drawing on it. */
  lemma DarkRedraw(s: Session, o: OutputId)
    requires LockingInTheDark(s) && o in Uncovered(s) && s.outputs[o].redraw.IsQueued()
    ensures Runs(s, RedrawStep(o, Accepted))
    ensures var s' := Next(s, RedrawStep(o, Accepted));
      && SessionStays(s')
      && Uncovered(s') == Uncovered(s) - {o}
      && if Uncovered(s') == {} then s'.confirmed == s.confirmed + [s.lock.confirmation] else LockingInTheDark(s')
  {
    var r := s.AfterRender(o, Skipped);
    assert r == s.With(o, s.outputs[o].(redraw := r.outputs[o].redraw, lockRender := LockRendered));
    assert Uncovered(r) == Uncovered(s) - {o};
    assert SessionStays(r) by {
      var p :| p in s.outputs && s.outputs[p].frame == SessionFrame;
      assert r.outputs[p].frame == SessionFrame;
    }
    AllLockedIff(r);
    var s' := Next(s, RedrawStep(o, Accepted));
    assert s' == r.SettleLock(o);
    assert s' == if Uncovered(r) == {} then r.Confirm(s.lock.confirmation) else r;
    assert Uncovered(s') == Uncovered(r);
  }

  lemma AllLockedIff(s: Session)
    ensures s.AllLocked() <==> Uncovered(s) == {}
  {
    if !s.AllLocked() {
      var p :| p in s.outputs && s.outputs[p].lockRender != LockRendered;
      assert p in Uncovered(s);
    }
  }

  /** Releasing and redrawing the uncovered outputs one by one confirms the lock over a session that
      stays on a screen. */
  lemma {:induction false} LockingInTheDarkIsUnsafe(s: Session)
    requires LockingInTheDark(s)
    ensures !Safe(s)
    decreases |Uncovered(s)|, |HeldBack(s)|
  {
    var o :| o in Uncovered(s);
    if Safe(s) {
      if s.outputs[o].redraw.WaitingForVBlank? {
        assert o in HeldBack(s);
        DarkVBlank(s, o);
        SafeSteps(s, VBlankStep(o, false));
        LockingInTheDarkIsUnsafe(Next(s, VBlankStep(o, false)));
      } else {
        var step := RedrawStep(o, Accepted);
        DarkRedraw(s, o);
        SafeSteps(s, step);
        if Uncovered(Next(s, step)) != {} {
          LockingInTheDarkIsUnsafe(Next(s, step));
        }
      }
    }
  }

  /** A wait for lock surfaces in the dark becomes a lock in the dark when its deadline fires. */
  lemma WaitingInTheDarkIsUnsafe(s: Session)
    requires !s.monitorsActive && SessionStays(s) && SynchronousWhereDue(s)
    requires s.lock.WaitingForSurfaces? && Live(s, Deadline, s.lock.deadline) && Uncovered(s) != {}
    ensures !Safe(s)
  {
    var step := DeadlineStep(s.lock.deadline);
    var s' := Next(s, step);
    assert Uncovered(s') == Uncovered(s);
    assert SessionStays(s') by {
      var o :| o in s.outputs && s.outputs[o].frame == SessionFrame;
      assert s'.outputs[o].frame == SessionFrame;
    }
    LockingInTheDarkIsUnsafe(s');
    if Safe(s) {
      SafeSteps(s, step);
    }
  }

  /** Where powering off leaves the session on a screen, on any backend, any client can then lock over
      it. */
  lemma PowerOffIsUnsafe(s: Session, blanked: set<OutputId>)
    requires Inv(s) && !Expected(s, DeactivateStep(blanked))
    ensures !Safe(s.DeactivateMonitors(blanked))
  {
    var dark := s.DeactivateMonitors(blanked);
    var o :| o in s.outputs && s.outputs[o].frame == SessionFrame && !(s.backend.Tty? && o in blanked);
    assert dark.outputs[o] == s.outputs[o];
    assert Uncovered(dark) == Uncovered(s) && o in Uncovered(dark);
    if s.lock.Locking? {
      LockingInTheDarkIsUnsafe(dark);
    } else if s.lock.WaitingForSurfaces? {
      assert Live(s, Deadline, s.lock.deadline) by { assert Awaited(s, Deadline, s.lock.deadline); }
      WaitingInTheDarkIsUnsafe(dark);
    } else {
      var step := LockStep(Request(0, 0), false);
      var waiting := Next(dark, step);
      assert dark.outputs != map[];
      assert Uncovered(waiting) == Uncovered(dark) && waiting.outputs == dark.outputs;
      WaitingInTheDarkIsUnsafe(waiting);
      if Safe(dark) {
        SafeSteps(dark, step);
      }
    }
  }

  /** A VBlank on an output that waits for an estimated one leads to a crash: the forgotten timer
      fires into an unreachable arm. */
  lemma LostTimerIsUnsafe(s: Session, o: OutputId, animating: bool)
    requires Inv(s) && s.backend.Tty? && o in s.outputs && s.outputs[o].redraw.Timer().Some?
    ensures !Safe(s.VBlank(o, animating))
  {
    LostTimerBreaksInv(s, o, animating);
    if Safe(s.VBlank(o, animating)) {
      SafeSteps(s.VBlank(o, animating), EstimatedVBlankStep(s.outputs[o].redraw.Timer().value, o, animating));
    }
  }

  /** The two hypotheses are exact: whatever state runs have led to, a step leaves every further run
      safe if and only if it meets them. */
  lemma SafeIffExpected(s: Session, step: Step)
    requires Inv(s) && Enabled(s, step)
    ensures Runs(s, step) && (Safe(Next(s, step)) <==> Expected(s, step))
  {
    NextKeepsInvIff(s, step);
    if Expected(s, step) {
      InvIsSafe(Next(s, step));
    } else if step.DeactivateStep? {
      PowerOffIsUnsafe(s, step.blanked);
    } else {
      LostTimerIsUnsafe(s, step.output, step.animating);
    }
  }

  // ---- A concrete run ----

  /** Every step is one the environment can take, and meets its hypotheses except for powering the
      monitors off. */
  predicate OnlyPowerOffUnexpected(s: Session, steps: seq<Step>)
    decreases |steps|
  {
    steps != [] ==>
      && Enabled(s, steps[0]) && Runs(s, steps[0]) && (Expected(s, steps[0]) <==> !steps[0].DeactivateStep?)
      && OnlyPowerOffUnexpected(Next(s, steps[0]), steps[1..])
  }

  /** An output appears and is drawn, the monitors are powered off, a client asks for a lock, its
      deadline fires, and the output is redrawn. */
  function LockInTheDark(request: Request): seq<Step> {
    [AddStep(0, {}), RedrawStep(0, Accepted), DeactivateStep({}), LockStep(request, false), DeadlineStep(0), RedrawStep(0, Accepted)]
  }

  /** A winit session with one output that shows the session. */
  function WinitSession(redraw: RedrawState, active: bool, lock: LockState, loop: EventLoop): Session {
    Session(Winit, map[0 := OutputState(redraw, SessionRendered, None, 1, SessionFrame, SessionFrame)], lock, active, loop, [], [])
  }

  lemma WinitDraws()
    ensures var s := Next(Start(Winit), AddStep(0, {}));
      && Runs(s, RedrawStep(0, Accepted)) && s.outputs.Keys == {0} && s.outputs[0].redraw.IsQueued()
      && Next(s, RedrawStep(0, Accepted)) == WinitSession(Idle, true, Unlocked, EventLoop(map[], 0))
  {
  }

  lemma WinitGoesDark(request: Request)
    ensures Next(WinitSession(Idle, true, Unlocked, EventLoop(map[], 0)), DeactivateStep({}))
         == WinitSession(Idle, false, Unlocked, EventLoop(map[], 0))
    ensures Next(WinitSession(Idle, false, Unlocked, EventLoop(map[], 0)), LockStep(request, false))
         == WinitSession(Idle, false, WaitingForSurfaces(request, 0), EventLoop(map[0 := Deadline], 1))
  {
    assert 0 in WinitSession(Idle, false, Unlocked, EventLoop(map[], 0)).outputs;
  }

  lemma WinitLocks(request: Request)
    ensures Next(WinitSession(Idle, false, WaitingForSurfaces(request, 0), EventLoop(map[0 := Deadline], 1)), DeadlineStep(0))
         == WinitSession(Queued, false, Locking(request), EventLoop(map[], 1))
  {
  }

  lemma WinitConfirms(request: Request)
    ensures var locking := WinitSession(Queued, false, Locking(request), EventLoop(map[], 1));
      && Runs(locking, RedrawStep(0, Accepted))
      && Next(locking, RedrawStep(0, Accepted)).confirmed == [request]
      && Next(locking, RedrawStep(0, Accepted)).outputs.Keys == {0}
      && Next(locking, RedrawStep(0, Accepted)).outputs[0].shown == SessionFrame
  {
  }

  lemma FirstStep(s: Session, steps: seq<Step>, rest: seq<Step>)
    requires steps != [] && steps[1..] == rest
    requires Enabled(s, steps[0]) && Runs(s, steps[0]) && (Expected(s, steps[0]) <==> !steps[0].DeactivateStep?)
    requires OnlyPowerOffUnexpected(Next(s, steps[0]), rest) && Completes(Next(s, steps[0]), rest)
    ensures OnlyPowerOffUnexpected(s, steps) && Completes(s, steps) && After(s, steps) == After(Next(s, steps[0]), rest)
  {
  }

  lemma DarkEnd(request: Request)
    ensures var dark := WinitSession(Idle, false, Unlocked, EventLoop(map[], 0));
      var steps := LockInTheDark(request)[3..];
      && OnlyPowerOffUnexpected(dark, steps) && Completes(dark, steps)
      && After(dark, steps).confirmed == [request] && !NoSessionVisible(After(dark, steps))
  {
    WinitGoesDark(request);
    WinitLocks(request);
    WinitConfirms(request);
    var steps := LockInTheDark(request);
    FirstStep(WinitSession(Queued, false, Locking(request), EventLoop(map[], 1)), steps[5..], []);
    FirstStep(WinitSession(Idle, false, WaitingForSurfaces(request, 0), EventLoop(map[0 := Deadline], 1)), steps[4..], steps[5..]);
    FirstStep(WinitSession(Idle, false, Unlocked, EventLoop(map[], 0)), steps[3..], steps[4..]);
  }

  /** On winit this run, in which nothing but the power-off is out of the ordinary, confirms a lock
      while the output shows the session, with nothing submitted to replace it. */
  lemma UnblankedConfirmation(request: Request)
    ensures var steps := LockInTheDark(request);
      && OnlyPowerOffUnexpected(Start(Winit), steps) && Completes(Start(Winit), steps)
      && After(Start(Winit), steps).confirmed == [request]
      && !NoSessionVisible(After(Start(Winit), steps))
  {
    WinitDraws();
    WinitGoesDark(request);
    DarkEnd(request);
    var steps, lit := LockInTheDark(request), WinitSession(Idle, true, Unlocked, EventLoop(map[], 0));
    assert lit.outputs[0].frame == SessionFrame;
    FirstStep(lit, steps[2..], steps[3..]);
    FirstStep(Next(Start(Winit), AddStep(0, {})), steps[1..], steps[2..]);
    FirstStep(Start(Winit), steps, steps[1..]);
  }
}
