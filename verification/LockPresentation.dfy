/** What is on the screens: when the session leaves them, and that it does not come back. */
module LockPresentation {
  import opened Wrappers
  import opened LockProtocol
  import opened LockSafety
  import opened LockRuns
  import opened LockOutcomes

  /** Over every run, the screen of an output that waits for no VBlank shows the last frame handed to
      its backend. */
  lemma ScreensAreUpToDate(backend: Backend, steps: seq<Step>)
    requires IsRun(Start(backend), steps)
    ensures Completes(Start(backend), steps)
    ensures var s := After(Start(backend), steps);
      forall o <- s.outputs :: s.outputs[o].redraw.WaitingForVBlank? || s.outputs[o].shown == s.outputs[o].frame
  {
    StartInv(backend);
    RunKeepsInv(Start(backend), steps);
  }

  // ---- One step ----

  /** Output `o` shows the session. */
  predicate Shows(s: Session, o: OutputId) {
    o in s.outputs && s.outputs[o].shown == SessionFrame
  }

  /** The step puts a submitted frame on the screen of `o`, or one that needs no VBlank. */
  predicate Presents(s: Session, step: Step, o: OutputId) {
    match step
    case VBlankStep(p, _) => p == o && o in s.outputs && s.outputs[o].redraw.WaitingForVBlank?
    case RedrawStep(p, attempt) =>
      p == o && s.monitorsActive && (if s.backend.Tty? then attempt.Undamaged? else true)
    case DeactivateStep(blanked) => s.monitorsActive && s.backend.Tty? && o in blanked
    case _ => false
  }

  /** Nothing about the screen of an output changes. */
  predicate SameScreen(a: OutputState, b: OutputState) {
    b.frame == a.frame && b.shown == a.shown && b.redraw.WaitingForVBlank? == a.redraw.WaitingForVBlank?
  }

  lemma RedrawPresents(s: Session, p: OutputId, attempt: Attempt, o: OutputId)
    requires Inv(s) && s.CanRender(p) && o in s.outputs
    ensures var s' := s.Redraw(p, attempt);
      && s'.outputs.Keys == s.outputs.Keys
      && (o != p ==> SameScreen(s.outputs[o], s'.outputs[o]))
      && s'.outputs[o].shown ==
         if Presents(s, RedrawStep(p, attempt), o) then s.CurrentFrame() else s.outputs[o].shown
  {
    var r := Rendered(s, p, attempt);
    RenderedShape(s, p, attempt);
    assert s.Redraw(p, attempt) == r.SettleLock(p);
    SettlingPresentsNothing(r, p, o);
  }

  lemma SettlingPresentsNothing(s: Session, p: OutputId, o: OutputId)
    requires p in s.outputs && o in s.outputs
    ensures var s' := s.SettleLock(p); s'.outputs.Keys == s.outputs.Keys && SameScreen(s.outputs[o], s'.outputs[o])
  {
  }

  lemma RemovalPresentsNothing(s: Session, p: OutputId, moved: set<OutputId>, uiCloses: bool, o: OutputId)
    requires p in s.outputs
    ensures var s' := s.RemoveOutput(p, moved, uiCloses);
      && s'.outputs.Keys == s.outputs.Keys - {p}
      && (o in s'.outputs ==> SameScreen(s.outputs[o], s'.outputs[o]))
  {
    var r := s.WithoutOutput(p, moved);
    QueueingPresentsNothing(s, moved - {p}, o);
    assert r.outputs.Keys == s.outputs.Keys - {p};
    ContinuingPresentsNothing(r, o);
    QueueingPresentsNothing(r.SettleRemoval(), r.outputs.Keys, o);
  }

  /** The steps that never present a frame. */
  predicate IsQuiet(step: Step) {
    !step.RedrawStep? && !step.RemoveStep? && !step.DeactivateStep? && !step.VBlankStep? && !step.AddStep?
  }

  lemma QuietStepsPresentNothing(s: Session, step: Step, o: OutputId)
    requires Runs(s, step) && IsQuiet(step)
    ensures var s' := Next(s, step);
      s'.outputs.Keys == s.outputs.Keys && (o in s.outputs ==> SameScreen(s.outputs[o], s'.outputs[o]))
  {
    match step
    case CommitStep(p, mapped) => CommitPresentsNothing(s, p, mapped, o);
    case UnlockStep => UnlockPresentsNothing(s, o);
    case _ =>
  }

  lemma QueueingPresentsNothing(s: Session, os: set<OutputId>, o: OutputId)
    ensures var s' := s.QueueRedraws(os);
      s'.outputs.Keys == s.outputs.Keys && (o in s.outputs ==> SameScreen(s.outputs[o], s'.outputs[o]))
  {
  }

  lemma ContinuingPresentsNothing(s: Session, o: OutputId)
    ensures var s' := s.MaybeContinueToLocking();
      s'.outputs.Keys == s.outputs.Keys && (o in s.outputs ==> SameScreen(s.outputs[o], s'.outputs[o]))
  {
    QueueingPresentsNothing(s, s.outputs.Keys, o);
  }

  lemma CommitPresentsNothing(s: Session, p: OutputId, mapped: bool, o: OutputId)
    requires p in s.outputs && s.outputs[p].surface.Some?
    ensures var s' := s.CommitLockSurface(p, mapped);
      s'.outputs.Keys == s.outputs.Keys && (o in s.outputs ==> SameScreen(s.outputs[o], s'.outputs[o]))
  {
    var r := s.With(p, s.outputs[p].(surface := Some(s.outputs[p].surface.value.(mapped := mapped))));
    assert r.outputs.Keys == s.outputs.Keys && (o in s.outputs ==> SameScreen(s.outputs[o], r.outputs[o]));
    ContinuingPresentsNothing(r, o);
  }

  lemma UnlockPresentsNothing(s: Session, o: OutputId)
    ensures var s' := s.UnlockRequested();
      s'.outputs.Keys == s.outputs.Keys && (o in s.outputs ==> SameScreen(s.outputs[o], s'.outputs[o]))
  {
    var u := s.Unlock();
    assert u.outputs.Keys == s.outputs.Keys && (o in s.outputs ==> SameScreen(s.outputs[o], u.outputs[o]));
  }

  /** Which outputs show the session after a step: one that gets a frame on its screen shows the session
      exactly if that frame does, and every other shows what it showed before. */
  lemma ShowsAfterIff(s: Session, step: Step, o: OutputId)
    requires Inv(s) && Enabled(s, step) && !(step.RemoveStep? && step.output == o)
    ensures Runs(s, step)
    ensures Shows(Next(s, step), o) <==>
              if !Presents(s, step, o) then Shows(s, o)
              else if step.VBlankStep? then s.outputs[o].frame == SessionFrame
              else step.RedrawStep? && o in s.outputs && !s.IsLocked()
  {
    EnabledStepsRun(s, step);
    match step
    case RedrawStep(p, attempt) => RedrawPresents(s, p, attempt, if o in s.outputs then o else p);
    case RemoveStep(p, moved, uiCloses) => RemovalPresentsNothing(s, p, moved, uiCloses, o);
    case DeactivateStep(blanked) => DeactivateShape(s, blanked);
    case VBlankStep(p, animating) => VBlankShape(s, p, animating);
    case AddStep(p, moved) => AddPresentsNothing(s, p, moved, o);
    case _ => QuietStepsPresentNothing(s, step, o);
  }

  lemma AddPresentsNothing(s: Session, p: OutputId, moved: set<OutputId>, o: OutputId)
    requires p !in s.outputs
    ensures var s' := s.AddOutput(p, moved);
      && s'.outputs.Keys == s.outputs.Keys + {p} && s'.outputs[p].shown == NeverDrawn
      && (o in s.outputs ==> SameScreen(s.outputs[o], s'.outputs[o]))
  {
  }

  // ---- The confirmation ----

  /** The step is a redraw of `o` that submits a frame, which a TTY presents at a later VBlank. */
  predicate SubmitsOnly(s: Session, step: Step, o: OutputId) {
    step.RedrawStep? && step.output == o && s.backend.Tty? && step.attempt.Accepted?
  }

  /** A step that confirms a lock leaves the session on the screen of an output if and only if that
      output shows it and either waits for a VBlank or is the one redrawn, by submitting a frame. */
  lemma ConfirmationLeavesSessionIff(s: Session, step: Step, o: OutputId)
    requires Inv(s) && Enabled(s, step) && Runs(s, step) && Next(s, step).confirmed != s.confirmed
    ensures Shows(Next(s, step), o) <==>
            Shows(s, o) && !(step.RemoveStep? && step.output == o)
            && (s.outputs[o].redraw.WaitingForVBlank? || SubmitsOnly(s, step, o))
  {
    ConfirmingSteps(s, step);
    var s' := Next(s, step);
    NextKeepsInvIff(s, step);
    ConfirmingLocks(s, step);
    if step.RemoveStep? && step.output == o {
      RemovalPresentsNothing(s, o, step.moved, step.uiCloses, o);
    } else {
      ShowsAfterIff(s, step, o);
      if Shows(s, o) && !s.outputs[o].redraw.WaitingForVBlank? {
        UncoveredIsRedrawn(s, step, o);
      }
    }
  }

  /** Only four kinds of steps confirm a lock, and a redraw does so only while locking. */
  lemma ConfirmingSteps(s: Session, step: Step)
    requires Runs(s, step) && Next(s, step).confirmed != s.confirmed
    ensures step.LockStep? || step.DeadlineStep? || step.RemoveStep? || (step.RedrawStep? && s.lock.Locking?)
  {
    match step
    case CommitStep(o, mapped) => CommitConfirmsNothing(s, o, mapped);
    case RedrawStep(o, attempt) => assert Rendered(s, o, attempt).confirmed == s.confirmed;
    case _ =>
  }

  lemma CommitConfirmsNothing(s: Session, o: OutputId, mapped: bool)
    requires o in s.outputs && s.outputs[o].surface.Some?
    ensures s.CommitLockSurface(o, mapped).confirmed == s.confirmed
  {
    var r := s.With(o, s.outputs[o].(surface := Some(s.outputs[o].surface.value.(mapped := mapped))));
    assert o in r.outputs && r.outputs != map[];
  }

  /** When a step confirms a lock, every output was covered before it, other than one it redraws or
      removes. */
  lemma OthersAreCovered(s: Session, step: Step, o: OutputId)
    requires Inv(s) && Enabled(s, step) && Runs(s, step) && Next(s, step).confirmed != s.confirmed
    requires o in s.outputs && !((step.RedrawStep? || step.RemoveStep?) && step.output == o)
    ensures s.outputs[o].lockRender == LockRendered
  {
    ConfirmingSteps(s, step);
    match step
    case RedrawStep(p, attempt) =>
      RedrawEndsLockingIff(s, p, attempt);
    case RemoveStep(p, moved, uiCloses) => RemovalCovers(s, p, moved, uiCloses, o);
    case _ =>
      assert s.outputs != map[];
  }

  lemma RemovalCovers(s: Session, p: OutputId, moved: set<OutputId>, uiCloses: bool, o: OutputId)
    requires p in s.outputs && o in s.outputs && o != p && s.RemoveOutput(p, moved, uiCloses).confirmed != s.confirmed
    ensures s.outputs[o].lockRender == LockRendered
  {
    var r := s.WithoutOutput(p, moved);
    assert o in r.outputs && r.outputs[o].lockRender == s.outputs[o].lockRender && r.outputs != map[];
  }

  /** An output that shows the session and waits for nothing is uncovered, so a lock can only be
      confirmed by redrawing that output. */
  lemma UncoveredIsRedrawn(s: Session, step: Step, o: OutputId)
    requires Inv(s) && Enabled(s, step) && Runs(s, step) && Next(s, step).confirmed != s.confirmed
    requires Shows(s, o) && !s.outputs[o].redraw.WaitingForVBlank? && !(step.RemoveStep? && step.output == o)
    ensures step.RedrawStep? && step.output == o && s.monitorsActive
    ensures Presents(s, step, o) <==> !SubmitsOnly(s, step, o)
  {
    if step.RedrawStep? && step.output == o {
      ConfirmingSteps(s, step);
      RedrawEndsLockingIff(s, o, step.attempt);
    } else {
      OthersAreCovered(s, step, o);
    }
  }

  // ---- A confirmation before the presentation ----

  /** An output appears, is drawn and presented; then a client locks, the deadline of its surfaces
      fires, and the locked frame is submitted. */
  function OrdinaryLock(request: Request): seq<Step> {
    [AddStep(0, {}), RedrawStep(0, Accepted), VBlankStep(0, false), LockStep(request, false), DeadlineStep(0), RedrawStep(0, Accepted)]
  }

  /** A TTY session with one output, its monitors on. */
  function TtySession(out: OutputState, lock: LockState, loop: EventLoop, confirmed: seq<Request>): Session {
    Session(Tty, map[0 := out], lock, true, loop, confirmed, [])
  }

  const DRAWN := OutputState(WaitingForVBlank(false), SessionRendered, None, 1, SessionFrame, NeverDrawn)
  const PRESENTED := DRAWN.(redraw := Idle, shown := SessionFrame)
  const COVERED := OutputState(WaitingForVBlank(false), LockRendered, None, 2, LockFrame, SessionFrame)

  lemma TtyDraws()
    ensures var added, step := Next(Start(Tty), AddStep(0, {})), RedrawStep(0, Accepted);
      && Enabled(added, step) && Runs(added, step)
      && Next(added, step) == TtySession(DRAWN, Unlocked, EventLoop(map[], 0), [])
    ensures Next(TtySession(DRAWN, Unlocked, EventLoop(map[], 0), []), VBlankStep(0, false))
         == TtySession(PRESENTED, Unlocked, EventLoop(map[], 0), [])
  {
  }

  lemma TtyWaits(request: Request)
    ensures Next(TtySession(PRESENTED, Unlocked, EventLoop(map[], 0), []), LockStep(request, false))
         == TtySession(PRESENTED, WaitingForSurfaces(request, 0), EventLoop(map[0 := Deadline], 1), [])
    ensures Next(TtySession(PRESENTED, WaitingForSurfaces(request, 0), EventLoop(map[0 := Deadline], 1), []), DeadlineStep(0))
         == TtySession(PRESENTED.(redraw := Queued), Locking(request), EventLoop(map[], 1), [])
  {
    assert 0 in TtySession(PRESENTED, Unlocked, EventLoop(map[], 0), []).outputs;
  }

  lemma TtyConfirms(request: Request)
    ensures Next(TtySession(PRESENTED.(redraw := Queued), Locking(request), EventLoop(map[], 1), []), RedrawStep(0, Accepted))
         == TtySession(COVERED, Locked(request), EventLoop(map[], 1), [request])
  {
  }

  lemma FirstStep(s: Session, steps: seq<Step>, rest: seq<Step>)
    requires steps != [] && steps[1..] == rest && Enabled(s, steps[0]) && Expected(s, steps[0]) && Runs(s, steps[0])
    requires IsRun(Next(s, steps[0]), rest) && Completes(Next(s, steps[0]), rest)
    ensures IsRun(s, steps) && Completes(s, steps) && After(s, steps) == After(Next(s, steps[0]), rest)
  {
  }

  lemma LockOfPresented(request: Request)
    ensures var presented, steps := TtySession(PRESENTED, Unlocked, EventLoop(map[], 0), []), OrdinaryLock(request)[3..];
      && IsRun(presented, steps) && Completes(presented, steps)
      && After(presented, steps) == TtySession(COVERED, Locked(request), EventLoop(map[], 1), [request])
  {
    TtyWaits(request);
    TtyConfirms(request);
    var steps := OrdinaryLock(request);
    FirstStep(TtySession(PRESENTED.(redraw := Queued), Locking(request), EventLoop(map[], 1), []), steps[5..], []);
    FirstStep(TtySession(PRESENTED, WaitingForSurfaces(request, 0), EventLoop(map[0 := Deadline], 1), []), steps[4..], steps[5..]);
    FirstStep(TtySession(PRESENTED, Unlocked, EventLoop(map[], 0), []), steps[3..], steps[4..]);
  }

  /** On a TTY, an ordinary lock is confirmed while the screen still shows the session: the locked frame
      has been submitted, and the VBlank that presents it has not come. */
  lemma ConfirmedBeforePresented(request: Request)
    ensures var steps := OrdinaryLock(request);
      && IsRun(Start(Tty), steps) && Completes(Start(Tty), steps)
      && var s := After(Start(Tty), steps);
      && s.confirmed == [request] && s.lock == Locked(request) && s.monitorsActive
      && Shows(s, 0) && s.outputs[0].redraw == WaitingForVBlank(false)
  {
    TtyDraws();
    LockOfPresented(request);
    var steps := OrdinaryLock(request);
    FirstStep(TtySession(DRAWN, Unlocked, EventLoop(map[], 0), []), steps[2..], steps[3..]);
    FirstStep(Next(Start(Tty), AddStep(0, {})), steps[1..], steps[2..]);
    FirstStep(Start(Tty), steps, steps[1..]);
  }

  // ---- While the session stays locked ----

  predicate NoUnlock(steps: seq<Step>) {
    forall step <- steps :: !step.UnlockStep?
  }

  predicate HasVBlank(steps: seq<Step>, o: OutputId) {
    exists step <- steps :: step.VBlankStep? && step.output == o
  }

  /** While locked, a step never puts the session on a screen, and a VBlank takes it off. */
  lemma LockedStepShowsNoMore(s: Session, step: Step, o: OutputId)
    requires Inv(s) && s.lock.Locked? && Enabled(s, step)
    ensures Runs(s, step)
    ensures Shows(Next(s, step), o) ==> Shows(s, o) && !(step.VBlankStep? && step.output == o)
  {
    EnabledStepsRun(s, step);
    if step.RemoveStep? && step.output == o {
      RemovalPresentsNothing(s, o, step.moved, step.uiCloses, o);
    } else {
      ShowsAfterIff(s, step, o);
    }
  }

  /** While the session stays locked, an output that does not show it never shows it again, and one that
      gets a VBlank stops showing it for good. */
  lemma {:induction false} SessionNeverReturns(s: Session, steps: seq<Step>, o: OutputId)
    requires Inv(s) && s.lock.Locked? && IsRun(s, steps) && NoUnlock(steps)
    ensures Completes(s, steps) && After(s, steps).lock.Locked?
    ensures Shows(After(s, steps), o) ==> Shows(s, o) && !HasVBlank(steps, o)
    decreases |steps|
  {
    if steps != [] {
      NextKeepsInvIff(s, steps[0]);
      LockedUntilUnlocked(s, steps[0]);
      LockedStepShowsNoMore(s, steps[0], o);
      SessionNeverReturns(Next(s, steps[0]), steps[1..], o);
      assert forall step <- steps :: step == steps[0] || step in steps[1..];
    }
  }

  /** Over every run, once a lock is confirmed and every output that waited for a VBlank then has had
      it, no screen shows the session for as long as it stays locked; and before that only screens
      that showed it at the confirmation do, each waiting for its VBlank. */
  lemma LockedSessionLeavesScreens(backend: Backend, before: seq<Step>, after: seq<Step>)
    requires IsRun(Start(backend), before) && Completes(Start(backend), before) && After(Start(backend), before).lock.Locked?
    requires IsRun(After(Start(backend), before), after) && NoUnlock(after)
    ensures var s := After(Start(backend), before);
      && Completes(s, after) && After(s, after).lock.Locked?
      && (forall o :: Shows(After(s, after), o) ==> Shows(s, o) && s.outputs[o].redraw.WaitingForVBlank? && !HasVBlank(after, o))
      && ((forall o <- AwaitingVBlank(s) :: HasVBlank(after, o)) ==> NoSessionVisible(After(s, after)))
  {
    StartInv(backend);
    RunKeepsInv(Start(backend), before);
    var s := After(Start(backend), before);
    SessionNeverReturns(s, after, 0);
    forall o | Shows(After(s, after), o)
      ensures Shows(s, o) && s.outputs[o].redraw.WaitingForVBlank? && !HasVBlank(after, o)
      ensures o in AwaitingVBlank(s)
    {
      SessionNeverReturns(s, after, o);
    }
    if (forall o <- AwaitingVBlank(s) :: HasVBlank(after, o)) && !NoSessionVisible(After(s, after)) {
      var o :| o in After(s, after).outputs && After(s, after).outputs[o].shown == SessionFrame;
      assert Shows(After(s, after), o);
    }
  }
}
