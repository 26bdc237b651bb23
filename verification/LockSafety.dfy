/** What every run of the lock protocol keeps. */
module LockSafety {
  import opened Wrappers
  import opened LockProtocol

  /** An output recorded as locked has been handed something else than the session, and so has a dark
      one; and what was handed to an output is on its screen, unless it waits for a VBlank. */
  predicate Honest(s: Session) {
    && (forall o <- s.outputs :: s.outputs[o].lockRender == LockRendered ==> s.outputs[o].frame != SessionFrame)
    && (!s.monitorsActive ==> forall o <- s.outputs :: s.outputs[o].frame != SessionFrame)
    && (forall o <- s.outputs :: s.outputs[o].redraw.WaitingForVBlank? || s.outputs[o].shown == s.outputs[o].frame)
  }

  predicate Live(s: Session, timer: Timer, t: Token) {
    t in s.loop.timers && s.loop.timers[t] == timer
  }

  predicate Awaited(s: Session, timer: Timer, t: Token) {
    match timer
    case Deadline => s.lock.WaitingForSurfaces? && s.lock.deadline == t
    case EstimatedVBlank(o) => o in s.outputs && s.outputs[o].redraw.Timer() == Some(t)
  }

  /** A timer is live exactly while the lock or the output it belongs to waits for it. */
  ghost predicate TimersExact(s: Session) {
    && (forall t <- s.loop.timers :: t < s.loop.next)
    && (forall timer: Timer, t: Token :: Live(s, timer, t) <==> Awaited(s, timer, t))
  }

  /** While locking, some redraw is due, and one is due on every output not yet locked. */
  predicate Progressing(s: Session) {
    s.lock.Locking? ==>
      && (exists o <- s.outputs :: s.outputs[o].redraw.IsPending())
      && (forall o <- s.outputs :: s.outputs[o].lockRender == SessionRendered ==> s.outputs[o].redraw.IsPending())
  }

  /** Winit and headless never wait for a VBlank. */
  predicate SynchronousWhereDue(s: Session) {
    !s.backend.Tty? ==> forall o <- s.outputs :: s.outputs[o].redraw.Idle? || s.outputs[o].redraw.Queued?
  }

  ghost predicate Inv(s: Session) {
    && Honest(s)
    && (s.lock.Locked? ==> s.AllLocked())
    && TimersExact(s)
    && Progressing(s)
    && SynchronousWhereDue(s)
  }

  lemma EnabledStepsRun(s: Session, step: Step)
    requires Inv(s) && Enabled(s, step)
    ensures Runs(s, step)
  {
    match step
    case DeadlineStep(token) => assert Live(s, Deadline, token);
    case EstimatedVBlankStep(token, o, _) => assert Live(s, EstimatedVBlank(o), token);
    case _ =>
  }

  /** Nothing about timers changes when the loop, the deadline and every output's timer stay. */
  lemma TimersFrame(s: Session, s': Session)
    requires TimersExact(s) && s'.loop == s.loop && s'.outputs.Keys == s.outputs.Keys
    requires s'.lock.WaitingForSurfaces? == s.lock.WaitingForSurfaces?
    requires s.lock.WaitingForSurfaces? ==> s'.lock.deadline == s.lock.deadline
    requires forall o <- s.outputs :: s'.outputs[o].redraw.Timer() == s.outputs[o].redraw.Timer()
    ensures TimersExact(s')
  {
    forall timer: Timer, t: Token ensures Live(s', timer, t) <==> Awaited(s', timer, t) {
      assert Live(s, timer, t) <==> Awaited(s, timer, t);
    }
  }

  /** A timer may be removed together with the one thing that waits for it. */
  lemma TimersRemove(s: Session, s': Session, timer: Timer, t: Token)
    requires TimersExact(s) && Live(s, timer, t) && s'.loop == s.loop.Remove(t)
    requires forall other: Timer, u: Token ::
               Awaited(s', other, u) <==> Awaited(s, other, u) && !(other == timer && u == t)
    ensures TimersExact(s')
  {
  }

  /** A timer may be inserted together with the one thing that waits for it. */
  lemma TimersInsert(s: Session, s': Session, timer: Timer)
    requires TimersExact(s) && s'.loop == s.loop.Insert(timer)
    requires forall other: Timer, u: Token ::
               Awaited(s', other, u) <==> Awaited(s, other, u) || (other == timer && u == s.loop.next)
    ensures TimersExact(s')
  {
  }

  lemma QueueRedrawsShape(s: Session, os: set<OutputId>)
    ensures var s' := s.QueueRedraws(os);
      && s' == s.(outputs := s'.outputs) && s'.outputs.Keys == s.outputs.Keys
      && forall o <- s.outputs ::
           var a, b := s.outputs[o], s'.outputs[o];
           && b == a.(redraw := b.redraw) && b.redraw.Timer() == a.redraw.Timer()
           && b.redraw.WaitingForVBlank? == a.redraw.WaitingForVBlank?
           && (o in os || a.redraw.IsPending() ==> b.redraw.IsPending())
           && (a.redraw.Idle? || a.redraw.Queued? ==> b.redraw.Idle? || b.redraw.Queued?)
  {
  }

  lemma QueueRedrawsKeepsInv(s: Session, os: set<OutputId>)
    requires Inv(s)
    ensures Inv(s.QueueRedraws(os))
  {
    QueueRedrawsShape(s, os);
    QueueRedrawsKeepsProgress(s, os);
    TimersFrame(s, s.QueueRedraws(os));
  }

  lemma QueueRedrawsKeepsProgress(s: Session, os: set<OutputId>)
    requires Progressing(s)
    ensures Progressing(s.QueueRedraws(os))
  {
    QueueRedrawsShape(s, os);
    if s.lock.Locking? {
      var o :| o in s.outputs && s.outputs[o].redraw.IsPending();
      assert s.QueueRedraws(os).outputs[o].redraw.IsPending();
    }
  }

  lemma LockKeepsInv(s: Session, request: Request, holderAlive: bool)
    requires Inv(s)
    ensures Inv(s.RequestLock(request, holderAlive))
  {
    var s' := s.RequestLock(request, holderAlive);
    if s.lock.Unlocked? && s.outputs != map[] {
      TimersInsert(s, s', Deadline);
    } else {
      TimersFrame(s, s');
    }
  }

  lemma ContinueKeepsInv(s: Session)
    requires Inv(s)
    ensures Inv(s.ContinueToLocking())
  {
    if s.lock.WaitingForSurfaces? {
      var s' := s.ContinueToLocking();
      assert Live(s, Deadline, s.lock.deadline) by { assert Awaited(s, Deadline, s.lock.deadline); }
      TimersRemove(s, s', Deadline, s.lock.deadline);
      if s.outputs != map[] {
        var o :| o in s.outputs;
        assert s'.outputs[o].redraw.IsPending();
      }
    }
  }

  /** Unlocking leads back into the invariant even from a failed lock, whose progress is lost. */
  lemma UnlockKeepsInv(s: Session)
    requires Honest(s) && TimersExact(s) && SynchronousWhereDue(s)
    ensures Inv(s.Unlock())
  {
    DropLockKeepsInv(s);
    ClearingKeepsInv(s.DropLock());
    var cleared := s.DropLock().ClearLockSurfaces();
    QueueRedrawsKeepsInv(cleared, cleared.outputs.Keys);
  }

  lemma DropLockKeepsInv(s: Session)
    requires Honest(s) && TimersExact(s) && SynchronousWhereDue(s)
    ensures Inv(s.DropLock()) && s.DropLock().lock.Unlocked?
  {
    if s.lock.WaitingForSurfaces? {
      assert Live(s, Deadline, s.lock.deadline) by { assert Awaited(s, Deadline, s.lock.deadline); }
      TimersRemove(s, s.DropLock(), Deadline, s.lock.deadline);
    } else {
      TimersFrame(s, s.DropLock());
    }
  }

  lemma ClearingKeepsInv(s: Session)
    requires Inv(s) && s.lock.Unlocked?
    ensures Inv(s.ClearLockSurfaces())
  {
    TimersFrame(s, s.ClearLockSurfaces());
  }

  lemma ActivateKeepsInv(s: Session)
    requires Inv(s)
    ensures Inv(s.ActivateMonitors())
  {
    if !s.monitorsActive {
      var s' := s.(monitorsActive := true);
      TimersFrame(s, s');
      QueueRedrawsKeepsInv(s', s.outputs.Keys);
    }
  }

  lemma CommitKeepsInv(s: Session, o: OutputId, mapped: bool)
    requires Inv(s) && o in s.outputs && s.outputs[o].surface.Some?
    ensures Inv(s.CommitLockSurface(o, mapped))
  {
    var s' := s.With(o, s.outputs[o].(surface := Some(s.outputs[o].surface.value.(mapped := mapped))));
    SurfaceChangeKeepsInv(s, o, s'.outputs[o].surface);
    ContinueKeepsInv(s');
    QueueRedrawsKeepsInv(s', {o});
    assert s'.QueueRedraw(o).outputs == s'.QueueRedraws({o}).outputs;
  }

  lemma SurfaceChangeKeepsInv(s: Session, o: OutputId, surface: Option<LockSurface>)
    requires Inv(s) && o in s.outputs
    ensures Inv(s.With(o, s.outputs[o].(surface := surface)))
  {
    var s' := s.With(o, s.outputs[o].(surface := surface));
    TimersFrame(s, s');
    if s.lock.Locking? {
      var p :| p in s.outputs && s.outputs[p].redraw.IsPending();
      assert s'.outputs[p].redraw.IsPending();
    }
  }

  lemma AddKeepsInv(s: Session, o: OutputId, moved: set<OutputId>)
    requires Inv(s) && o !in s.outputs
    ensures Inv(s.AddOutput(o, moved))
  {
    var lockRender := if s.IsLocked() then LockRendered else SessionRendered;
    var s' := s.With(o, OutputState(Idle, lockRender, None, 0, NeverDrawn, NeverDrawn));
    assert TimersExact(s') by {
      forall timer: Timer, t: Token ensures Live(s', timer, t) <==> Awaited(s', timer, t) {
        assert Live(s, timer, t) <==> Awaited(s, timer, t);
      }
    }
    if s.lock.Locking? {
      var p :| p in s.outputs && s.outputs[p].redraw.IsPending();
      assert s'.outputs[p].redraw.IsPending();
    }
    QueueRedrawsKeepsInv(s', moved + {o});
  }

  /** The removed output takes its timer with it; a lock that waited only for it completes. */
  lemma RemoveKeepsInv(s: Session, o: OutputId, moved: set<OutputId>, uiCloses: bool)
    requires Inv(s) && o in s.outputs
    ensures Inv(s.RemoveOutput(o, moved, uiCloses))
  {
    RemovalKeepsInv(s, o, moved);
    var r := s.WithoutOutput(o, moved).SettleRemoval();
    QueueRedrawsKeepsInv(r, r.outputs.Keys);
  }

  /** Without the output, all but progress holds, and the others make what progress they did. */
  lemma WithoutOutputKeepsRest(s: Session, o: OutputId, moved: set<OutputId>)
    requires Inv(s) && o in s.outputs
    ensures var r := s.WithoutOutput(o, moved);
      && r.lock == s.lock && Honest(r) && TimersExact(r) && SynchronousWhereDue(r)
      && (r.lock.Locked? ==> r.AllLocked())
      && (r.lock.Locking? ==> forall p <- r.outputs :: r.outputs[p].lockRender == SessionRendered ==> r.outputs[p].redraw.IsPending())
  {
    var q := s.QueueRedraws(moved - {o});
    QueueRedrawsKeepsInv(s, moved - {o});
    RemovingKeepsTimers(q, s.WithoutOutput(o, moved), o);
  }

  lemma RemovingKeepsTimers(q: Session, r: Session, o: OutputId)
    requires TimersExact(q) && o in q.outputs
    requires var timer := q.outputs[o].redraw.Timer();
      r == q.(outputs := q.outputs - {o}, loop := if timer.Some? then q.loop.Remove(timer.value) else q.loop)
    ensures TimersExact(r)
  {
    var timer := q.outputs[o].redraw.Timer();
    if timer.Some? {
      assert Awaited(q, EstimatedVBlank(o), timer.value);
      TimersRemove(q, r, EstimatedVBlank(o), timer.value);
    } else {
      forall other: Timer, t: Token ensures Live(r, other, t) <==> Awaited(r, other, t) {
        assert Live(q, other, t) <==> Awaited(q, other, t);
      }
    }
  }

  lemma RemovalKeepsInv(s: Session, o: OutputId, moved: set<OutputId>)
    requires Inv(s) && o in s.outputs
    ensures Inv(s.WithoutOutput(o, moved).SettleRemoval())
  {
    var r := s.WithoutOutput(o, moved);
    WithoutOutputKeepsRest(s, o, moved);
    if s.lock.Locking? {
      if !r.AllLocked() {
        var p :| p in r.outputs && r.outputs[p].lockRender != LockRendered;
        assert r.outputs[p].redraw.IsPending();
      } else {
        TimersFrame(r, r.Confirm(s.lock.confirmation));
      }
    } else {
      ContinueKeepsInv(r);
    }
  }

  lemma DeactivateShape(s: Session, blanked: set<OutputId>)
    ensures var s' := s.DeactivateMonitors(blanked);
      && s' == s.(outputs := s'.outputs, monitorsActive := false) && s'.outputs.Keys == s.outputs.Keys
      && forall o <- s.outputs ::
           s'.outputs[o] == if s.monitorsActive && s.backend.Tty? && o in blanked
                            then s.outputs[o].(frame := Blank, shown := Blank) else s.outputs[o]
  {
  }

  lemma DeactivateKeepsInv(s: Session, blanked: set<OutputId>)
    requires Inv(s) && Expected(s, DeactivateStep(blanked))
    ensures Inv(s.DeactivateMonitors(blanked))
  {
    var s' := s.DeactivateMonitors(blanked);
    DeactivateShape(s, blanked);
    TimersFrame(s, s');
    if s.lock.Locking? {
      var p :| p in s.outputs && s.outputs[p].redraw.IsPending();
      assert s'.outputs[p].redraw.IsPending();
    }
  }

  /** A power-off that leaves the session on an output breaks the invariant. */
  lemma UnblankedBreaksInv(s: Session, blanked: set<OutputId>)
    requires Inv(s) && !Expected(s, DeactivateStep(blanked))
    ensures !Inv(s.DeactivateMonitors(blanked))
  {
    DeactivateShape(s, blanked);
    var o :| o in s.outputs && s.outputs[o].frame == SessionFrame && !(s.backend.Tty? && o in blanked);
    assert s.DeactivateMonitors(blanked).outputs[o] == s.outputs[o];
  }

  lemma VBlankKeepsInv(s: Session, o: OutputId, animating: bool)
    requires Inv(s) && o in s.outputs && s.outputs[o].redraw.Timer().None?
    ensures Inv(s.VBlank(o, animating))
  {
    var s' := s.VBlank(o, animating);
    VBlankShape(s, o, animating);
    TimersFrame(s, s');
    if s.lock.Locking? {
      var p :| p in s.outputs && s.outputs[p].redraw.IsPending();
      assert s'.outputs[p].redraw.IsPending();
    }
  }

  lemma VBlankShape(s: Session, o: OutputId, animating: bool)
    requires o in s.outputs
    ensures var s' := s.VBlank(o, animating);
      && s' == s.(outputs := s'.outputs) && s'.outputs.Keys == s.outputs.Keys
      && (forall p <- s.outputs :: p != o ==> s'.outputs[p] == s.outputs[p])
      && s'.outputs[o] == s.outputs[o].(redraw := s'.outputs[o].redraw, shown := s'.outputs[o].shown)
      && s'.outputs[o].shown == (if s.outputs[o].redraw.WaitingForVBlank? then s.outputs[o].frame else s.outputs[o].shown)
      && (s'.outputs[o].redraw.Idle? || s'.outputs[o].redraw.Queued?)
      && (s.outputs[o].redraw.IsPending() ==> s'.outputs[o].redraw.Queued?)
  {
  }

  lemma EstimatedVBlankKeepsInv(s: Session, o: OutputId, animating: bool)
    requires Inv(s) && o in s.outputs && s.outputs[o].redraw.Timer().Some?
    ensures Inv(s.EstimatedVBlankFires(o, animating))
  {
    var s' := s.EstimatedVBlankFires(o, animating);
    var t := s.outputs[o].redraw.Timer().value;
    assert Awaited(s, EstimatedVBlank(o), t);
    TimersRemove(s, s', EstimatedVBlank(o), t);
    if s.lock.Locking? {
      var p :| p in s.outputs && s.outputs[p].redraw.IsPending();
      assert s'.outputs[p].redraw.IsPending();
    }
  }

  /** The state between the render attempt and the check of the lock. */
  function Rendered(s: Session, o: OutputId, attempt: Attempt): (r: Session)
    requires s.CanRender(o)
  {
    var (s', result) := if s.monitorsActive then s.Render(o, attempt) else (s, Skipped);
    s'.AfterRender(o, result)
  }

  /** Rendering output `o` touches only that output, and leaves no redraw queued on it. */
  lemma RenderedShape(s: Session, o: OutputId, attempt: Attempt)
    requires Inv(s) && s.CanRender(o)
    ensures var r := Rendered(s, o, attempt);
      && r == s.(outputs := r.outputs, loop := r.loop)
      && r.outputs.Keys == s.outputs.Keys
      && (forall p <- s.outputs :: p != o ==> r.outputs[p] == s.outputs[p])
      && !r.outputs[o].redraw.IsPending()
      && (r.outputs[o].lockRender == LockRendered ==> r.outputs[o].frame != SessionFrame)
      && (s.IsLocked() ==> r.outputs[o].frame == s.outputs[o].frame || r.outputs[o].frame == LockFrame)
      && (!s.monitorsActive ==> r.outputs[o].frame == s.outputs[o].frame)
      && (r.outputs[o].redraw.WaitingForVBlank? || r.outputs[o].shown == r.outputs[o].frame)
      && (r.outputs[o].redraw.WaitingForVBlank? ==> r.outputs[o].shown == s.outputs[o].shown && s.monitorsActive && s.backend.Tty? && attempt.Accepted?)
      && (s.IsLocked() && s.outputs[o].lockRender == LockRendered ==> r.outputs[o].lockRender == LockRendered)
      && (!s.backend.Tty? ==> r.outputs[o].redraw.Idle?)
  {
  }

  lemma RenderedTimers(s: Session, o: OutputId, attempt: Attempt)
    requires Inv(s) && s.CanRender(o)
    ensures TimersExact(Rendered(s, o, attempt))
  {
    RenderedShape(s, o, attempt);
    var r := Rendered(s, o, attempt);
    var before, after := s.outputs[o].redraw.Timer(), r.outputs[o].redraw.Timer();
    if before == after {
      TimersFrame(s, r);
    } else if before.None? {
      TimersInsert(s, r, EstimatedVBlank(o));
    } else {
      assert Awaited(s, EstimatedVBlank(o), before.value);
      TimersRemove(s, r, EstimatedVBlank(o), before.value);
    }
  }

  /** The check of the lock after output `o` was redrawn restores what that redraw used up. */
  lemma SettleKeepsInv(s: Session, o: OutputId)
    requires o in s.outputs && Honest(s) && TimersExact(s) && SynchronousWhereDue(s)
    requires s.lock.Locked? ==> s.AllLocked()
    requires s.lock.Locking? ==> forall p <- s.outputs ::
               p != o && s.outputs[p].lockRender == SessionRendered ==> s.outputs[p].redraw.IsPending()
    ensures Inv(s.SettleLock(o))
  {
    if s.lock.Locking? {
      if s.outputs[o].lockRender == SessionRendered {
        UnlockKeepsInv(s);
      } else if s.AllLocked() {
        TimersFrame(s, s.SettleLock(o));
      } else {
        var p :| p in s.outputs && s.outputs[p].lockRender != LockRendered;
        assert s.outputs[p].redraw.IsPending();
      }
    }
  }

  lemma RedrawKeepsInv(s: Session, o: OutputId, attempt: Attempt)
    requires Inv(s) && s.CanRender(o)
    ensures Inv(s.Redraw(o, attempt))
  {
    var r := Rendered(s, o, attempt);
    RenderedShape(s, o, attempt);
    RenderedTimers(s, o, attempt);
    SettleKeepsInv(r, o);
  }

  /** Every enabled step runs to its end, and keeps the invariant exactly when it is expected. */
  lemma NextKeepsInvIff(s: Session, step: Step)
    requires Inv(s) && Enabled(s, step)
    ensures Runs(s, step) && (Inv(Next(s, step)) <==> Expected(s, step))
  {
    EnabledStepsRun(s, step);
    match step
    case LockStep(request, holderAlive) => LockKeepsInv(s, request, holderAlive);
    case UnlockStep => UnlockKeepsInv(s); ActivateKeepsInv(s.Unlock());
    case DeadlineStep(_) => ContinueKeepsInv(s);
    case SurfaceStep(o, surface) => if o in s.outputs { SurfaceChangeKeepsInv(s, o, Some(surface)); }
    case CommitStep(o, mapped) => CommitKeepsInv(s, o, mapped);
    case AddStep(o, moved) => AddKeepsInv(s, o, moved);
    case RemoveStep(o, moved, uiCloses) => RemoveKeepsInv(s, o, moved, uiCloses);
    case QueueStep(os) => QueueRedrawsKeepsInv(s, os);
    case DeactivateStep(blanked) =>
      if Expected(s, step) {
        DeactivateKeepsInv(s, blanked);
      } else {
        UnblankedBreaksInv(s, blanked);
      }
    case ActivateStep => ActivateKeepsInv(s);
    case RedrawStep(o, attempt) => RedrawKeepsInv(s, o, attempt);
    case VBlankStep(o, animating) =>
      if Expected(s, step) {
        VBlankKeepsInv(s, o, animating);
      } else {
        LostTimerBreaksInv(s, o, animating);
      }
    case EstimatedVBlankStep(_, o, animating) => EstimatedVBlankKeepsInv(s, o, animating);
  }

  /** An unexpected VBlank forgets a live timer, which then fires into an unreachable arm. */
  lemma LostTimerBreaksInv(s: Session, o: OutputId, animating: bool)
    requires Inv(s) && o in s.outputs && s.outputs[o].redraw.Timer().Some?
    ensures var s', t := s.VBlank(o, animating), s.outputs[o].redraw.Timer().value;
      && !Inv(s')
      && forall animating' :: Enabled(s', EstimatedVBlankStep(t, o, animating')) && !Runs(s', EstimatedVBlankStep(t, o, animating'))
  {
    var t := s.outputs[o].redraw.Timer().value;
    assert Live(s, EstimatedVBlank(o), t) by { assert Awaited(s, EstimatedVBlank(o), t); }
    assert Live(s.VBlank(o, animating), EstimatedVBlank(o), t);
  }

  /** After a VBlank on a TTY nothing declared impossible can come next if and only if the output did
      not wait for an estimated VBlank. */
  lemma VBlankIsHarmlessIff(s: Session, o: OutputId, animating: bool)
    requires Inv(s) && s.backend.Tty? && o in s.outputs
    ensures (forall step :: Enabled(s.VBlank(o, animating), step) ==> Runs(s.VBlank(o, animating), step)) <==>
            s.outputs[o].redraw.Timer().None?
  {
    var s' := s.VBlank(o, animating);
    if s.outputs[o].redraw.Timer().None? {
      VBlankKeepsInv(s, o, animating);
      forall step | Enabled(s', step) ensures Runs(s', step) {
        EnabledStepsRun(s', step);
      }
    } else {
      LostTimerBreaksInv(s, o, animating);
      var step := EstimatedVBlankStep(s.outputs[o].redraw.Timer().value, o, animating);
      assert Enabled(s', step) && !Runs(s', step);
    }
  }
}
