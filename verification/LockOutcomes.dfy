/** What each event does to a lock request and to the redraws, as exact conditions. */
module LockOutcomes {
  import opened Wrappers
  import opened LockProtocol
  import opened LockRuns
  import opened LockSafety

  /** A request is refused at once exactly when another one is pending or a live client holds the
      lock, and confirmed at once exactly when nothing is left to blank: the session is locked by a
      dead client, or there is no output. Any other request waits under a fresh deadline. */
  lemma LockAnswerIff(s: Session, request: Request, holderAlive: bool)
    requires Inv(s)
    ensures var s' := Next(s, LockStep(request, holderAlive));
      var busy := s.lock.WaitingForSurfaces? || s.lock.Locking? || (s.lock.Locked? && holderAlive);
      var blank := s.lock.Locked? || s.outputs == map[];
      && (s'.refused == s.refused + [request] && s'.lock == s.lock && s'.confirmed == s.confirmed <==> busy)
      && (s'.confirmed == s.confirmed + [request] && s'.lock == Locked(request) && s'.refused == s.refused <==> !busy && blank)
      && (s'.lock.WaitingForSurfaces? && s'.lock.confirmation == request && s'.lock.deadline !in s.loop.timers
          && s'.confirmed == s.confirmed && s'.refused == s.refused
          <==> !busy && !blank)
  {
    assert s.refused + [request] != s.refused && s.confirmed + [request] != s.confirmed;
    if s.lock.WaitingForSurfaces? {
      assert Live(s, Deadline, s.lock.deadline) by { assert Awaited(s, Deadline, s.lock.deadline); }
    }
  }

  /** A wait for lock surfaces ends exactly when its deadline fires, when the client unlocks, or
      when a commit or a removal leaves only outputs with a mapped lock surface. */
  lemma WaitEndsIff(s: Session, step: Step)
    requires Inv(s) && Enabled(s, step) && s.lock.WaitingForSurfaces?
    ensures Runs(s, step)
    ensures Next(s, step).lock != s.lock <==>
              || step.DeadlineStep?
              || step.UnlockStep?
              || ((step.CommitStep? || step.RemoveStep?) && Next(s, step).AllSurfacesMapped())
  {
    EnabledStepsRun(s, step);
    match step
    case RemoveStep(o, moved, uiCloses) => RemovalEndsWaitIff(s, o, moved, uiCloses);
    case CommitStep(o, mapped) => CommitEndsWaitIff(s, o, mapped);
    case _ =>
  }

  lemma RemovalEndsWaitIff(s: Session, o: OutputId, moved: set<OutputId>, uiCloses: bool)
    requires o in s.outputs && s.lock.WaitingForSurfaces?
    ensures var s' := s.RemoveOutput(o, moved, uiCloses); s'.lock != s.lock <==> s'.AllSurfacesMapped()
  {
    var r := s.WithoutOutput(o, moved);
    MaybeEndsWaitIff(r);
    SameSurfacesMapped(r.SettleRemoval(), r.SettleRemoval().QueueRedrawAll());
  }

  lemma CommitEndsWaitIff(s: Session, o: OutputId, mapped: bool)
    requires o in s.outputs && s.outputs[o].surface.Some? && s.lock.WaitingForSurfaces?
    ensures var s' := s.CommitLockSurface(o, mapped); s'.lock != s.lock <==> s'.AllSurfacesMapped()
  {
    MaybeEndsWaitIff(s.With(o, s.outputs[o].(surface := Some(s.outputs[o].surface.value.(mapped := mapped)))));
  }

  lemma MaybeEndsWaitIff(s: Session)
    requires s.lock.WaitingForSurfaces?
    ensures var s' := s.MaybeContinueToLocking(); s'.lock != s.lock <==> s'.AllSurfacesMapped()
  {
    SameSurfacesMapped(s, s.MaybeContinueToLocking());
  }

  lemma SameSurfacesMapped(s: Session, s': Session)
    requires s'.outputs.Keys == s.outputs.Keys && forall o <- s.outputs :: s'.outputs[o].surface == s.outputs[o].surface
    ensures s'.AllSurfacesMapped() == s.AllSurfacesMapped()
  {
  }

  /** The render attempt fails to put a frame on a powered output. */
  predicate SkippedWhilePowered(s: Session, attempt: Attempt) {
    s.monitorsActive && s.backend.Tty? && (attempt.Unusable? || attempt.Fails?)
  }

  /** While locking, a redraw fails the lock exactly when it could not cover an output that still
      shows the session, and completes it exactly when it covers the last such output. */
  lemma RedrawEndsLockingIff(s: Session, o: OutputId, attempt: Attempt)
    requires Inv(s) && s.CanRender(o) && s.lock.Locking?
    ensures var s' := Next(s, RedrawStep(o, attempt));
      var covered := s.outputs[o].lockRender == LockRendered || !SkippedWhilePowered(s, attempt);
      var othersCovered := forall p <- s.outputs :: p != o ==> s.outputs[p].lockRender == LockRendered;
      && (s'.lock == Unlocked && s'.refused == s.refused + [s.lock.confirmation] <==> !covered)
      && (s'.lock == Locked(s.lock.confirmation) && s'.confirmed == s.confirmed + [s.lock.confirmation] <==> covered && othersCovered)
      && (s'.lock == s.lock && s'.confirmed == s.confirmed && s'.refused == s.refused <==> covered && !othersCovered)
  {
    var r := Rendered(s, o, attempt);
    RenderedShape(s, o, attempt);
    assert r.outputs[o].lockRender == LockRendered <==>
           s.outputs[o].lockRender == LockRendered || !SkippedWhilePowered(s, attempt);
    assert Next(s, RedrawStep(o, attempt)) == r.SettleLock(o);
    assert s.refused + [s.lock.confirmation] != s.refused && s.confirmed + [s.lock.confirmation] != s.confirmed;
    if forall p <- s.outputs :: p != o ==> s.outputs[p].lockRender == LockRendered {
      if r.outputs[o].lockRender == LockRendered {
        assert r.AllLocked();
      }
    } else {
      var p :| p in s.outputs && p != o && s.outputs[p].lockRender != LockRendered;
      assert r.outputs[p] == s.outputs[p] && !r.AllLocked();
    }
  }

  lemma RedrawSparesOthers(s: Session, p: OutputId, attempt: Attempt, o: OutputId)
    requires Inv(s) && s.CanRender(p) && o in s.outputs && o != p
    ensures var s' := s.Redraw(p, attempt);
      && o in s'.outputs
      && (s.outputs[o].redraw.IsPending() ==> s'.outputs[o].redraw.IsPending())
      && s'.outputs[o].sequence == s.outputs[o].sequence
  {
    RenderedShape(s, p, attempt);
    var r := Rendered(s, p, attempt);
    assert r.outputs[o] == s.outputs[o];
    assert s.Redraw(p, attempt) == r.SettleLock(p);
  }

  lemma RemoveSparesOthers(s: Session, p: OutputId, moved: set<OutputId>, uiCloses: bool, o: OutputId)
    requires p in s.outputs && o in s.outputs && o != p
    ensures var s' := s.RemoveOutput(p, moved, uiCloses);
      && o in s'.outputs
      && (s.outputs[o].redraw.IsPending() ==> s'.outputs[o].redraw.IsPending())
      && s'.outputs[o].sequence == s.outputs[o].sequence
  {
    var r := s.WithoutOutput(p, moved);
    assert r.outputs[o] == s.outputs[o] || r.outputs[o] == s.outputs[o].QueueRedraw();
    var s' := r.SettleRemoval();
    assert s'.outputs[o] == r.outputs[o] || s'.outputs[o] == r.outputs[o].QueueRedraw();
  }

  lemma UnlockSparesAll(s: Session, o: OutputId)
    requires o in s.outputs
    ensures var s' := s.UnlockRequested();
      o in s'.outputs && s'.outputs[o].redraw.IsPending() && s'.outputs[o].sequence == s.outputs[o].sequence
  {
  }

  lemma CommitSparesAll(s: Session, p: OutputId, mapped: bool, o: OutputId)
    requires o in s.outputs && p in s.outputs && s.outputs[p].surface.Some?
    ensures var s' := s.CommitLockSurface(p, mapped);
      && o in s'.outputs
      && (s.outputs[o].redraw.IsPending() ==> s'.outputs[o].redraw.IsPending())
      && s'.outputs[o].sequence == s.outputs[o].sequence
  {
  }

  /** A requested redraw is never lost: it stays due, whatever else happens, until that output is
      redrawn or removed. */
  lemma RedrawsAreNotLost(s: Session, step: Step, o: OutputId)
    requires Inv(s) && Enabled(s, step) && o in s.outputs && s.outputs[o].redraw.IsPending()
    requires !(step.RedrawStep? && step.output == o) && !(step.RemoveStep? && step.output == o)
    ensures Runs(s, step) && o in Next(s, step).outputs && Next(s, step).outputs[o].redraw.IsPending()
  {
    EnabledStepsRun(s, step);
    match step
    case RedrawStep(p, attempt) => RedrawSparesOthers(s, p, attempt, o);
    case RemoveStep(p, moved, uiCloses) => RemoveSparesOthers(s, p, moved, uiCloses, o);
    case UnlockStep => UnlockSparesAll(s, o);
    case CommitStep(p, mapped) => CommitSparesAll(s, p, mapped, o);
    case _ =>
  }

  /** A redraw uses up the request, unless it fails a lock, which asks for all outputs again. */
  lemma RedrawServesRequest(s: Session, o: OutputId, attempt: Attempt)
    requires Inv(s) && s.CanRender(o)
    ensures var s' := Next(s, RedrawStep(o, attempt));
      if s.lock.Locking? && s'.lock.Unlocked? then
        forall p <- s'.outputs :: s'.outputs[p].redraw.IsPending() && s'.outputs[p].surface.None?
      else !s'.outputs[o].redraw.IsPending()
  {
    RenderedShape(s, o, attempt);
    assert Next(s, RedrawStep(o, attempt)) == Rendered(s, o, attempt).SettleLock(o);
    SettlingServesRequest(Rendered(s, o, attempt), o);
  }

  lemma SettlingServesRequest(s: Session, o: OutputId)
    requires o in s.outputs && !s.outputs[o].redraw.IsPending()
    ensures var s' := s.SettleLock(o);
      if s.lock.Locking? && s'.lock.Unlocked? then
        forall p <- s'.outputs :: s'.outputs[p].redraw.IsPending() && s'.outputs[p].surface.None?
      else o in s'.outputs && !s'.outputs[o].redraw.IsPending()
  {
  }

  /** Unlocking clears every lock surface, wakes the monitors, and has every output redrawn. */
  lemma UnlockResets(s: Session)
    ensures var s' := Next(s, UnlockStep);
      && s'.lock == Unlocked && s'.monitorsActive && s'.outputs.Keys == s.outputs.Keys
      && forall o <- s'.outputs :: s'.outputs[o].surface.None? && s'.outputs[o].redraw.IsPending()
  {
  }

  /** No output has a lock surface while unlocked, and while a request is pending only the
      requesting client's. */
  predicate SurfacesFollowLock(s: Session) {
    && (s.lock.Unlocked? ==> forall o <- s.outputs :: s.outputs[o].surface.None?)
    && (s.lock.WaitingForSurfaces? || s.lock.Locking? ==>
          forall o <- s.outputs :: s.outputs[o].surface.Some? ==> s.outputs[o].surface.value.client == s.lock.confirmation.client)
  }

  lemma RedrawKeepsSurfaces(s: Session, o: OutputId, attempt: Attempt)
    requires SurfacesFollowLock(s) && s.CanRender(o)
    ensures SurfacesFollowLock(s.Redraw(o, attempt))
  {
    RenderingKeepsSurfaces(s, o, attempt);
    SettlingKeepsSurfaces(Rendered(s, o, attempt), o);
  }

  lemma RenderingKeepsSurfaces(s: Session, o: OutputId, attempt: Attempt)
    requires SurfacesFollowLock(s) && s.CanRender(o)
    ensures var r := Rendered(s, o, attempt);
      SurfacesFollowLock(r) && o in r.outputs && s.Redraw(o, attempt) == r.SettleLock(o)
  {
    var r := Rendered(s, o, attempt);
    assert r.lock == s.lock && r.outputs.Keys == s.outputs.Keys;
    assert forall p <- s.outputs :: r.outputs[p].surface == s.outputs[p].surface;
  }

  lemma SettlingKeepsSurfaces(s: Session, o: OutputId)
    requires SurfacesFollowLock(s) && o in s.outputs
    ensures SurfacesFollowLock(s.SettleLock(o))
  {
  }

  lemma RemovalKeepsSurfaces(s: Session, o: OutputId, moved: set<OutputId>, uiCloses: bool)
    requires SurfacesFollowLock(s) && o in s.outputs
    ensures SurfacesFollowLock(s.RemoveOutput(o, moved, uiCloses))
  {
    var r := s.WithoutOutput(o, moved);
    assert r.lock == s.lock && forall p <- r.outputs :: p in s.outputs && r.outputs[p].surface == s.outputs[p].surface;
    var r' := r.SettleRemoval();
    assert SurfacesFollowLock(r');
  }

  lemma CommitKeepsSurfaces(s: Session, o: OutputId, mapped: bool)
    requires SurfacesFollowLock(s) && o in s.outputs && s.outputs[o].surface.Some?
    ensures SurfacesFollowLock(s.CommitLockSurface(o, mapped))
  {
    var r := s.With(o, s.outputs[o].(surface := Some(s.outputs[o].surface.value.(mapped := mapped))));
    assert SurfacesFollowLock(r);
  }

  lemma NextKeepsSurfaces(s: Session, step: Step)
    requires SurfacesFollowLock(s) && Runs(s, step)
    ensures SurfacesFollowLock(Next(s, step))
  {
    match step
    case RedrawStep(o, attempt) => RedrawKeepsSurfaces(s, o, attempt);
    case RemoveStep(o, moved, uiCloses) => RemovalKeepsSurfaces(s, o, moved, uiCloses);
    case CommitStep(o, mapped) => CommitKeepsSurfaces(s, o, mapped);
    case UnlockStep => UnlockResets(s);
    case _ =>
  }

  /** Over every run, lock surfaces belong to the client that is locking: none is left over from an
      earlier lock, and none is accepted from another client. */
  lemma {:induction false} RunKeepsSurfaces(s: Session, steps: seq<Step>)
    requires SurfacesFollowLock(s) && Completes(s, steps)
    ensures SurfacesFollowLock(After(s, steps))
    decreases |steps|
  {
    if steps != [] {
      NextKeepsSurfaces(s, steps[0]);
      RunKeepsSurfaces(Next(s, steps[0]), steps[1..]);
    }
  }

  lemma SurfacesBelongToLocker(backend: Backend, steps: seq<Step>)
    requires IsRun(Start(backend), steps)
    ensures Completes(Start(backend), steps)
    ensures SurfacesFollowLock(After(Start(backend), steps))
  {
    StartInv(backend);
    RunKeepsInv(Start(backend), steps);
    RunKeepsSurfaces(Start(backend), steps);
  }

  lemma RedrawAdvancesSequence(s: Session, o: OutputId, attempt: Attempt)
    requires s.CanRender(o)
    ensures var s', latched := s.Redraw(o, attempt), s.monitorsActive && (s.backend.Tty? ==> attempt.Accepted?);
      o in s'.outputs
      && s'.outputs[o].sequence == if latched then (s.outputs[o].sequence + 1) % SEQUENCE_MODULUS else s.outputs[o].sequence
  {
    var r := Rendered(s, o, attempt);
    assert s.Redraw(o, attempt) == r.SettleLock(o);
    SettlingKeepsSequence(r, o);
  }

  lemma SettlingKeepsSequence(s: Session, o: OutputId)
    requires o in s.outputs
    ensures o in s.SettleLock(o).outputs && s.SettleLock(o).outputs[o].sequence == s.outputs[o].sequence
  {
  }

  /** The frame-callback sequence of an output advances by one, modulo 2^32, exactly when a frame
      is latched or its estimated VBlank passes, and otherwise stays. */
  lemma SequenceAdvancesOncePerRefresh(s: Session, step: Step, o: OutputId)
    requires Inv(s) && Enabled(s, step) && o in s.outputs && !(step.RemoveStep? && step.output == o)
    ensures Runs(s, step) && o in Next(s, step).outputs
    ensures var latched := step.RedrawStep? && step.output == o && s.monitorsActive
                           && (s.backend.Tty? ==> step.attempt.Accepted?);
      var estimated := step.EstimatedVBlankStep? && step.output == o;
      Next(s, step).outputs[o].sequence ==
        if latched || estimated then (s.outputs[o].sequence + 1) % SEQUENCE_MODULUS else s.outputs[o].sequence
  {
    EnabledStepsRun(s, step);
    match step
    case RedrawStep(p, attempt) =>
      if p == o {
        RedrawAdvancesSequence(s, o, attempt);
      } else {
        RedrawSparesOthers(s, p, attempt, o);
      }
    case RemoveStep(p, moved, uiCloses) => RemoveSparesOthers(s, p, moved, uiCloses, o);
    case UnlockStep => UnlockSparesAll(s, o);
    case CommitStep(p, mapped) => CommitSparesAll(s, p, mapped, o);
    case _ =>
  }
}
