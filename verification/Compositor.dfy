/** The compositor object, which updates the lock and redraw state in place.

    `View` reads its fields as a `Session`; every method is the in-place form of the operation on
    `Session` that its postcondition names, and those that handle an event keep the invariant of runs.
    `Handle` takes any event. */
module Compositor {
  import opened Wrappers
  import opened LockProtocol
  import opened LockSafety
  import opened LockRuns
  import opened LockExactness

  class Niri {
    const backend: Backend
    var outputState: map<OutputId, OutputState>
    var lockState: LockState
    var monitorsActive: bool
    var eventLoop: EventLoop
    var confirmed: seq<Request>
    var refused: seq<Request>

    ghost function View(): Session
      reads this
    {
      Session(backend, outputState, lockState, monitorsActive, eventLoop, confirmed, refused)
    }

    constructor (backend: Backend)
      ensures View() == Start(backend) && Inv(View())
    {
      this.backend := backend;
      outputState, lockState, monitorsActive := map[], Unlocked, true;
      eventLoop, confirmed, refused := EventLoop(map[], 0), [], [];
      new;
      StartInv(backend);
    }

    method Confirm(request: Request)
      modifies this
      ensures View() == old(View()).Confirm(request)
    {
      confirmed := confirmed + [request];
      lockState := Locked(request);
    }

    method QueueRedraw(o: OutputId)
      requires o in outputState
      modifies this
      ensures View() == old(View()).QueueRedraw(o)
    {
      outputState := outputState[o := outputState[o].QueueRedraw()];
    }

    method QueueRedraws(os: set<OutputId>)
      modifies this
      ensures View() == old(View()).QueueRedraws(os)
      ensures old(Inv(View())) ==> Inv(View())
    {
      if Inv(View()) {
        QueueRedrawsKeepsInv(View(), os);
      }
      var rest := outputState.Keys * os;
      while rest != {}
        invariant rest <= os && outputState.Keys == old(outputState.Keys)
        invariant View() == old(View()).(outputs := outputState)
        invariant forall o <- outputState :: outputState[o] ==
                    if o in os && o !in rest then old(outputState)[o].QueueRedraw() else old(outputState)[o]
      {
        var o :| o in rest;
        QueueRedraw(o);
        rest := rest - {o};
      }
    }

    method QueueRedrawAll()
      modifies this
      ensures View() == old(View()).QueueRedrawAll()
    {
      QueueRedraws(outputState.Keys);
    }

    method RequestLock(request: Request, holderAlive: bool)
      modifies this
      ensures View() == old(View()).RequestLock(request, holderAlive)
      ensures old(Inv(View())) ==> Inv(View())
    {
      if Inv(View()) {
        LockKeepsInv(View(), request, holderAlive);
      }
      if lockState.WaitingForSurfaces? || lockState.Locking? || (lockState.Locked? && holderAlive) {
        refused := refused + [request];
      } else if lockState.Locked? || outputState == map[] {
        Confirm(request);
      } else {
        lockState := WaitingForSurfaces(request, eventLoop.next);
        eventLoop := eventLoop.Insert(Deadline);
      }
    }

    /** `maybe_continue_to_locking`: looks at the outputs one by one and stops at the first whose
        lock surface is missing or unmapped. */
    method MaybeContinueToLocking()
      modifies this
      ensures View() == old(View()).MaybeContinueToLocking()
    {
      if !lockState.WaitingForSurfaces? {
        return;
      }
      var rest := outputState.Keys;
      while rest != {}
        invariant rest <= outputState.Keys && View() == old(View())
        invariant forall o <- outputState :: o !in rest ==> outputState[o].surface.Some? && outputState[o].surface.value.mapped
      {
        var o :| o in rest;
        if outputState[o].surface.None? || !outputState[o].surface.value.mapped {
          return;
        }
        rest := rest - {o};
      }
      ContinueToLocking();
    }

    method ContinueToLocking()
      modifies this
      ensures View() == old(View()).ContinueToLocking()
      ensures old(Inv(View())) ==> Inv(View())
    {
      if Inv(View()) {
        ContinueKeepsInv(View());
      }
      if lockState.WaitingForSurfaces? {
        var request := lockState.confirmation;
        eventLoop := eventLoop.Remove(lockState.deadline);
        if outputState == map[] {
          Confirm(request);
        } else {
          lockState := Locking(request);
          QueueRedrawAll();
        }
      }
    }

    method DropLock()
      modifies this
      ensures View() == old(View()).DropLock()
    {
      if lockState.WaitingForSurfaces? {
        eventLoop := eventLoop.Remove(lockState.deadline);
      }
      if lockState.WaitingForSurfaces? || lockState.Locking? {
        refused := refused + [lockState.confirmation];
      }
      lockState := Unlocked;
    }

    method ClearLockSurfaces()
      modifies this
      ensures View() == old(View()).ClearLockSurfaces()
    {
      var rest := outputState.Keys;
      while rest != {}
        invariant outputState.Keys == old(outputState.Keys) && rest <= outputState.Keys
        invariant View() == old(View()).(outputs := outputState)
        invariant forall o <- outputState :: outputState[o] ==
                    if o in rest then old(outputState)[o] else old(outputState)[o].(surface := None)
      {
        var o :| o in rest;
        outputState := outputState[o := outputState[o].(surface := None)];
        rest := rest - {o};
      }
    }

    method Unlock()
      modifies this
      ensures View() == old(View()).Unlock()
      ensures old(Inv(View())) ==> Inv(View())
    {
      if Inv(View()) {
        UnlockKeepsInv(View());
      }
      DropLock();
      ClearLockSurfaces();
      QueueRedrawAll();
    }

    /** The client unlocks: the compositor also wakes the monitors up. */
    method UnlockRequested()
      modifies this
      ensures View() == old(View()).UnlockRequested()
      ensures old(Inv(View())) ==> Inv(View())
    {
      Unlock();
      ActivateMonitors();
    }

    /** A commit on the lock surface of an output. */
    method CommitLockSurface(o: OutputId, mapped: bool)
      requires o in outputState && outputState[o].surface.Some?
      modifies this
      ensures View() == old(View()).CommitLockSurface(o, mapped)
      ensures old(Inv(View())) ==> Inv(View())
    {
      if Inv(View()) {
        CommitKeepsInv(View(), o, mapped);
      }
      var surface := outputState[o].surface.value.(mapped := mapped);
      outputState := outputState[o := outputState[o].(surface := Some(surface))];
      if lockState.WaitingForSurfaces? {
        MaybeContinueToLocking();
      } else {
        QueueRedraw(o);
      }
    }

    method NewLockSurface(o: OutputId, surface: LockSurface)
      modifies this
      ensures View() == old(View()).NewLockSurface(o, surface)
      ensures old(Inv(View())) ==> Inv(View())
    {
      if Inv(View()) {
        NextKeepsInvIff(View(), SurfaceStep(o, surface));
      }
      if lockState.Unlocked? {
        return;
      }
      var holder := if lockState.Locked? then lockState.lock else lockState.confirmation;
      if holder.client == surface.client && o in outputState {
        outputState := outputState[o := outputState[o].(surface := Some(surface))];
      }
    }

    method AddOutput(o: OutputId, moved: set<OutputId>)
      requires o !in outputState
      modifies this
      ensures View() == old(View()).AddOutput(o, moved)
      ensures old(Inv(View())) ==> Inv(View())
    {
      if Inv(View()) {
        AddKeepsInv(View(), o, moved);
      }
      var lockRender := if lockState.Locking? || lockState.Locked? then LockRendered else SessionRendered;
      outputState := outputState[o := OutputState(Idle, lockRender, None, 0, NeverDrawn, NeverDrawn)];
      QueueRedraws(moved + {o});
    }

    method RemoveOutput(o: OutputId, moved: set<OutputId>, uiCloses: bool)
      requires o in outputState
      modifies this
      ensures View() == old(View()).RemoveOutput(o, moved, uiCloses)
      ensures old(Inv(View())) ==> Inv(View())
    {
      if Inv(View()) {
        RemoveKeepsInv(View(), o, moved, uiCloses);
      }
      QueueRedraws(moved - {o});
      var timer := outputState[o].redraw.Timer();
      outputState := outputState - {o};
      if timer.Some? {
        eventLoop := eventLoop.Remove(timer.value);
      }
      SettleRemoval();
      if uiCloses {
        QueueRedrawAll();
      }
    }

    method SettleRemoval()
      modifies this
      ensures View() == old(View()).SettleRemoval()
    {
      if lockState.Locking? {
        if forall p <- outputState :: outputState[p].lockRender == LockRendered {
          Confirm(lockState.confirmation);
        }
      } else {
        MaybeContinueToLocking();
      }
    }

    method DeactivateMonitors(blanked: set<OutputId>)
      modifies this
      ensures View() == old(View()).DeactivateMonitors(blanked)
      ensures old(Inv(View()) && Expected(View(), DeactivateStep(blanked))) ==> Inv(View())
    {
      if Inv(View()) && Expected(View(), DeactivateStep(blanked)) {
        DeactivateKeepsInv(View(), blanked);
      }
      if monitorsActive {
        monitorsActive := false;
        if backend.Tty? {
          ClearSurfaces(blanked);
        }
      }
    }

    /** `set_monitors_active` of the TTY: clears every surface, which works for those in `blanked`. */
    method ClearSurfaces(blanked: set<OutputId>)
      modifies this`outputState
      ensures outputState == map o | o in old(outputState) ::
                if o in blanked then old(outputState)[o].(frame := Blank, shown := Blank) else old(outputState)[o]
    {
      var rest := outputState.Keys;
      while rest != {}
        invariant rest <= outputState.Keys == old(outputState.Keys)
        invariant forall o <- outputState :: outputState[o] ==
                    if o in blanked && o !in rest then old(outputState)[o].(frame := Blank, shown := Blank) else old(outputState)[o]
      {
        var o :| o in rest;
        if o in blanked {
          outputState := outputState[o := outputState[o].(frame := Blank, shown := Blank)];
        }
        rest := rest - {o};
      }
    }

    method ActivateMonitors()
      modifies this
      ensures View() == old(View()).ActivateMonitors()
      ensures old(Inv(View())) ==> Inv(View())
    {
      if Inv(View()) {
        ActivateKeepsInv(View());
      }
      if !monitorsActive {
        monitorsActive := true;
        QueueRedrawAll();
      }
    }

    /** The render attempt of a synchronous backend, winit or headless: the old redraw state is
        replaced with `Idle`, and anything but `Queued` there is declared unreachable. */
    method RenderSynchronously(o: OutputId, attempt: Attempt) returns (result: RenderResult)
      requires o in outputState && outputState[o].redraw.Queued?
      modifies this
      ensures (View(), result) == old(View()).RenderSynchronously(o, attempt)
    {
      var frame := if lockState.Locking? || lockState.Locked? then LockFrame else SessionFrame;
      var sequence := (outputState[o].sequence + 1) % SEQUENCE_MODULUS;
      outputState := outputState[o := outputState[o].(redraw := Idle, frame := frame, shown := frame, sequence := sequence)];
      result := if backend.Winit? && attempt.Undamaged? then NoDamage else Submitted;
    }

    method RenderTty(o: OutputId, attempt: Attempt) returns (result: RenderResult)
      requires o in outputState && outputState[o].redraw.IsQueued()
      modifies this
      ensures (View(), result) == old(View()).RenderTty(o, attempt)
    {
      if attempt.Unusable? {
        return Skipped;
      }
      var frame := if lockState.Locking? || lockState.Locked? then LockFrame else SessionFrame;
      if attempt.Accepted? {
        var timer := outputState[o].redraw.Timer();
        if timer.Some? {
          eventLoop := eventLoop.Remove(timer.value);
        }
        var sequence := (outputState[o].sequence + 1) % SEQUENCE_MODULUS;
        outputState := outputState[o := outputState[o].(redraw := WaitingForVBlank(false), frame := frame, sequence := sequence)];
        return Submitted;
      }
      result := Skipped;
      if attempt.Undamaged? {
        outputState := outputState[o := outputState[o].(frame := frame, shown := frame)];
        result := NoDamage;
      }
      QueueEstimatedVBlankTimer(o);
    }

    method QueueEstimatedVBlankTimer(o: OutputId)
      requires o in outputState && outputState[o].redraw.IsQueued()
      modifies this
      ensures View() == old(View()).QueueEstimatedVBlankTimer(o)
    {
      if outputState[o].redraw.Queued? {
        outputState := outputState[o := outputState[o].(redraw := WaitingForEstimatedVBlank(eventLoop.next))];
        eventLoop := eventLoop.Insert(EstimatedVBlank(o));
      } else {
        outputState := outputState[o := outputState[o].(redraw := WaitingForEstimatedVBlank(outputState[o].redraw.token))];
      }
    }

    method RecordResult(o: OutputId, result: RenderResult)
      requires o in outputState
      modifies this
      ensures View() == old(View()).AfterRender(o, result)
    {
      if result == Skipped {
        var timer := outputState[o].redraw.Timer();
        var redraw := if timer.Some? then WaitingForEstimatedVBlank(timer.value) else Idle;
        outputState := outputState[o := outputState[o].(redraw := redraw)];
      }
      if result != Skipped || !monitorsActive {
        var lockRender := if lockState.Locking? || lockState.Locked? then LockRendered else SessionRendered;
        outputState := outputState[o := outputState[o].(lockRender := lockRender)];
      }
    }

    method SettleLock(o: OutputId)
      requires o in outputState
      modifies this
      ensures View() == old(View()).SettleLock(o)
    {
      if lockState.Locking? {
        if outputState[o].lockRender == SessionRendered {
          Unlock();
        } else if forall p <- outputState :: outputState[p].lockRender == LockRendered {
          Confirm(lockState.confirmation);
        }
      }
    }

    method Redraw(o: OutputId, attempt: Attempt)
      requires View().CanRender(o)
      modifies this
      ensures View() == old(View()).Redraw(o, attempt)
      ensures old(Inv(View())) ==> Inv(View())
    {
      if Inv(View()) {
        RedrawKeepsInv(View(), o, attempt);
      }
      var result := Skipped;
      if monitorsActive {
        if backend.Tty? {
          result := RenderTty(o, attempt);
        } else {
          result := RenderSynchronously(o, attempt);
        }
      }
      RecordResult(o, result);
      SettleLock(o);
    }

    /** `redraw_queued_outputs`: redraws queued outputs, in any order and with any outcome of the
        render attempts, until none is queued. The steps taken are reported as a ghost. */
    method RedrawQueuedOutputs(attempts: nat -> Attempt) returns (ghost steps: seq<Step>)
      requires Inv(View())
      modifies this
      ensures Inv(View()) && QueuedOutputs(View()) == {}
      ensures OnlyRedraws(steps) && IsRun(old(View()), steps)
      ensures Completes(old(View()), steps) && View() == After(old(View()), steps)
      ensures |steps| <= 2 * |old(outputState)|
      ensures old(NothingDueAfterVBlank(View())) ==> !lockState.Locking?
    {
      steps := [];
      var n := 0;
      while exists o <- outputState :: outputState[o].redraw.IsQueued()
        invariant Inv(View()) && OnlyRedraws(steps) && IsRun(old(View()), steps)
        invariant Completes(old(View()), steps) && View() == After(old(View()), steps)
        decreases Measure(View())
      {
        var o :| o in outputState && outputState[o].redraw.IsQueued();
        ghost var step := RedrawStep(o, attempts(n));
        NextKeepsInvIff(View(), step);
        RedrawDecreasesMeasure(View(), o, attempts(n));
        RunExtends(old(View()), steps, step);
        Redraw(o, attempts(n));
        steps := steps + [step];
        n := n + 1;
      }
      PassIsShort(old(View()), steps);
      if old(NothingDueAfterVBlank(View())) {
        PassSettlesLock(old(View()), steps);
      }
    }

    method VBlank(o: OutputId, animating: bool)
      requires o in outputState
      modifies this
      ensures View() == old(View()).VBlank(o, animating)
      ensures old(Inv(View()) && outputState[o].redraw.Timer().None?) ==> Inv(View())
    {
      if Inv(View()) && outputState[o].redraw.Timer().None? {
        VBlankKeepsInv(View(), o, animating);
      }
      var redraw := outputState[o].redraw;
      var redrawNeeded := if redraw.WaitingForVBlank? then redraw.redrawNeeded else true;
      var shown := if redraw.WaitingForVBlank? then outputState[o].frame else outputState[o].shown;
      outputState := outputState[o := outputState[o].(redraw := Idle, shown := shown)];
      if redrawNeeded || animating {
        QueueRedraw(o);
      }
    }

    method EstimatedVBlankFires(o: OutputId, animating: bool)
      requires o in outputState && outputState[o].redraw.Timer().Some?
      modifies this
      ensures View() == old(View()).EstimatedVBlankFires(o, animating)
      ensures old(Inv(View())) ==> Inv(View())
    {
      if Inv(View()) {
        EstimatedVBlankKeepsInv(View(), o, animating);
      }
      var redraw := outputState[o].redraw;
      eventLoop := eventLoop.Remove(redraw.token);
      var sequence := (outputState[o].sequence + 1) % SEQUENCE_MODULUS;
      outputState := outputState[o := outputState[o].(redraw := Idle, sequence := sequence)];
      if redraw.WaitingForEstimatedVBlankAndQueued? || animating {
        QueueRedraw(o);
      }
    }

    /** Any event of the environment, handled in place: it runs to its end, and keeps the invariant
        if and only if it is expected. */
    method Handle(step: Step)
      requires Inv(View()) && Enabled(View(), step)
      modifies this
      ensures Runs(old(View()), step) && View() == Next(old(View()), step)
      ensures Inv(View()) <==> Expected(old(View()), step)
      ensures Safe(View()) <==> Expected(old(View()), step)
    {
      SafeIffExpected(View(), step);
      NextKeepsInvIff(View(), step);
      match step
      case LockStep(request, holderAlive) => RequestLock(request, holderAlive);
      case UnlockStep => UnlockRequested();
      case DeadlineStep(_) => ContinueToLocking();
      case SurfaceStep(o, surface) => NewLockSurface(o, surface);
      case CommitStep(o, mapped) => CommitLockSurface(o, mapped);
      case AddStep(o, moved) => AddOutput(o, moved);
      case RemoveStep(o, moved, uiCloses) => RemoveOutput(o, moved, uiCloses);
      case QueueStep(os) => QueueRedraws(os);
      case DeactivateStep(blanked) => DeactivateMonitors(blanked);
      case ActivateStep => ActivateMonitors();
      case RedrawStep(o, attempt) => Redraw(o, attempt);
      case VBlankStep(o, animating) => VBlank(o, animating);
      case EstimatedVBlankStep(_, o, animating) => EstimatedVBlankFires(o, animating);
    }
  }
}
