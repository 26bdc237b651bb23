/** The session lock and the per-output redraw state machine, as a state machine on values.

    A `Session` is everything the lock protocol reads or writes: the outputs with their redraw and
    lock-render states, the lock state, the live timers of the event loop, and the answers already
    given to lock requests. Each function below is one operation of the compositor or of a
    backend; the class `Compositor.Niri` performs the same operations in place. */
module LockProtocol {
  import opened Wrappers

  type OutputId = nat
  type ClientId = nat
  type Token = nat

  const SEQUENCE_MODULUS := 0x1_0000_0000

  datatype RedrawState =
    | Idle
    | Queued
    | WaitingForVBlank(redrawNeeded: bool)
    | WaitingForEstimatedVBlank(token: Token)
    | WaitingForEstimatedVBlankAndQueued(token: Token)
  {
    predicate IsQueued() {
      Queued? || WaitingForEstimatedVBlankAndQueued?
    }

    /** A redraw will happen: now, or as soon as the awaited VBlank arrives. */
    predicate IsPending() {
      IsQueued() || (WaitingForVBlank? && redrawNeeded)
    }

    function Timer(): Option<Token> {
      if WaitingForEstimatedVBlank? || WaitingForEstimatedVBlankAndQueued? then Some(token) else None
    }

    function QueueRedraw(): RedrawState {
      match this
      case Idle => Queued
      case WaitingForEstimatedVBlank(token) => WaitingForEstimatedVBlankAndQueued(token)
      case Queued => this
      case WaitingForEstimatedVBlankAndQueued(_) => this
      case WaitingForVBlank(_) => WaitingForVBlank(true)
    }
  }

  datatype LockRenderState = SessionRendered | LockRendered

  /** The kind of a frame that is handed to a backend, or that is on a screen. The compositor
      does not store this; `lockRender` is its approximation. */
  datatype Frame = NeverDrawn | SessionFrame | LockFrame | Blank

  datatype LockSurface = LockSurface(client: ClientId, mapped: bool)

  /** `frame` is the last frame handed to the backend, and `shown` the one on the screen: on a TTY a
      frame gets there only at the VBlank that the output then waits for. */
  datatype OutputState = OutputState(
    redraw: RedrawState,
    lockRender: LockRenderState,
    surface: Option<LockSurface>,
    sequence: nat,
    frame: Frame,
    shown: Frame)
  {
    function QueueRedraw(): OutputState {
      this.(redraw := redraw.QueueRedraw())
    }
  }

  /** A client's request to lock: the confirmation object that is answered exactly once. */
  datatype Request = Request(id: nat, client: ClientId)

  datatype LockState =
    | Unlocked
    | WaitingForSurfaces(confirmation: Request, deadline: Token)
    | Locking(confirmation: Request)
    | Locked(lock: Request)

  datatype Timer = Deadline | EstimatedVBlank(output: OutputId)

  /** The live sources of the event loop. A new source gets a token never used before. */
  datatype EventLoop = EventLoop(timers: map<Token, Timer>, next: Token) {
    function Insert(timer: Timer): EventLoop {
      EventLoop(timers[next := timer], next + 1)
    }

    function Remove(token: Token): EventLoop {
      this.(timers := timers - {token})
    }
  }

  datatype Backend = Tty | Winit | Headless

  datatype RenderResult = Submitted | NoDamage | Skipped

  /** What the environment lets one render attempt do: the surface is unusable, rendering or
      queueing the frame fails, the frame equals the shown one, or it is accepted. */
  datatype Attempt = Unusable | Fails | Undamaged | Accepted

  datatype Session = Session(
    backend: Backend,
    outputs: map<OutputId, OutputState>,
    lock: LockState,
    monitorsActive: bool,
    loop: EventLoop,
    confirmed: seq<Request>,
    refused: seq<Request>)
  {
    predicate IsLocked() {
      lock.Locking? || lock.Locked?
    }

    predicate AllLocked() {
      forall o <- outputs :: outputs[o].lockRender == LockRendered
    }

    predicate AllSurfacesMapped() {
      forall o <- outputs :: outputs[o].surface.Some? && outputs[o].surface.value.mapped
    }

    function Confirm(request: Request): Session {
      this.(confirmed := confirmed + [request], lock := Locked(request))
    }

    /** The confirmation object is dropped without being used, which tells the client it failed. */
    function Refuse(request: Request): Session {
      this.(refused := refused + [request])
    }

    function With(o: OutputId, state: OutputState): Session {
      this.(outputs := outputs[o := state])
    }

    function QueueRedraw(o: OutputId): Session
      requires o in outputs
    {
      With(o, outputs[o].QueueRedraw())
    }

    function QueueRedraws(os: set<OutputId>): Session {
      this.(outputs := map o | o in outputs :: if o in os then outputs[o].QueueRedraw() else outputs[o])
    }

    function QueueRedrawAll(): Session {
      QueueRedraws(outputs.Keys)
    }

    function RequestLock(request: Request, holderAlive: bool): Session {
      match lock
      case WaitingForSurfaces(_, _) => Refuse(request)
      case Locking(_) => Refuse(request)
      case Locked(_) => if holderAlive then Refuse(request) else Confirm(request)
      case Unlocked =>
        if outputs == map[] then Confirm(request)
        else this.(loop := loop.Insert(Deadline), lock := WaitingForSurfaces(request, loop.next))
    }

    function ContinueToLocking(): Session {
      match lock
      case WaitingForSurfaces(request, deadline) =>
        var s := this.(loop := loop.Remove(deadline));
        if outputs == map[] then s.Confirm(request)
        else s.(lock := Locking(request)).QueueRedrawAll()
      case _ => this
    }

    function MaybeContinueToLocking(): Session {
      if lock.WaitingForSurfaces? && AllSurfacesMapped() then ContinueToLocking() else this
    }

    /** Drops whatever the lock state holds: a pending confirmation and its deadline. */
    function DropLock(): Session {
      match lock
      case WaitingForSurfaces(request, deadline) => this.(loop := loop.Remove(deadline), lock := Unlocked).Refuse(request)
      case Locking(request) => this.(lock := Unlocked).Refuse(request)
      case _ => this.(lock := Unlocked)
    }

    function ClearLockSurfaces(): Session {
      this.(outputs := map o | o in outputs :: outputs[o].(surface := None))
    }

    function Unlock(): Session {
      DropLock().ClearLockSurfaces().QueueRedrawAll()
    }

    function NewLockSurface(o: OutputId, surface: LockSurface): Session {
      if lock.Unlocked? then this
      else
        var holder := if lock.Locked? then lock.lock else lock.confirmation;
        if holder.client != surface.client || o !in outputs then this
        else With(o, outputs[o].(surface := Some(surface)))
    }

    /** A commit on the lock surface of an output maps or unmaps it. */
    function CommitLockSurface(o: OutputId, mapped: bool): Session
      requires o in outputs && outputs[o].surface.Some?
    {
      var s := With(o, outputs[o].(surface := Some(outputs[o].surface.value.(mapped := mapped))));
      if lock.WaitingForSurfaces? then s.MaybeContinueToLocking() else s.QueueRedraw(o)
    }

    /** `moved` are the outputs that repositioning moves; the new output is always among them. */
    function AddOutput(o: OutputId, moved: set<OutputId>): Session
      requires o !in outputs
    {
      var lockRender := if IsLocked() then LockRendered else SessionRendered;
      With(o, OutputState(Idle, lockRender, None, 0, NeverDrawn, NeverDrawn)).QueueRedraws(moved + {o})
    }

    /** The part of removing an output that precedes the check of the lock. */
    function WithoutOutput(o: OutputId, moved: set<OutputId>): Session
      requires o in outputs
    {
      var timer := outputs[o].redraw.Timer();
      var s := QueueRedraws(moved - {o});
      s.(outputs := s.outputs - {o}, loop := if timer.Some? then loop.Remove(timer.value) else loop)
    }

    /** Checks whether the lock waited only for the output just removed. */
    function SettleRemoval(): Session {
      match lock
      case Locking(request) => if AllLocked() then Confirm(request) else this
      case _ => MaybeContinueToLocking()
    }

    /** `uiCloses` tells that the screenshot UI was open, and closes. */
    function RemoveOutput(o: OutputId, moved: set<OutputId>, uiCloses: bool): Session
      requires o in outputs
    {
      var s := WithoutOutput(o, moved).SettleRemoval();
      if uiCloses then s.QueueRedrawAll() else s
    }

    /** A TTY disables the CRTC of every output, which detaches its framebuffer. That succeeds for the
        outputs in `blanked`; a failure is only logged. The other backends do nothing. */
    function DeactivateMonitors(blanked: set<OutputId>): Session {
      if !monitorsActive then this
      else
        var s := this.(monitorsActive := false);
        if !backend.Tty? then s
        else s.(outputs := map o | o in outputs :: if o in blanked then outputs[o].(frame := Blank, shown := Blank) else outputs[o])
    }

    function ActivateMonitors(): Session {
      if monitorsActive then this else this.(monitorsActive := true).QueueRedrawAll()
    }

    /** The client unlocks: the compositor also wakes the monitors up. */
    function UnlockRequested(): Session {
      Unlock().ActivateMonitors()
    }

    function QueueEstimatedVBlankTimer(o: OutputId): Session
      requires o in outputs && outputs[o].redraw.IsQueued()
    {
      match outputs[o].redraw
      case Queued =>
        this.(loop := loop.Insert(EstimatedVBlank(o)))
            .With(o, outputs[o].(redraw := WaitingForEstimatedVBlank(loop.next)))
      case WaitingForEstimatedVBlankAndQueued(token) =>
        With(o, outputs[o].(redraw := WaitingForEstimatedVBlank(token)))
    }

    /** The frame the compositor draws at this moment. */
    function CurrentFrame(): Frame {
      if IsLocked() then LockFrame else SessionFrame
    }

    function RenderTty(o: OutputId, attempt: Attempt): (r: (Session, RenderResult))
      requires o in outputs && outputs[o].redraw.IsQueued()
    {
      match attempt
      case Unusable => (this, Skipped)
      case Fails => (QueueEstimatedVBlankTimer(o), Skipped)
      case Undamaged =>
        (With(o, outputs[o].(frame := CurrentFrame(), shown := CurrentFrame())).QueueEstimatedVBlankTimer(o), NoDamage)
      case Accepted =>
        var out := outputs[o];
        var timer := out.redraw.Timer();
        var s := this.(loop := if timer.Some? then loop.Remove(timer.value) else loop);
        (s.With(o, out.(redraw := WaitingForVBlank(false), frame := CurrentFrame(),
                        sequence := (out.sequence + 1) % SEQUENCE_MODULUS)), Submitted)
    }

    /** Winit and headless render synchronously. The precondition is the one state their
        `match` on the old redraw state does not declare unreachable. */
    function RenderSynchronously(o: OutputId, attempt: Attempt): (r: (Session, RenderResult))
      requires o in outputs && outputs[o].redraw.Queued?
    {
      var out := outputs[o];
      (With(o, out.(redraw := Idle, frame := CurrentFrame(), shown := CurrentFrame(),
                    sequence := (out.sequence + 1) % SEQUENCE_MODULUS)),
       if backend.Winit? && attempt.Undamaged? then NoDamage else Submitted)
    }

    predicate CanRender(o: OutputId) {
      o in outputs && outputs[o].redraw.IsQueued() && (!backend.Tty? ==> outputs[o].redraw.Queued?)
    }

    function Render(o: OutputId, attempt: Attempt): (r: (Session, RenderResult))
      requires CanRender(o)
    {
      if backend.Tty? then RenderTty(o, attempt) else RenderSynchronously(o, attempt)
    }

    /** The bookkeeping of `redraw` after the backend reported `result` for output `o`. */
    function AfterRender(o: OutputId, result: RenderResult): Session
      requires o in outputs
    {
      var out := outputs[o];
      var redraw :=
        if !result.Skipped? then out.redraw
        else if out.redraw.Timer().Some? then WaitingForEstimatedVBlank(out.redraw.Timer().value)
        else Idle;
      var lockRender :=
        if result.Skipped? && monitorsActive then out.lockRender
        else if IsLocked() then LockRendered
        else SessionRendered;
      With(o, out.(redraw := redraw, lockRender := lockRender))
    }

    /** Checks whether locking is now complete, or has failed on output `o`. */
    function SettleLock(o: OutputId): Session
      requires o in outputs
    {
      match lock
      case Locking(request) =>
        if outputs[o].lockRender == SessionRendered then Unlock()
        else if AllLocked() then Confirm(request)
        else this
      case _ => this
    }

    function Redraw(o: OutputId, attempt: Attempt): Session
      requires CanRender(o)
    {
      var (s, result) := if monitorsActive then Render(o, attempt) else (this, Skipped);
      s.AfterRender(o, result).SettleLock(o)
    }

    /** The kernel presented the submitted frame. */
    function VBlank(o: OutputId, animating: bool): Session
      requires o in outputs
    {
      var out := outputs[o];
      var redrawNeeded := if out.redraw.WaitingForVBlank? then out.redraw.redrawNeeded else true;
      var s := With(o, out.(redraw := Idle, shown := if out.redraw.WaitingForVBlank? then out.frame else out.shown));
      if redrawNeeded || animating then s.QueueRedraw(o) else s
    }

    /** The timer callback; the precondition excludes the arms it declares unreachable. */
    function EstimatedVBlankFires(o: OutputId, animating: bool): Session
      requires o in outputs && outputs[o].redraw.Timer().Some?
    {
      var out := outputs[o];
      var s := this.(loop := loop.Remove(out.redraw.Timer().value));
      var out' := out.(sequence := (out.sequence + 1) % SEQUENCE_MODULUS);
      if out.redraw.WaitingForEstimatedVBlankAndQueued? then s.With(o, out'.(redraw := Queued))
      else if animating then s.With(o, out'.(redraw := Queued))
      else s.With(o, out'.(redraw := Idle))
    }
  }

  function Start(backend: Backend): Session {
    Session(backend, map[], Unlocked, true, EventLoop(map[], 0), [], [])
  }

  datatype Step =
    | LockStep(request: Request, holderAlive: bool)
    | UnlockStep
    | DeadlineStep(token: Token)
    | SurfaceStep(output: OutputId, surface: LockSurface)
    | CommitStep(output: OutputId, mapped: bool)
    | AddStep(output: OutputId, moved: set<OutputId>)
    | RemoveStep(output: OutputId, moved: set<OutputId>, uiCloses: bool)
    | QueueStep(outputs: set<OutputId>)
    | DeactivateStep(blanked: set<OutputId>)
    | ActivateStep
    | RedrawStep(output: OutputId, attempt: Attempt)
    | VBlankStep(output: OutputId, animating: bool)
    | EstimatedVBlankStep(token: Token, output: OutputId, animating: bool)

  /** When the environment can take a step. Timer steps need only a live timer and redraw steps
      only a queued output: what else the callbacks need is proved, not assumed. */
  predicate Enabled(s: Session, step: Step) {
    match step
    case DeadlineStep(token) => token in s.loop.timers && s.loop.timers[token] == Deadline
    case CommitStep(o, _) => o in s.outputs && s.outputs[o].surface.Some?
    case AddStep(o, _) => o !in s.outputs
    case RemoveStep(o, _, _) => o in s.outputs
    case RedrawStep(o, _) => o in s.outputs && s.outputs[o].redraw.IsQueued()
    case VBlankStep(o, _) => s.backend.Tty? && o in s.outputs
    case EstimatedVBlankStep(token, o, _) => token in s.loop.timers && s.loop.timers[token] == EstimatedVBlank(o)
    case _ => true
  }

  /** The two hypotheses the compositor makes about its environment: powering the monitors off
      blanks every output that shows the session or is about to, and no VBlank arrives on an output
      that waits for an estimated one. */
  predicate Expected(s: Session, step: Step) {
    match step
    case DeactivateStep(blanked) =>
      s.monitorsActive ==> forall o <- s.outputs :: s.outputs[o].frame == SessionFrame ==> s.backend.Tty? && o in blanked
    case VBlankStep(o, _) => o in s.outputs ==> s.outputs[o].redraw.Timer().None?
    case _ => true
  }

  /** The step does not run into an assertion, an `unreachable!` or the error arm of
      `continue_to_locking`. */
  predicate Runs(s: Session, step: Step) {
    match step
    case DeadlineStep(token) => s.lock.WaitingForSurfaces? && s.lock.deadline == token
    case CommitStep(o, _) => o in s.outputs && s.outputs[o].surface.Some?
    case AddStep(o, _) => o !in s.outputs
    case RemoveStep(o, _, _) => o in s.outputs
    case RedrawStep(o, _) => s.CanRender(o)
    case VBlankStep(o, _) => o in s.outputs
    case EstimatedVBlankStep(token, o, _) => o in s.outputs && s.outputs[o].redraw.Timer() == Some(token)
    case _ => true
  }

  function Next(s: Session, step: Step): Session
    requires Runs(s, step)
  {
    match step
    case LockStep(request, holderAlive) => s.RequestLock(request, holderAlive)
    case UnlockStep => s.UnlockRequested()
    case DeadlineStep(_) => s.ContinueToLocking()
    case SurfaceStep(o, surface) => s.NewLockSurface(o, surface)
    case CommitStep(o, mapped) => s.CommitLockSurface(o, mapped)
    case AddStep(o, moved) => s.AddOutput(o, moved)
    case RemoveStep(o, moved, uiCloses) => s.RemoveOutput(o, moved, uiCloses)
    case QueueStep(os) => s.QueueRedraws(os)
    case DeactivateStep(blanked) => s.DeactivateMonitors(blanked)
    case ActivateStep => s.ActivateMonitors()
    case RedrawStep(o, attempt) => s.Redraw(o, attempt)
    case VBlankStep(o, animating) => s.VBlank(o, animating)
    case EstimatedVBlankStep(_, o, animating) => s.EstimatedVBlankFires(o, animating)
  }
}
