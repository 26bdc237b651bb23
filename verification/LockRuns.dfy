/** The main results about whole runs of the lock protocol. */
module LockRuns {
  import opened Wrappers
  import opened LockProtocol
  import opened LockSafety

  /** The steps are ones the environment can take, one after the other, and meet its hypotheses. */
  predicate IsRun(s: Session, steps: seq<Step>)
    decreases |steps|
  {
    steps != [] ==>
      && Enabled(s, steps[0]) && Expected(s, steps[0])
      && (Runs(s, steps[0]) ==> IsRun(Next(s, steps[0]), steps[1..]))
  }

  /** No step of the run hits an assertion or an unreachable arm. */
  predicate Completes(s: Session, steps: seq<Step>)
    decreases |steps|
  {
    steps != [] ==> Runs(s, steps[0]) && Completes(Next(s, steps[0]), steps[1..])
  }

  function After(s: Session, steps: seq<Step>): Session
    requires Completes(s, steps)
    decreases |steps|
  {
    if steps == [] then s else After(Next(s, steps[0]), steps[1..])
  }

  /** No screen shows the session. */
  predicate NoSessionVisible(s: Session) {
    forall o <- s.outputs :: s.outputs[o].shown != SessionFrame
  }

  /** No screen shows the session beyond the next VBlank: where it still does, the frame that replaces
      it has been submitted and awaits its VBlank. */
  predicate SessionLeaves(s: Session) {
    && (forall o <- s.outputs :: s.outputs[o].frame != SessionFrame)
    && (forall o <- s.outputs :: s.outputs[o].shown == SessionFrame ==> s.outputs[o].redraw.WaitingForVBlank?)
  }

  function Count(requests: seq<Request>, r: Request): nat {
    if requests == [] then 0
    else Count(requests[..|requests| - 1], r) + if requests[|requests| - 1] == r then 1 else 0
  }

  function Pending(lock: LockState, r: Request): nat {
    if (lock.WaitingForSurfaces? || lock.Locking?) && lock.confirmation == r then 1 else 0
  }

  /** How often request `r` was confirmed, was refused, or is still pending. */
  function Accounted(s: Session, r: Request): nat {
    Count(s.confirmed, r) + Count(s.refused, r) + Pending(s.lock, r)
  }

  lemma StartInv(backend: Backend)
    ensures Inv(Start(backend))
  {
    forall timer: Timer, t: Token ensures Live(Start(backend), timer, t) <==> Awaited(Start(backend), timer, t) {
    }
  }

  lemma {:induction false} RunKeepsInv(s: Session, steps: seq<Step>)
    requires Inv(s) && IsRun(s, steps)
    ensures Completes(s, steps) && Inv(After(s, steps))
    decreases |steps|
  {
    if steps != [] {
      NextKeepsInvIff(s, steps[0]);
      RunKeepsInv(Next(s, steps[0]), steps[1..]);
    }
  }

  /** The first `i` steps of a run are a run, and step `i` continues from where they end. */
  lemma {:induction false} PrefixRuns(s: Session, steps: seq<Step>, i: nat)
    requires Inv(s) && IsRun(s, steps) && i <= |steps|
    ensures IsRun(s, steps[..i]) && Completes(s, steps[..i])
    ensures i < |steps| ==>
              && var here := After(s, steps[..i]);
              && Enabled(here, steps[i]) && Expected(here, steps[i]) && Runs(here, steps[i])
              && Completes(s, steps[..i + 1]) && After(s, steps[..i + 1]) == Next(here, steps[i])
    decreases |steps|
  {
    if i == 0 {
      if steps != [] {
        NextKeepsInvIff(s, steps[0]);
        assert steps[..1][1..] == [];
      }
    } else {
      NextKeepsInvIff(s, steps[0]);
      PrefixRuns(Next(s, steps[0]), steps[1..], i - 1);
      assert steps[..i][1..] == steps[1..][..i - 1];
      if i < |steps| {
        assert steps[..i + 1][1..] == steps[1..][..i];
      }
    }
  }

  lemma {:induction false} RunExtends(s: Session, steps: seq<Step>, step: Step)
    requires IsRun(s, steps) && Completes(s, steps)
    requires Enabled(After(s, steps), step) && Expected(After(s, steps), step) && Runs(After(s, steps), step)
    ensures IsRun(s, steps + [step]) && Completes(s, steps + [step])
    ensures After(s, steps + [step]) == Next(After(s, steps), step)
    decreases |steps|
  {
    if steps == [] {
      assert (steps + [step])[1..] == [];
    } else {
      RunExtends(Next(s, steps[0]), steps[1..], step);
      assert (steps + [step])[1..] == steps[1..] + [step];
    }
  }

  /** A confirmation is given only by entering the locked state. */
  lemma ConfirmingLocks(s: Session, step: Step)
    requires Runs(s, step)
    ensures s.confirmed <= Next(s, step).confirmed
    ensures Next(s, step).confirmed != s.confirmed ==> Next(s, step).lock.Locked?
  {
    match step
    case RedrawStep(o, attempt) => SettlingLocks(Rendered(s, o, attempt), o);
    case RemoveStep(o, moved, _) => SettlingLocks(s.WithoutOutput(o, moved), o);
    case _ =>
  }

  lemma SettlingLocks(s: Session, o: OutputId)
    ensures o in s.outputs ==> s.confirmed <= s.SettleLock(o).confirmed
    ensures o in s.outputs && s.SettleLock(o).confirmed != s.confirmed ==> s.SettleLock(o).lock.Locked?
    ensures s.confirmed <= s.MaybeContinueToLocking().confirmed
    ensures s.MaybeContinueToLocking().confirmed != s.confirmed ==> s.MaybeContinueToLocking().lock.Locked?
    ensures s.confirmed <= s.SettleRemoval().confirmed
    ensures s.SettleRemoval().confirmed != s.confirmed ==> s.SettleRemoval().lock.Locked?
  {
  }

  /** Lock safety. Over every run from the start, on every backend: nothing the code declares
      impossible happens; and when a lock is confirmed, and for as long as the session stays locked,
      no screen shows the session beyond its next VBlank, whatever is plugged in, removed, redrawn or
      powered off meanwhile. */
  lemma EveryRunIsSafe(backend: Backend, steps: seq<Step>)
    requires IsRun(Start(backend), steps)
    ensures Completes(Start(backend), steps)
    ensures forall i | 0 <= i <= |steps| :: Completes(Start(backend), steps[..i])
    ensures forall i | 0 <= i <= |steps| ::
              var s := After(Start(backend), steps[..i]);
              s.lock.Locked? ==> s.AllLocked() && SessionLeaves(s)
    ensures forall i | 0 <= i < |steps| ::
              var before, after := After(Start(backend), steps[..i]), After(Start(backend), steps[..i + 1]);
              before.confirmed <= after.confirmed && (before.confirmed != after.confirmed ==> SessionLeaves(after))
  {
    var s0 := Start(backend);
    StartInv(backend);
    RunKeepsInv(s0, steps);
    forall i | 0 <= i <= |steps|
      ensures Completes(s0, steps[..i])
      ensures Inv(After(s0, steps[..i]))
    {
      PrefixRuns(s0, steps, i);
      RunKeepsInv(s0, steps[..i]);
    }
    forall i | 0 <= i < |steps|
      ensures var before, after := After(s0, steps[..i]), After(s0, steps[..i + 1]);
        before.confirmed <= after.confirmed && (before.confirmed != after.confirmed ==> SessionLeaves(after))
    {
      PrefixRuns(s0, steps, i);
      ConfirmingLocks(After(s0, steps[..i]), steps[i]);
      assert Inv(After(s0, steps[..i + 1]));
    }
  }

  lemma AnswerAccounts(s: Session, request: Request, r: Request)
    ensures Accounted(s.Confirm(request), r) == Count(s.confirmed, r) + Count(s.refused, r) + Count([request], r)
    ensures Accounted(s.Refuse(request), r) == Accounted(s, r) + Count([request], r)
  {
  }

  lemma ContinueAccounts(s: Session, r: Request)
    ensures Accounted(s.ContinueToLocking(), r) == Accounted(s, r)
  {
    if s.lock.WaitingForSurfaces? && s.outputs == map[] {
      AnswerAccounts(s, s.lock.confirmation, r);
    }
  }

  lemma UnlockAccounts(s: Session, r: Request)
    ensures Accounted(s.Unlock(), r) == Accounted(s, r)
  {
    if s.lock.WaitingForSurfaces? || s.lock.Locking? {
      AnswerAccounts(s.(lock := Unlocked), s.lock.confirmation, r);
    }
  }

  lemma RemoveAccounts(s: Session, o: OutputId, moved: set<OutputId>, uiCloses: bool, r: Request)
    requires o in s.outputs
    ensures Accounted(s.RemoveOutput(o, moved, uiCloses), r) == Accounted(s, r)
  {
    var w := s.WithoutOutput(o, moved);
    assert w.confirmed == s.confirmed && w.refused == s.refused && w.lock == s.lock;
    RemovalAccounts(w, r);
  }

  lemma RemovalAccounts(s: Session, r: Request)
    ensures Accounted(s.SettleRemoval(), r) == Accounted(s, r)
  {
    if s.lock.Locking? {
      AnswerAccounts(s, s.lock.confirmation, r);
    } else {
      ContinueAccounts(s, r);
    }
  }

  lemma RedrawAccounts(s: Session, o: OutputId, attempt: Attempt, r: Request)
    requires s.CanRender(o)
    ensures Accounted(s.Redraw(o, attempt), r) == Accounted(s, r)
  {
    var s' := Rendered(s, o, attempt);
    assert s'.confirmed == s.confirmed && s'.refused == s.refused && s'.lock == s.lock;
    SettleAccounts(s', o, r);
  }

  lemma SettleAccounts(s: Session, o: OutputId, r: Request)
    requires o in s.outputs
    ensures Accounted(s.SettleLock(o), r) == Accounted(s, r)
  {
    if s.lock.Locking? {
      UnlockAccounts(s, r);
      AnswerAccounts(s, s.lock.confirmation, r);
    }
  }

  lemma NextAccounts(s: Session, step: Step, r: Request)
    requires Runs(s, step)
    ensures Accounted(Next(s, step), r) == Accounted(s, r) + if step.LockStep? then Count([step.request], r) else 0
  {
    match step
    case LockStep(request, _) => AnswerAccounts(s, request, r);
    case UnlockStep => UnlockAccounts(s, r);
    case DeadlineStep(_) => ContinueAccounts(s, r);
    case CommitStep(o, mapped) =>
      ContinueAccounts(s.With(o, s.outputs[o].(surface := Some(s.outputs[o].surface.value.(mapped := mapped)))), r);
    case RemoveStep(o, moved, uiCloses) => RemoveAccounts(s, o, moved, uiCloses, r);
    case RedrawStep(o, attempt) => RedrawAccounts(s, o, attempt, r);
    case _ =>
  }

  /** How often a run makes request `r`. */
  function Issued(steps: seq<Step>, r: Request): nat {
    if steps == [] then 0
    else (if steps[0].LockStep? then Count([steps[0].request], r) else 0) + Issued(steps[1..], r)
  }

  /** Every lock request is confirmed, refused or still pending, exactly as often as it was made;
      so a request made once is never answered twice, nor both ways, nor lost. */
  lemma {:induction false} EveryRequestAnsweredOnce(s: Session, steps: seq<Step>, r: Request)
    requires Completes(s, steps)
    ensures Accounted(After(s, steps), r) == Accounted(s, r) + Issued(steps, r)
    decreases |steps|
  {
    if steps != [] {
      NextAccounts(s, steps[0], r);
      EveryRequestAnsweredOnce(Next(s, steps[0]), steps[1..], r);
    }
  }

  /** A confirmed lock ends only when a client unlocks. */
  lemma LockedUntilUnlocked(s: Session, step: Step)
    requires Runs(s, step) && s.lock.Locked?
    ensures Next(s, step).lock.Locked? <==> step != UnlockStep
  {
  }

  function QueuedOutputs(s: Session): set<OutputId> {
    set o <- s.outputs | s.outputs[o].redraw.IsQueued()
  }

  /** The variant of the redraw loop: a failed lock re-queues every output, but only once. */
  function Measure(s: Session): nat {
    (if s.lock.Locking? then |s.outputs| else 0) + |QueuedOutputs(s)|
  }

  lemma SubsetIsNoLarger(a: set<OutputId>, b: set<OutputId>)
    requires a <= b
    ensures |a| <= |b|
  {
    assert b == a + (b - a);
  }

  /** A failed lock trades the first component of the measure for at most as many new redraws. */
  lemma SettleKeepsMeasure(s: Session, o: OutputId)
    requires o in s.outputs
    ensures Measure(s.SettleLock(o)) <= Measure(s)
    ensures s.SettleLock(o).outputs.Keys == s.outputs.Keys
  {
    var s' := s.SettleLock(o);
    assert s'.outputs.Keys == s.outputs.Keys;
    assert |s'.outputs| == |s'.outputs.Keys| == |s.outputs|;
    SubsetIsNoLarger(QueuedOutputs(s'), s'.outputs.Keys);
  }

  lemma RedrawDecreasesMeasure(s: Session, o: OutputId, attempt: Attempt)
    requires Inv(s) && s.CanRender(o)
    ensures Measure(s.Redraw(o, attempt)) < Measure(s)
    ensures s.Redraw(o, attempt).outputs.Keys == s.outputs.Keys
  {
    RenderingDecreasesMeasure(s, o, attempt);
    SettleKeepsMeasure(Rendered(s, o, attempt), o);
  }

  lemma RenderingDecreasesMeasure(s: Session, o: OutputId, attempt: Attempt)
    requires Inv(s) && s.CanRender(o)
    ensures var r := Rendered(s, o, attempt);
      Measure(r) < Measure(s) && r.outputs.Keys == s.outputs.Keys && s.Redraw(o, attempt) == r.SettleLock(o)
  {
    RenderedShape(s, o, attempt);
    var r := Rendered(s, o, attempt);
    assert QueuedOutputs(r) == QueuedOutputs(s) - {o};
    assert |r.outputs| == |r.outputs.Keys| == |s.outputs|;
  }

  predicate OnlyRedraws(steps: seq<Step>) {
    forall step <- steps :: step.RedrawStep?
  }

  /** `redraw_queued_outputs` terminates: whatever the backend answers and in whatever order the
      outputs come, a pass makes at most two redraws per output. */
  lemma {:induction false} PassIsShort(s: Session, steps: seq<Step>)
    requires Inv(s) && IsRun(s, steps) && OnlyRedraws(steps)
    ensures Completes(s, steps) && Inv(After(s, steps))
    ensures |steps| + Measure(After(s, steps)) <= Measure(s) <= 2 * |s.outputs|
    decreases |steps|
  {
    assert |s.outputs| == |s.outputs.Keys|;
    SubsetIsNoLarger(QueuedOutputs(s), s.outputs.Keys);
    if steps != [] {
      NextKeepsInvIff(s, steps[0]);
      RedrawDecreasesMeasure(s, steps[0].output, steps[0].attempt);
      PassIsShort(Next(s, steps[0]), steps[1..]);
    }
  }

  /** No output waits for a VBlank with a redraw due after it. */
  predicate NothingDueAfterVBlank(s: Session) {
    forall o <- s.outputs :: s.outputs[o].redraw != WaitingForVBlank(true)
  }

  lemma {:induction false} PassKeepsNothingDue(s: Session, steps: seq<Step>)
    requires Inv(s) && IsRun(s, steps) && OnlyRedraws(steps)
    requires s.lock.Locking? ==> NothingDueAfterVBlank(s)
    ensures Completes(s, steps) && Inv(After(s, steps))
    ensures After(s, steps).lock.Locking? ==> NothingDueAfterVBlank(After(s, steps))
    decreases |steps|
  {
    if steps != [] {
      NextKeepsInvIff(s, steps[0]);
      RenderedShape(s, steps[0].output, steps[0].attempt);
      PassKeepsNothingDue(Next(s, steps[0]), steps[1..]);
    }
  }

  /** Lock progress. A redraw pass that starts with no redraw held back by a VBlank settles the
      lock: it ends locked, or unlocked because some output failed, but never still locking. */
  lemma PassSettlesLock(s: Session, steps: seq<Step>)
    requires Inv(s) && IsRun(s, steps) && OnlyRedraws(steps) && NothingDueAfterVBlank(s)
    requires Completes(s, steps) && QueuedOutputs(After(s, steps)) == {}
    ensures !After(s, steps).lock.Locking?
  {
    PassKeepsNothingDue(s, steps);
    var s' := After(s, steps);
    assert forall o <- s'.outputs :: s'.outputs[o].redraw.IsQueued() ==> o in QueuedOutputs(s');
  }

  /** On a synchronous backend nothing is ever held back, so every pass settles the lock. */
  lemma SynchronousPassSettlesLock(s: Session, steps: seq<Step>)
    requires Inv(s) && !s.backend.Tty? && IsRun(s, steps) && OnlyRedraws(steps)
    requires Completes(s, steps) && QueuedOutputs(After(s, steps)) == {}
    ensures !After(s, steps).lock.Locking?
  {
    PassSettlesLock(s, steps);
  }

  /** On a TTY a pass may leave the lock waiting, but then only for VBlanks. */
  lemma PassWaitsOnlyForVBlanks(s: Session, steps: seq<Step>)
    requires Inv(s) && IsRun(s, steps) && OnlyRedraws(steps)
    requires Completes(s, steps) && QueuedOutputs(After(s, steps)) == {}
    ensures var s' := After(s, steps);
      s'.lock.Locking? ==>
        && !NothingDueAfterVBlank(s')
        && forall o <- s'.outputs :: s'.outputs[o].lockRender == SessionRendered ==> s'.outputs[o].redraw == WaitingForVBlank(true)
  {
    RunKeepsInv(s, steps);
    var s' := After(s, steps);
    if s'.lock.Locking? {
      forall o <- s'.outputs ensures !s'.outputs[o].redraw.IsQueued() {
        assert o !in QueuedOutputs(s');
      }
    }
  }

  function AwaitingVBlank(s: Session): set<OutputId> {
    set o <- s.outputs | s.outputs[o].redraw.WaitingForVBlank?
  }

  /** One VBlank for every output that awaits one releases all held-back redraws. */
  lemma {:induction false} VBlanksReleaseRedraws(s: Session, steps: seq<Step>)
    requires Inv(s) && IsRun(s, steps) && (forall step <- steps :: step.VBlankStep?)
    requires forall o <- AwaitingVBlank(s) :: exists step <- steps :: step.VBlankStep? && step.output == o
    ensures Completes(s, steps) && Inv(After(s, steps)) && NothingDueAfterVBlank(After(s, steps))
    decreases |steps|
  {
    if steps == [] {
      forall o <- s.outputs ensures s.outputs[o].redraw != WaitingForVBlank(true) {
        assert o !in AwaitingVBlank(s);
      }
    } else {
      NextKeepsInvIff(s, steps[0]);
      var s' := Next(s, steps[0]);
      forall o <- AwaitingVBlank(s')
        ensures exists step <- steps[1..] :: step.VBlankStep? && step.output == o
      {
        assert o != steps[0].output && o in AwaitingVBlank(s);
        var step :| step in steps && step.VBlankStep? && step.output == o;
        assert step in steps[1..];
      }
      VBlanksReleaseRedraws(s', steps[1..]);
    }
  }

  /** So on any backend a lock in progress is over once every output that awaits a VBlank has got it
      and one more redraw pass has run. */
  lemma VBlanksAndPassSettleLock(s: Session, vblanks: seq<Step>, pass: seq<Step>)
    requires Inv(s) && IsRun(s, vblanks) && (forall step <- vblanks :: step.VBlankStep?)
    requires forall o <- AwaitingVBlank(s) :: exists step <- vblanks :: step.VBlankStep? && step.output == o
    requires Completes(s, vblanks) && IsRun(After(s, vblanks), pass) && OnlyRedraws(pass)
    requires Completes(After(s, vblanks), pass) && QueuedOutputs(After(After(s, vblanks), pass)) == {}
    ensures !After(After(s, vblanks), pass).lock.Locking?
  {
    VBlanksReleaseRedraws(s, vblanks);
    PassSettlesLock(After(s, vblanks), pass);
  }
}
