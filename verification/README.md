# Verified model of the compositor's protocols and kernels

A Dafny model of the parts of the Sol compositor whose correctness rests on several functions working
together, with proofs of what they keep over whole runs and for all inputs.

- **Session lock and redraw machine** (`LockProtocol`, `LockSafety`, `LockRuns`,
  `LockExactness`, `LockPresentation`, `LockOutcomes`, `Compositor`). A `Session` holds the outputs with their redraw and lock-render states, the lock state,
  the live timers of the event loop and the answers given to lock requests. The steps are locking,
  unlocking, the deadline, lock surfaces appearing and being mapped, outputs coming and going, monitors
  powering on and off, redraw requests, redraws with any outcome of the render attempt, VBlanks and
  estimated VBlanks, for the TTY, winit and headless backends. A run is any sequence of steps the
  environment can take. Each output also carries two things the compositor does not store: the kind of
  the last frame handed to its backend, and the kind of the frame on its screen. On a TTY a frame gets from
  one to the other at the VBlank the output then waits for. `ext-session-lock-v1` asks for the locked frame
  to be presented on every output before a lock is confirmed; the code ensures less, that a locked frame is
  submitted on every output, and the model says exactly what follows for the screens. Two hypotheses about
  the environment are made, named `Expected`: powering the monitors off blanks every output that shows the
  session or is about to, and no VBlank arrives on an output that waits for an estimated one. They are
  exact: a step leaves every further run safe if and only if it meets them, where safe means that nothing
  crashes and that at a confirmation and while locked no screen shows the session beyond its next VBlank.
  The class `Compositor.Niri` performs every operation in place.
- **Output placement** (`OutputNames`, `Placement`, `PlacementOrder`, `PlacementGeometry`,
  `Repositioning`). The order on output names, the matching of configuration sections, the two sorts and
  the greedy placement with its overlap fallback.
- **Accessibility keyboard grabs** (`KeyboardMonitor`). Which key events reach the compositor while clients
  come, go and change their grabs in any interleaving.
- **Event stream state** (`EventStream`, `EventStreamReplica`). The state a client keeps, its events, and
  the replication for a client that joins late.
- **Configuration includes and binds** (`ConfigBinds`, `ConfigInclude`, `ConfigIncludeProofs`,
  `ConfigResults`, `ConfigLoader`). The recursive evaluator that merges every section into one shared
  configuration, over any graph of files, cyclic ones included.
- **Hit testing against drawing** (`HitTest`, `HitTestAgreement`). What the pointer gets at a position, and
  what is drawn there, with the workspaces' geometry and zoom.
- **Kernels**: the Bézier easing (`Bezier`), the gesture rubber band (`RubberBand`), the presentation clock
  (`FrameClock`) and the word splitter of `exec` lines (`ShellSplit`).

Where the source updates fields or loops over collections, a class or a method with loop invariants does
the same and is proved equal to a function on values; the results are then lemmas about those functions.
`dafny verify dfyconfig.toml` checks everything.

## What turned out not to hold

Each is stated with its exact condition, or with a concrete run that shows it.

- On a TTY a lock is confirmed before the locked frames are presented: an ordinary lock is confirmed while
  the screen still shows the session (`LockPresentation.ConfirmedBeforePresented`). A confirmation leaves
  the session on a screen exactly if that screen shows it and its output waits for a VBlank or is the one
  just redrawn by submitting a frame (`LockPresentation.ConfirmationLeavesSessionIff`). It is gone once
  each waiting output has had its VBlank, and never comes back while locked
  (`LockPresentation.LockedSessionLeavesScreens`).
- Powering monitors off blanks nothing on winit and headless, and on a TTY clearing a surface may fail. If an
  output that shows the session, or is about to, is not blanked, some further run confirms a lock while it
  stays there, and otherwise none does (`LockExactness.SafeIffExpected`);
  `LockExactness.UnblankedConfirmation` is one such run from the start.
- A VBlank on an output that waits for an estimated one, which src/backend/tty.rs logs as an error, forgets
  a live timer, which then fires into an unreachable arm (`LockSafety.VBlankIsHarmlessIff`).
- Two placed outputs with fractional sizes can overlap by the rounding, although the sizes used in the
  overlap test do not (`PlacementGeometry.MappedAreDisjointIff`).
- A release is blocked after a press that passed, exactly when that press was the second one, within the
  repeat delay, of a grabbed modifier held and blocked (`KeyboardMonitor.ReleaseMatchesPressIff`,
  `KeyboardMonitor.SecondKeyboardSplitsVerdicts`).
- The comment in `contents_under` asks for consistency with the drawing order. The order agrees always,
  but while the overview is animating closed, or a keyboard workspace switch is under way, the bottom and
  background layers are hit where they are not drawn (`HitTestAgreement.AgreeIff`,
  `HitTestAgreement.AlignedIff`).
- A hot corner hides even an overlay surface from the pointer (`HitTestAgreement.NothingIsHitIff`,
  `HitTestAgreement.HotCornerHidesOverlay`).
- After a change of the variable-refresh mode the clock may predict a time before the last presentation
  (`FrameClock.ModeChangeForgetsLastFrame`).

## Model

| member | source | states |
|---|---|---|
| LockSafety.EnabledStepsRun | src/niri.rs:6010-6039 | a live deadline finds the lock waiting, a live estimated-VBlank timer finds its output waiting for it, and a redraw never meets the head assertion or a backend's unreachable arm |
| LockSafety.NextKeepsInvIff | src/niri.rs:4721-4769 | every step runs to its end, and keeps the invariant (no session frame was the last one submitted to a locked or a dark output, screens show what was submitted unless they wait for a VBlank, a confirmed lock covers all outputs, timers are live exactly while awaited, a lock in progress has the redraws it needs) if and only if it is expected |
| LockSafety.UnlockKeepsInv | src/niri.rs:6041-6053 | unlocking re-establishes the invariant even from a failed lock whose redraws are used up |
| LockSafety.RemoveKeepsInv | src/niri.rs:2963-3035 | removing an output removes its timer, and completes or continues a lock that waited only for it |
| LockSafety.AddKeepsInv | src/niri.rs:2911-2947 | an output plugged in while locked starts locked and undrawn, and gets a redraw |
| LockSafety.EstimatedVBlankKeepsInv | src/backend/tty.rs:1795-1826 | the estimated VBlank removes exactly the timer that fired |
| LockSafety.LostTimerBreaksInv | src/backend/tty.rs:1795-1812 | after a VBlank on an output that waits for an estimated one, the forgotten timer is still live and its callback reaches an unreachable arm |
| LockSafety.VBlankIsHarmlessIff | src/backend/tty.rs:1712-1731 | after a VBlank nothing declared impossible can come next if and only if the output did not wait for an estimated one |
| LockSafety.RenderedShape | src/niri.rs:4690-4743 | a render attempt touches one output, uses up its redraw, submits a session frame only while not locked, changes its screen at once unless it then waits for a VBlank, and never takes back a covered output's lock |
| LockRuns.EveryRunIsSafe | src/niri.rs:547-565 | over every run on every backend nothing declared impossible happens, and when a lock is confirmed and while the session stays locked no screen shows the session beyond its next VBlank |
| LockRuns.EveryRequestAnsweredOnce | src/niri.rs:5925-6053 | over every run each lock request is confirmed, refused or still pending exactly as often as it was made |
| LockRuns.ConfirmingLocks | src/niri.rs:5925-6039 | confirmations are only ever appended, and only on entering the locked state |
| LockRuns.LockedUntilUnlocked | src/handlers/mod.rs:459-472 | a confirmed lock ends exactly when a client unlocks |
| LockRuns.RedrawDecreasesMeasure | src/niri.rs:4745-4769 | each redraw lowers the measure made of the outputs to redraw and the redraws a failed lock may still add |
| LockRuns.PassIsShort | src/niri.rs:3734-3747 | a redraw pass ends after at most two redraws per output, whatever the backend answers and in whatever order outputs come |
| LockRuns.PassSettlesLock | src/niri.rs:3734-3747 | a pass with no redraw held back by a VBlank ends locked or unlocked, never still locking |
| LockRuns.SynchronousPassSettlesLock | src/backend/winit.rs:283-291 | on winit and headless every pass settles the lock |
| LockRuns.PassWaitsOnlyForVBlanks | src/niri.rs:494-507 | on a TTY a pass may leave the lock waiting, but then exactly the uncovered outputs wait for a VBlank with a redraw due after it |
| LockRuns.VBlanksReleaseRedraws | src/backend/tty.rs:1712-1793 | one VBlank on every output that awaits one releases all held-back redraws |
| LockRuns.VBlanksAndPassSettleLock | src/niri.rs:3734-3747 | on any backend a lock in progress is over once every output that awaits a VBlank has got it and one more pass has run |
| LockExactness.InvIsSafe | src/niri.rs:547-565 | from any state in the invariant every run is safe |
| LockExactness.LockingInTheDarkIsUnsafe | src/niri.rs:4733-4769 | with the monitors off, releasing held-back redraws by VBlanks and redrawing the uncovered outputs one by one confirms a lock over a session that stays on a screen |
| LockExactness.PowerOffIsUnsafe | src/backend/tty.rs:2237-2254 | where a power-off, on any backend, leaves an output that shows the session or is about to, some run confirms a lock over it, whatever the lock was doing |
| LockExactness.LostTimerIsUnsafe | src/backend/tty.rs:1795-1812 | after a VBlank on an output that waits for an estimated one some run crashes |
| LockExactness.SafeIffExpected | src/niri.rs:4733-4735 | from any state in the invariant, a step leaves every further run safe if and only if it meets the two hypotheses |
| LockExactness.UnblankedConfirmation | src/backend/mod.rs:172-178 | a concrete run on winit, every step of which the environment can take and only the power-off is unexpected, confirms a lock while an output shows the session with nothing submitted to replace it |
| LockPresentation.ScreensAreUpToDate | src/niri.rs:494-507 | over every run the screen of an output that waits for no VBlank shows the last frame submitted to it |
| LockPresentation.ShowsAfterIff | src/niri.rs:494-507 | exactly which outputs show the session after any step: those that get a session frame on their screen, and those that get none and showed it before |
| LockPresentation.OthersAreCovered | src/niri.rs:4751-4761 | when a step confirms a lock, every output other than one it redraws or removes was covered before it |
| LockPresentation.ConfirmationLeavesSessionIff | src/niri.rs:4733-4769 | a confirming step leaves the session on the screen of an output if and only if the output shows it and either waits for a VBlank or is the one redrawn, by submitting a frame |
| LockPresentation.ConfirmedBeforePresented | src/niri.rs:4733-4769 | a concrete run on a TTY, monitors on and nothing out of the ordinary, confirms a lock while the screen still shows the session |
| LockPresentation.SessionNeverReturns | src/niri.rs:5918-5923 | while the session stays locked an output that does not show it never shows it again, and one that gets a VBlank stops showing it for good |
| LockPresentation.LockedSessionLeavesScreens | src/niri.rs:547-565 | over every run, once locked, only screens that showed the session then and still wait for their VBlank show it, and none does once each waiting output has had its VBlank |
| LockOutcomes.LockAnswerIff | src/niri.rs:5925-5985 | exactly when a request is refused at once, confirmed at once, or waits under a fresh deadline |
| LockOutcomes.WaitEndsIff | src/niri.rs:5987-6008 | a wait for lock surfaces ends exactly by deadline, by unlocking, or when a commit or a removal leaves only mapped lock surfaces |
| LockOutcomes.RedrawEndsLockingIff | src/niri.rs:4721-4769 | exactly when a redraw fails, completes, or continues a lock |
| LockOutcomes.RedrawsAreNotLost | src/niri.rs:638-657 | a redraw that is due stays due through every other step until its output is redrawn or removed |
| LockOutcomes.RedrawServesRequest | src/niri.rs:4673-4769 | a redraw uses up the request, unless it fails a lock, which clears the lock surfaces and asks for all outputs again |
| LockOutcomes.UnlockResets | src/niri.rs:6041-6053 | unlocking clears every lock surface, wakes the monitors and makes every output due for a redraw |
| LockOutcomes.SurfacesBelongToLocker | src/niri.rs:6134-6156 | over every run no output has a lock surface while unlocked, and while a request is pending only surfaces of the requesting client |
| LockOutcomes.SequenceAdvancesOncePerRefresh | src/backend/headless.rs:148-148 | the frame-callback sequence advances by one, modulo 2^32, exactly when a frame is latched or its estimated VBlank passes |
| Compositor.Niri.constructor | src/niri.rs:547-556 | the compositor starts unlocked, with no output and no timer, in the invariant |
| Compositor.Niri.QueueRedraws | src/niri.rs:3721-3732 | the loop requests a redraw of exactly the given outputs |
| Compositor.Niri.RequestLock | src/niri.rs:5925-5985 | `lock` in place: the three refusals, the two immediate confirmations and the wait |
| Compositor.Niri.MaybeContinueToLocking | src/niri.rs:5987-6008 | the loop over outputs goes on to locking exactly if every output has a mapped lock surface |
| Compositor.Niri.ContinueToLocking | src/niri.rs:6010-6039 | removes the deadline and either confirms at once or starts locking with every output queued |
| Compositor.Niri.Unlock | src/niri.rs:6041-6053 | drops the lock and its deadline, clears every lock surface and queues every output |
| Compositor.Niri.UnlockRequested | src/handlers/mod.rs:468-472 | the client's unlock in place, which also wakes the monitors |
| Compositor.Niri.CommitLockSurface | src/handlers/compositor.rs:461-472 | a commit on a lock surface in place: it may end the wait, or is redrawn |
| Compositor.Niri.NewLockSurface | src/niri.rs:6134-6156 | `new_lock_surface` in place |
| Compositor.Niri.AddOutput | src/niri.rs:2911-2947 | `add_output` in place, as far as lock and redraw state go |
| Compositor.Niri.RemoveOutput | src/niri.rs:2963-3035 | `remove_output` in place, as far as lock and redraw state go, with the redraw of all outputs when the screenshot UI closes |
| Compositor.Niri.DeactivateMonitors | src/niri.rs:3087-3094 | turns the monitors off once; on a TTY the outputs whose surface could be cleared then show nothing, and the other backends change nothing |
| Compositor.Niri.ClearSurfaces | src/backend/tty.rs:2237-2254 | the loop clears every surface, of which some may fail |
| Compositor.Niri.ActivateMonitors | src/niri.rs:3096-3105 | turns the monitors on once and queues every output |
| Compositor.Niri.RenderSynchronously | src/backend/headless.rs:129-153 | the synchronous render replaces the queued redraw with idle and advances the sequence |
| Compositor.Niri.RenderTty | src/backend/tty.rs:1843-2004 | the four outcomes of a TTY render attempt and what each leaves of the redraw state and its timer |
| Compositor.Niri.QueueEstimatedVBlankTimer | src/backend/tty.rs:2933-2977 | starts a timer for a queued output, or keeps the one it has |
| Compositor.Niri.RecordResult | src/niri.rs:4711-4743 | what a render result does to the redraw state and to the lock-render state, monitors on or off |
| Compositor.Niri.SettleLock | src/niri.rs:4745-4769 | fails the lock on an uncovered output, completes it when all are covered |
| Compositor.Niri.Redraw | src/niri.rs:4673-4769 | one redraw in place |
| Compositor.Niri.RedrawQueuedOutputs | src/niri.rs:3734-3747 | the loop ends with no output queued, within two redraws per output, in the invariant, having taken only redraw steps, and with the lock settled if nothing waited for a VBlank |
| Compositor.Niri.VBlank | src/backend/tty.rs:1712-1793 | goes idle, and queues again exactly if a redraw was due or animations continue |
| Compositor.Niri.EstimatedVBlankFires | src/backend/tty.rs:1795-1826 | removes the timer, advances the sequence, and queues again if a redraw was queued or animations continue |
| Compositor.Niri.Handle | src/niri.rs:494-565 | any event of the environment in place: it runs to its end, and leaves the compositor in the invariant, and safe, if and only if it is expected |
| OutputNames.CompareIsTotalOrder | sol-config/src/output.rs:241-257 | `compare` ties only identical names, is antisymmetric and transitive |
| OutputNames.MatchesIff | sol-config/src/output.rs:190-237 | a target matches exactly if it is the connector, or the formatted make, model and serial of an output that has any of them, ignoring ASCII case |
| OutputNames.Find | sol-config/src/output.rs:144-146 | finds the first matching section, and finds one exactly if one matches |
| PlacementOrder.SortedIsUnique | src/niri.rs:2757-2790 | with distinct connectors only one arrangement of the outputs is sorted |
| PlacementOrder.PlacementIgnoresArrival | src/niri.rs:2746-2867 | any permutation of the outputs gets the same order and the same positions |
| PlacementOrder.EveryOutputMappedOnce | src/niri.rs:2792-2867 | every output is mapped exactly once, in the sorted order, and nothing else is |
| PlacementOrder.OrderIsConfiguredFirst | src/niri.rs:2773-2790 | configured outputs come first, each kind in the order of the names |
| PlacementOrder.NewOutputIsMoved | src/niri.rs:2840-2866 | a newly added output always counts as moved |
| PlacementOrder.RepositionIsStable | src/niri.rs:2746-2867 | repositioning again moves nothing and announces nothing |
| PlacementGeometry.PlacedApart | src/niri.rs:2799-2853 | no output, in the rounded size the test uses, overlaps an output placed before it |
| PlacementGeometry.PositionsExplained | src/niri.rs:2799-2853 | an output is at its configured position exactly if that is free, and otherwise flush with the rightmost output before it |
| PlacementGeometry.RoundedAreDisjoint | src/niri.rs:2799-2853 | the rounded rectangles of any two outputs are disjoint, for any mix of positions |
| PlacementGeometry.MappedAreDisjointIff | src/niri.rs:2799-2853 | the mapped, rounded-up rectangles are disjoint wherever outputs are configured to be, exactly if every configured output but the first has an integral size |
| Repositioning.OutputSpace.UnmapOutputs | src/niri.rs:2757-2771 | the first loop leaves nothing mapped |
| Repositioning.OutputSpace.PlaceOutputs | src/niri.rs:2799-2866 | the second loop maps the outputs greedily and announces and redraws exactly those that moved |
| Repositioning.OutputSpace.RepositionOutputs | src/niri.rs:2746-2867 | the whole of `reposition_outputs` in place |
| KeyboardMonitor.GrabbedModsAreClientMods | src/dbus/freedesktop_a11y.rs:318-323 | over every run `grabbed_mods` is the union of the modifiers of the present clients |
| KeyboardMonitor.SuppressedIff | src/dbus/freedesktop_a11y.rs:270-313 | over every run `suppressed_keys` holds exactly the keys with a blocked press since their last release |
| KeyboardMonitor.ReleaseBlockedIff | src/dbus/freedesktop_a11y.rs:249-313 | a release is blocked exactly if some press since the previous release was |
| KeyboardMonitor.ReleaseMatchesPressIff | src/dbus/freedesktop_a11y.rs:230-313 | whatever clients do in between, a release gets the verdict of the last press, except exactly when that press was a second one, within the delay, of a grabbed modifier in `suppressed_keys` |
| KeyboardMonitor.PressAndReleaseAgree | src/dbus/freedesktop_a11y.rs:230-313 | for a key pressed once, the release always gets the verdict of the press, and while it is down it is suppressed exactly if its press was blocked |
| KeyboardMonitor.LastPressIsRecorded | src/dbus/freedesktop_a11y.rs:249-268 | the recorded time is that of the last press made while the key was a grabbed modifier |
| KeyboardMonitor.PressBlockedIff | src/dbus/freedesktop_a11y.rs:230-353 | exactly when a press is blocked (a grabbed modifier passes within the repeat delay of its last recorded press, or of time zero if there is none), that a blocked press is sent to some client, and when it counts as a modifier's first press |
| KeyboardMonitor.HeldModifierTakesAllPresses | src/dbus/freedesktop_a11y.rs:230-353 | over every run, while a client's modifier is down with a blocked press, every press of a key that is up is sent to that client, and blocked unless the key is a grabbed modifier pressed within the repeat delay of its last recorded press, or of time zero if there is none |
| KeyboardMonitor.SecondKeyboardSplitsVerdicts | src/dbus/freedesktop_a11y.rs:249-313 | a press that passes although its release is blocked, when the key was already down |
| KeyboardMonitor.Monitor.RebuildGrabbedMods | src/dbus/freedesktop_a11y.rs:318-323 | the loop collects the modifiers of all clients |
| KeyboardMonitor.Monitor.SetKeyGrabs | src/dbus/freedesktop_a11y.rs:165-186 | `set_key_grabs` in place |
| KeyboardMonitor.Monitor.ClientDisappeared | src/dbus/freedesktop_a11y.rs:388-397 | a client that leaves takes its grabs and modifiers with it |
| KeyboardMonitor.Monitor.EmitKeyEvents | src/dbus/freedesktop_a11y.rs:230-247 | the loop sends the event to exactly the clients that should watch it |
| KeyboardMonitor.Monitor.ProcessKey | src/dbus/freedesktop_a11y.rs:216-314 | `process_key` in place: the verdict, the new state and who was sent the event |
| EventStream.ApplyOutcomeIff | sol-ipc/src/state.rs:108-323 | exactly which events panic in which states, and which one no part takes |
| EventStream.ReplicateIff | sol-ipc/src/state.rs:96-106 | replaying `replicate` from the default state gives the state back, in any order of the maps, exactly if every key is its value's id |
| EventStream.ApplyAllKeepsKeys | sol-ipc/src/state.rs:119-323 | every key stays its value's id through any events |
| EventStream.LateJoiner | sol-ipc/src/state.rs:96-117 | a client that receives the replicated state and then the later events ends where one that saw all events does, panics included |
| EventStream.ApplyKeepsCoherenceIff | sol-ipc/src/state.rs:125-238 | one focused window, one focused workspace and one active workspace per output survive an event exactly if it is not a full replacement that breaks them |
| EventStream.RunsAreCoherent | sol-ipc/src/state.rs:125-238 | the same over any sequence of events |
| EventStream.FocusIsEstablished | sol-ipc/src/state.rs:137-207 | a focus change and a focused activation establish unique focus from any state, and an activation makes one workspace active on its output and spares the other outputs |
| EventStreamReplica.Replica.ForEachWorkspace | sol-ipc/src/state.rs:130-152 | a loop over `values_mut` changes every workspace |
| EventStreamReplica.Replica.ForFirstWindow | sol-ipc/src/state.rs:209-226 | a loop that stops at the first window with the id changes exactly that window, in any order of visiting |
| EventStreamReplica.Replica.ApplyWorkspaces | sol-ipc/src/state.rs:125-164 | `apply` on the workspaces in place |
| EventStreamReplica.Replica.ApplyWindows | sol-ipc/src/state.rs:173-238 | `apply` on the windows in place |
| EventStreamReplica.Replica.ApplyLayouts | sol-ipc/src/state.rs:249-263 | `apply` on the keyboard layouts in place |
| EventStreamReplica.Replica.ApplyCasts | sol-ipc/src/state.rs:307-323 | `apply` on the casts in place |
| EventStreamReplica.Replica.Apply | sol-ipc/src/state.rs:108-117 | the whole `apply`, offering the event to each part in turn, keeps every key its value's id |
| ConfigBinds.DecodeBindsIff | sol-config/src/binds.rs:783-818 | a binds section decodes to distinct keys, and without an error exactly if every child decodes cleanly and no key repeats |
| ConfigBinds.DecodeBindsLoop | sol-config/src/binds.rs:783-818 | the loop with its set of seen keys, also that of the window switcher's binds |
| ConfigBinds.MergingKeepsSurvivors | sol-config/src/lib.rs:233-245 | merging sections in turn leaves every section's binds in order, without those a later section replaces |
| ConfigBinds.BindInEffectIff | sol-config/src/recent_windows.rs:51-67 | after merging, keys are distinct, and a bind is in effect exactly if it comes from the last section that mentions its key, or from the initial binds if none does |
| ConfigBinds.DefaultBindsAreDistinct | sol-config/src/recent_windows.rs:223-253 | the built-in window-switcher binds have distinct keys |
| ConfigIncludeProofs.EvaluateIsFold | sol-config/src/lib.rs:155-473 | an error-free evaluation is one left fold of the section merges over the depth-tagged preorder of the include tree, and lists every included path in preorder |
| ConfigIncludeProofs.EvaluateOkIff | sol-config/src/lib.rs:155-473 | an error is reported exactly if somewhere in the tree a single section repeats, a node does not decode, or an include is cyclic, too deep, or unreadable without being optional and missing |
| ConfigIncludeProofs.IncludesAreAllThatMatters | sol-config/src/lib.rs:377-455 | evaluation depends on no file but the reported includes, broken or not |
| ConfigResults.ParseIsFoldOfTree | sol-config/src/lib.rs:530-567 | an error-free parse is the fold over the tree from the default configuration |
| ConfigResults.BindsInEffectIff | sol-config/src/lib.rs:233-309 | after an error-free parse ordinary and window-switcher binds have distinct keys, the bind of a key is that of the last section in preorder, and built-in switcher binds remain only if no section binds anything there |
| ConfigResults.BordersOnIff | sol-config/src/lib.rs:262-293 | borders end up on exactly if some layout section turns them on and no later one turns them off, where an empty border section counts in the main file only |
| ConfigResults.SectionsArePositional | sol-config/src/lib.rs:169-232 | every other field receives exactly the parts of its sections, in preorder |
| ConfigResults.WatchListSuffices | sol-config/src/lib.rs:530-567 | watching the main file and the reported includes notices every change |
| ConfigLoader.Loader.MergeSection | sol-config/src/lib.rs:233-309 | merging one section in place, the single clearing of the switcher's built-in binds included |
| ConfigLoader.Loader.DecodeChildren | sol-config/src/lib.rs:155-473 | the loop over nodes with its set of seen names, recursing through includes |
| ConfigLoader.Loader.DecodeInclude | sol-config/src/lib.rs:311-455 | one include: resolution, recursion limit, cycle check, and the four states of the file |
| ConfigLoader.ParseConfig | sol-config/src/lib.rs:530-567 | a configuration exactly if no error was reported, and the includes in either case |
| HitTestAgreement.LayerItemsUnder | src/niri.rs:4618-4635 | drawing a layer's surfaces one over the other and searching them from the top find the same |
| HitTestAgreement.InWorkspacesUnder | src/niri.rs:4487-4514 | of the copies of the layers drawn with each workspace only those of the workspace at the position count |
| HitTestAgreement.RenderIsSearch | src/niri.rs:4255-4530 | the first input-taking item in drawing order, in both stacking modes and with the overview open or closed, as one search |
| HitTestAgreement.PointerGetsWhatIsDrawn | src/niri.rs:3346-3521 | locked or not, the pointer gets exactly the first input-taking item in drawing order, at the place it is drawn, where hitting and drawing are aligned and no modal dialog or hot corner intervenes |
| HitTestAgreement.SomethingIsMissed | src/niri.rs:3408-3417 | where they are not aligned, one rectangular surface at integer coordinates is hit where it is not drawn, drawn where it is not hit, or reported elsewhere than drawn |
| HitTestAgreement.AgreeIff | src/niri.rs:3346-3521 | the two agree for every scene on a monitor if and only if they are aligned at that position |
| HitTestAgreement.AlignedIff | src/layout/monitor.rs:1493-1571 | on the visible part of an output they are aligned whenever the overview is not animating and no keyboard workspace switch is under way, and the exact condition otherwise |
| HitTestAgreement.ShownIsStacked | src/layout/monitor.rs:1493-1533 | the visible workspaces have one size and are stacked without overlap |
| HitTestAgreement.ActiveFillsView | src/layout/monitor.rs:1493-1571 | with the view at rest the active workspace fills the output and is the one found at every position |
| HitTestAgreement.NothingIsHitIff | src/niri.rs:3361-3492 | a modal dialog takes everything, and exactly when a hot corner does |
| HitTestAgreement.HotCornerHidesOverlay | src/niri.rs:3463-3492 | a hot corner can hide an overlay surface drawn over it, on every monitor without a fullscreen window |
| Bezier.CubicBezier.TForXLoop | src/animation/bezier.rs:29-45 | the bisection halves an interval on which the curve crosses `x`, 31 times |
| Bezier.CubicIsMonotoneAndLipschitz | src/animation/bezier.rs:19-27 | with control values in [0, 1] the curve never goes back and is at most three times as fast as its parameter |
| Bezier.CubicStaysInHull | src/animation/bezier.rs:19-27 | the curve stays in the hull of 0, 1 and its control values |
| Bezier.TForXIsAccurate | src/animation/bezier.rs:29-45 | the parameter found for `x` is one where the curve is within 3/2^32 of `x` |
| Bezier.EasingFollowsCurve | src/animation/bezier.rs:49-59 | the eased value is the ordinate of a curve point whose abscissa is `x` up to that error |
| Bezier.BisectIsMonotone | src/animation/bezier.rs:29-45 | the parameter found never decreases with `x`, whatever the control points |
| Bezier.EasingIsSound | src/animation/bezier.rs:49-59 | easing starts at 0, ends at 1, stays in the hull of 0, 1 and the control ordinates, and is monotone if those are in [0, 1] |
| RubberBand.BandIs | src/rubber_band.rs:8-13 | the band is the fraction c d x / (c x + d) |
| RubberBand.BandSlope | src/rubber_band.rs:8-20 | the band rises, its slope over any distance is between the derivatives at the two ends, and it leaves a straight line only quadratically: `derivative` is its derivative |
| RubberBand.ClampIsSoft | src/rubber_band.rs:22-28 | clamping is the identity exactly on the range, stays within the limit of its ends, and is strictly increasing |
| RubberBand.ClampSlope | src/rubber_band.rs:22-38 | between two positions past the same end the slope is between the values of `clamp_derivative` there, with a quadratic error |
| RubberBand.ClampReaches | src/rubber_band.rs:22-28 | every position within the limit of the range is reached, and no other |
| FrameClock.FrameClock.constructor | src/frame_clock.rs:14-27 | a clock starts without a last presentation |
| FrameClock.FrameClock.SetVrr | src/frame_clock.rs:34-41 | a change of mode, and only that, forgets the last presentation |
| FrameClock.FrameClock.Presented | src/frame_clock.rs:47-54 | records a presentation unless its time is zero |
| FrameClock.FrameClock.NextPresentationTime | src/frame_clock.rs:56-97 | the stepwise prediction equals a closed form |
| FrameClock.FixedRefreshTarget | src/frame_clock.rs:66-97 | without variable refresh the prediction is after now, a whole number of intervals after the last presentation, the first such refresh for a late clock, and within two intervals for an early one |
| FrameClock.VariableRefreshTarget | src/frame_clock.rs:66-97 | with variable refresh it is the later of now and one interval after the last presentation |
| FrameClock.FramesAreSpaced | src/frame_clock.rs:47-97 | in either mode frames presented as predicted are at least one interval apart, whenever the predictions were made |
| FrameClock.FramesAreOnGrid | src/frame_clock.rs:47-97 | without variable refresh they stay on the grid of refreshes |
| FrameClock.ModeChangeForgetsLastFrame | src/frame_clock.rs:34-41 | exactly when a prediction after a mode change is not after the last presentation |
| ShellSplit.SplitLoop | sol-config/src/sol.rs:563-599 | the character loop over its four variables |
| ShellSplit.SplitIff | sol-config/src/sol.rs:563-599 | a text splits into given words exactly if it prints a line of blanks, bare characters and quoted strings with those words |
| ShellSplit.SplitFailsIff | sol-config/src/sol.rs:563-599 | splitting fails exactly if the text ends inside a quote or an escape in one, which no line prints |
| ShellSplit.QuotingRoundTrips | sol-config/src/sol.rs:561-599 | any words, quoted with escapes and joined with spaces, split back into the same words |

## Left out

- Only the kind of a frame (session, lock, blank) is modelled, not its contents, and a screen changes at the VBlank that reports the presentation.
- Refusal is dropping the confirmation object, whose effect on the client is Smithay's and not part of this model.
- The parts of `lock`, `redraw` and output hotplug that concern the screenshot UI, the window switcher, cursors, frame callbacks, presentation feedback, the global-removal timer and VT switching.
- Rendering, DRM planes and damage: a TTY render attempt has one of four outcomes chosen by the environment.
- Overflow of `i32` positions in placement and of `u64` and `Duration` times in the presentation clock.
- Floating point: the Bézier curve, the rubber band and the hit-test geometry are over exact reals, so pixel rounding of workspace positions is left out too.
- Bézier control abscissae outside [0, 1], which the plain-text configuration does not reject, are covered only by `Bezier.BisectIsMonotone` and `Bezier.CubicStaysInHull`.
- Field-by-field merges of configuration sections: a field is represented by the parts merged into it, in order.
- Include errors carry no text or position; path joining and `~` expansion are one function from an include argument to a path.
- The plain-text configuration parser other than its word splitter.
- D-Bus and socket transport: handlers and key events are steps in any interleaving, each under the lock for its whole body.
- IPC fields that no event reads or changes on their own are one opaque value each.
- Hit testing of windows and of the interactively moved window: each is one abstract item, and its agreement with drawing inside the layout is not modelled.
- Hit testing returns positions relative to the output; the final addition of the output's place in the global space is not modelled.
- `window_under` and `is_layout_obscured_under`, which do not follow the above-top stacking mode.
- Springs and deceleration, which need exponentials.
- `ScreenSaver` inhibitors, `XCursor` frames and `AdjustableClock`: small next to the rest.
- The layout engine, input handlers and process spawning.

